/**
 * The admin panel's helpers (admin_panel/utils.py): the office-to-categories table and
 * the status-update e-mail. The user's `profile.email_notifications` flag is a parameter
 * (the profile model is not part of this model); sending is appending to the outbox.
 */
module AdminPanel {
  import opened Wrappers
  import opened Text
  import opened Directory
  import opened Store
  import opened Routing

  /** `OFFICE_TICKET_CATEGORIES`; the registrar's name has a right single quotation mark. */
  const OfficeTicketCategories: map<string, seq<string>> := map[
    "Registrar\U{2019}s Office" := ["academic"],
    "ETC" := ["technical"],
    "Physical Plant and Facilities Management Office" := ["facilities"],
    "Principal Office" := ["lostfound"],
    "Office of Student Services" := ["lostfound"],
    "Guidance Office" := ["welfare"],
    "Office of Media, Alumni, and Public Affairs" := ["general"]]

  const MediaOffice: string := "Office of Media, Alumni, and Public Affairs"

  /** Every office handles exactly one category. */
  lemma OneCategoryPerOffice()
    ensures forall o :: o in OfficeTicketCategories ==> |OfficeTicketCategories[o]| == 1
  {
  }

  /** Lost-and-found belongs to two offices; `general` only to the media office. */
  lemma SharedAndSoleCategories()
    ensures forall o :: o in OfficeTicketCategories ==>
      ("lostfound" in OfficeTicketCategories[o] <==> o in {"Principal Office", "Office of Student Services"})
    ensures forall o :: o in OfficeTicketCategories ==> ("general" in OfficeTicketCategories[o] <==> o == MediaOffice)
  {
    forall o | o in OfficeTicketCategories
      ensures "lostfound" in OfficeTicketCategories[o] <==> o in {"Principal Office", "Office of Student Services"}
      ensures "general" in OfficeTicketCategories[o] <==> o == MediaOffice
    {
      assert OfficeTicketCategories[o] == [OfficeTicketCategories[o][0]];
    }
  }

  /** Each category the intended routing table sends somewhere is one that office lists. */
  lemma IntendedRoutingAgreesWithOffices()
    ensures forall c :: c in IntendedCategoryMap ==>
      IntendedCategoryMap[c] in OfficeTicketCategories && c in OfficeTicketCategories[IntendedCategoryMap[c]]
  {
    forall c | c in IntendedCategoryMap
      ensures IntendedCategoryMap[c] in OfficeTicketCategories && c in OfficeTicketCategories[IntendedCategoryMap[c]]
    {
      assert c in {"academic", "technical", "facilities", "lostfound", "welfare"};
    }
  }

  /**
   * The routing table as written disagrees: its joined key is a category no office
   * lists, while the Guidance Office lists `welfare`; and `general` tickets are routed
   * nowhere.
   */
  lemma RoutingMissesListedCategories(offices: seq<Office>, profiles: seq<StaffProfile>)
    ensures "Office of Student Serviceswelfare" in CategoryMap
    ensures forall o :: o in OfficeTicketCategories ==> "Office of Student Serviceswelfare" !in OfficeTicketCategories[o]
    ensures "welfare" in OfficeTicketCategories["Guidance Office"]
    ensures Route(CategoryMap, offices, profiles, "general") == Unmapped
  {
    CategoryMapKeys();
    OneCategoryPerOffice();
    forall o | o in OfficeTicketCategories
      ensures "Office of Student Serviceswelfare" !in OfficeTicketCategories[o]
    {
      var c := OfficeTicketCategories[o][0];
      assert OfficeTicketCategories[o] == [c];
      assert |c| < |"Office of Student Serviceswelfare"|;
    }
    assert "general" !in CategoryMap;
  }

  function StatusSubject(ticketId: nat): string
  {
    "Ticket " + NatToString(ticketId) + " Status Update"
  }

  /** The subject names the ticket: its digits read back as the ticket id. */
  lemma StatusSubjectNamesTicket(ticketId: nat)
    ensures var s := StatusSubject(ticketId);
      |s| > 21 && s[..7] == "Ticket " && DigitsValue(s[7..|s| - 14]) == ticketId
  {
    var s := StatusSubject(ticketId);
    assert s[7..|s| - 14] == NatToString(ticketId);
    NatToStringRoundTrip(ticketId);
  }

  /** The message body: a greeting by name, then the ticket number and its new status, quoted. */
  function StatusBody(name: string, id: string, newStatus: string): string
  {
    "Hello " + name + ",\n\nYour ticket #" + id + " has been updated to '" + newStatus + "'."
  }

  /** The body starts by greeting the user by name. */
  lemma StatusBodyGreets(name: string, id: string, newStatus: string)
    ensures "Hello " + name + "," <= StatusBody(name, id, newStatus)
  {
    var greeting := "Hello " + name + ",";
    assert StatusBody(name, id, newStatus)[..|greeting|] == greeting;
  }

  /** The body carries the ticket number. */
  lemma {:induction false} StatusBodyNamesTicket(name: string, id: string, newStatus: string)
    ensures Contains(StatusBody(name, id, newStatus), "#" + id + " ")
  {
    var head := "Hello " + name + ",\n\nYour ticket ";
    var tail := "has been updated to '" + newStatus + "'.";
    assert StatusBody(name, id, newStatus) == head + ("#" + id + " ") + tail;
    InfixContained(head, "#" + id + " ", tail);
  }

  /** The body carries the new status, in quotes. */
  lemma {:induction false} StatusBodyShowsStatus(name: string, id: string, newStatus: string)
    ensures Contains(StatusBody(name, id, newStatus), "'" + newStatus + "'")
  {
    var front := "Hello " + name + ",\n\nYour ticket #" + id + " has been updated to ";
    assert StatusBody(name, id, newStatus) == front + ("'" + newStatus + "'") + ".";
    InfixContained(front, "'" + newStatus + "'", ".");
  }

  /**
   * `send_ticket_status_email(user, ticket_id, new_status)`, as the mail it sends: none
   * when the user opted out, otherwise one message to the user's address.
   */
  function StatusEmail(user: User, emailNotifications: bool, ticketId: nat, newStatus: string): (r: Option<Mail>)
    ensures r.None? <==> !emailNotifications
    ensures r.Some? ==> r.value.recipients == [user.email] && r.value.subject == StatusSubject(ticketId)
    ensures r.Some? ==> r.value.body == StatusBody(FullName(user), NatToString(ticketId), newStatus)
  {
    if !emailNotifications then None
    else Some(Mail(StatusSubject(ticketId), StatusBody(FullName(user), NatToString(ticketId), newStatus), [user.email]))
  }

  method SendTicketStatusEmail(db: Database, user: User, emailNotifications: bool, ticketId: nat, newStatus: string)
    modifies db`outbox
    ensures var m := StatusEmail(user, emailNotifications, ticketId, newStatus);
      db.outbox == old(db.outbox) + (if m.Some? then [m.value] else [])
  {
    var m := StatusEmail(user, emailNotifications, ticketId, newStatus);
    if m.Some? {
      db.SendMail(m.value);
    }
  }
}
