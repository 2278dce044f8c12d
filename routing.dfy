/**
 * Routing a ticket to an office and a staff member of that office (tickets/utils.py).
 * The category table is a parameter of `Route` and `AssignOfficeAndStaff`;
 * `CategoryMap` is the table as the dictionary literal actually evaluates, and
 * `IntendedCategoryMap` the table its layout shows was meant.
 */
module Routing {
  import opened Wrappers
  import opened Ordering
  import opened Directory
  import opened TicketModels
  import opened Schema
  import opened Store

  /**
   * The literal as Python reads it: a missing comma after 'Office of Student Services'
   * joins that string and 'welfare' into one key, so there is no 'welfare' key. The
   * registrar's name is spelled with a right single quotation mark (U+2019).
   */
  const CategoryMap: map<string, string> := map[
    "academic" := "Registrar\U{2019}s Office",
    "technical" := "ETC",
    "facilities" := "Physical Plant and Facilities Management Office",
    "lostfound" := "Principal Office",
    "Office of Student Serviceswelfare" := "Guidance Office"]

  /** The table with its one key per line, as laid out. */
  const IntendedCategoryMap: map<string, string> := map[
    "academic" := "Registrar\U{2019}s Office",
    "technical" := "ETC",
    "facilities" := "Physical Plant and Facilities Management Office",
    "lostfound" := "Principal Office",
    "welfare" := "Guidance Office"]

  /** What the routing step decides for one ticket. */
  datatype Routed =
    | Unmapped                       // no office name for the category: nothing happens
    | NoSuchOffice                   // no office has that exact name: unassigned, not saved
    | Assigned(staff: Option<UserId>) // assigned (or unassigned when the office has no staff) and saved

  /** `StaffProfile.objects.filter(office=office).first()`: the first profile in primary-key order. */
  function FirstProfile(profiles: seq<StaffProfile>, officeId: OfficeId): (r: Option<StaffProfile>)
    ensures r.Some? ==> r.value in profiles && r.value.office == officeId
    ensures r.None? ==> forall i :: 0 <= i < |profiles| ==> profiles[i].office != officeId
    ensures r.Some? && Ascending(profiles, ProfileKey) ==>
      forall i :: 0 <= i < |profiles| && profiles[i].office == officeId ==> r.value.id <= profiles[i].id
  {
    if profiles == [] then None
    else if profiles[0].office == officeId then
      assert Ascending(profiles, ProfileKey) ==> forall i :: 0 < i < |profiles| ==> ProfileKey(profiles[0]) < ProfileKey(profiles[i]);
      Some(profiles[0])
    else
      var r := FirstProfile(profiles[1..], officeId);
      assert forall i :: 0 < i < |profiles| ==> profiles[1..][i - 1] == profiles[i];
      assert Ascending(profiles, ProfileKey) ==> Ascending(profiles[1..], ProfileKey);
      r
  }

  /**
   * The decision of `assign_office_and_staff` for a ticket of `category`: look the
   * category up (an empty office name counts as none), find the office by exact name,
   * take the user of its first staff profile.
   */
  function Route(categories: map<string, string>, offices: seq<Office>, profiles: seq<StaffProfile>, category: string): (r: Routed)
    ensures (category !in categories || categories[category] == "") <==> r == Unmapped
    ensures category in categories && categories[category] != "" ==>
      (r == NoSuchOffice <==> forall k :: 0 <= k < |offices| ==> offices[k].name != categories[category])
    // a staff member is assigned only from the mapped office
    ensures r.Assigned? && r.staff.Some? ==>
      exists i, k :: 0 <= i < |profiles| && 0 <= k < |offices| &&
        profiles[i].user == r.staff.value && profiles[i].office == offices[k].id &&
        offices[k].name == categories[category]
    // the assignee is the user of the first (lowest primary key) profile of the office found by name
    ensures r.Assigned? ==>
      var o := FindOfficeNamed(offices, categories[category]);
      o.Some? && r.staff == (if FirstProfile(profiles, o.value.id).Some? then Some(FirstProfile(profiles, o.value.id).value.user) else None)
    // nobody is assigned only when the mapped office has no staff
    ensures r == Assigned(None) ==>
      exists k :: 0 <= k < |offices| && offices[k].name == categories[category] &&
        forall i :: 0 <= i < |profiles| ==> profiles[i].office != offices[k].id
  {
    if category !in categories || categories[category] == "" then Unmapped
    else
      match FindOfficeNamed(offices, categories[category])
      case None => NoSuchOffice
      case Some(office) =>
        var k :| 0 <= k < |offices| && offices[k] == office;
        match FirstProfile(profiles, office.id)
        case None => Assigned(None)
        case Some(p) =>
          var i :| 0 <= i < |profiles| && profiles[i] == p;
          Assigned(Some(p.user))
  }

  /** With unique office names, an office that has a staff profile always gets its ticket assigned. */
  lemma {:induction false} StaffedOfficeRoutes(categories: map<string, string>, offices: seq<Office>, profiles: seq<StaffProfile>,
                                               category: string, k: nat, i: nat)
    requires category in categories && categories[category] != ""
    requires k < |offices| && offices[k].name == categories[category] && DistinctBy(offices, OfficeNameKey)
    requires i < |profiles| && profiles[i].office == offices[k].id
    ensures Route(categories, offices, profiles, category).Assigned?
    ensures Route(categories, offices, profiles, category).staff.Some?
  {
    var o := FindOfficeNamed(offices, categories[category]);
    assert o.Some?;
    var k' :| 0 <= k' < |offices| && offices[k'] == o.value;
    assert OfficeNameKey(offices[k']) == OfficeNameKey(offices[k]);
    assert FirstProfile(profiles, offices[k].id).Some?;
  }

  /** The keys the literal really has. */
  lemma CategoryMapKeys()
    ensures CategoryMap.Keys == {"academic", "technical", "facilities", "lostfound", "Office of Student Serviceswelfare"}
    ensures "welfare" !in CategoryMap
    ensures CategoryMap["lostfound"] == "Principal Office"
  {
  }

  /** A welfare ticket is never routed: no office name, no assignment, no save. */
  lemma WelfareUnmapped(offices: seq<Office>, profiles: seq<StaffProfile>)
    ensures Route(CategoryMap, offices, profiles, "welfare") == Unmapped
  {
    CategoryMapKeys();
  }

  /** The intended table sends welfare tickets to the Guidance Office and agrees elsewhere. */
  lemma IntendedWelfareRoutes()
    ensures IntendedCategoryMap["welfare"] == "Guidance Office"
    ensures forall c :: c in CategoryMap && c in IntendedCategoryMap ==> CategoryMap[c] == IntendedCategoryMap[c]
    ensures IntendedCategoryMap.Keys == (CategoryMap.Keys - {"Office of Student Serviceswelfare"}) + {"welfare"}
  {
    CategoryMapKeys();
  }

  /**
   * `assign_office_and_staff(ticket)`. Returns the in-memory ticket as the caller sees it
   * afterwards; the database changes only when the ticket is saved.
   */
  method AssignOfficeAndStaff(db: Database, ticket: Ticket, categories: map<string, string>, now: Time) returns (t: Ticket)
    requires db.Valid()
    requires ticket.createdBy in UserIds(db.users)
    requires ticket.assignedTo.Some? ==> ticket.assignedTo.value in UserIds(db.users)
    modifies db`tickets, db`notifications, db`nextTicketId
    ensures db.Valid()
    ensures var r := Route(categories, old(db.offices), old(db.staffProfiles), ticket.category);
      (r == Unmapped ==> t == ticket && unchanged(db)) &&
      (r == NoSuchOffice ==> t == ticket.(assignedTo := None) && unchanged(db)) &&
      (r.Assigned? ==>
        t == SavedInstance(old(db.tickets), db.users, old(db.nextTicketId), ticket.(assignedTo := r.staff), now) &&
        db.tickets == WriteRow(old(db.tickets), t) &&
        db.notifications == old(db.notifications) + NoticeRows(old(db.tickets), db.users, ticket.(assignedTo := r.staff), t, now) &&
        db.nextTicketId == NextAfterSave(old(db.nextTicketId), ticket.(assignedTo := r.staff)))
  {
    var r := Route(categories, db.offices, db.staffProfiles, ticket.category);
    if r.Unmapped? {
      t := ticket;
    } else if r.NoSuchOffice? {
      t := ticket.(assignedTo := None);
    } else {
      var staff := r.staff;
      if staff.Some? {
        var i, k :| 0 <= i < |db.staffProfiles| && 0 <= k < |db.offices| &&
          db.staffProfiles[i].user == staff.value && db.staffProfiles[i].office == db.offices[k].id &&
          db.offices[k].name == categories[ticket.category];
        ProfileUserExists(db.Snapshot(), i);
      }
      t := db.SaveTicket(ticket.(assignedTo := staff), now);
    }
  }
}
