/**
 * The requester's side of the ticket store (tickets/views.py): the overview partitioned
 * by status, the detail page with its history, and create, update and delete. Every
 * operation is scoped to tickets the requester created; another user's ticket is "not
 * found". Rendering and redirects are not modelled, only what is read and written.
 */
module TicketViews {
  import opened Wrappers
  import opened Text
  import opened Ordering
  import opened Choices
  import opened Fields
  import opened Directory
  import opened TicketModels
  import opened Signals
  import opened Schema
  import opened Store

  const CreatedAction: string := "Ticket created by user"
  const UpdatedAction: string := "Ticket updated by user"
  const DeletedAction: string := "Ticket deleted by user"

  /** None of the requester's own actions is a staff note, so none of them stamps the ticket. */
  lemma {:induction false} UserActionsDoNotStamp(ticket: Option<TicketId>)
    ensures !StampsTicket(ticket, CreatedAction)
    ensures !StampsTicket(ticket, UpdatedAction)
    ensures !StampsTicket(ticket, DeletedAction)
  {
    PlainActionDoesNotStamp(ticket, CreatedAction);
    PlainActionDoesNotStamp(ticket, UpdatedAction);
    PlainActionDoesNotStamp(ticket, DeletedAction);
  }

  function CreatedAtKey(t: Ticket): int { t.createdAt }
  function TimestampKey(e: HistoryEntry): int { e.timestamp }
  function OwnedBy(uid: UserId): Ticket -> bool { (t: Ticket) => t.createdBy == uid }
  function HasStatus(s: Status): Ticket -> bool { (t: Ticket) => t.status == s }
  function AboutTicket(id: TicketId): HistoryEntry -> bool { (e: HistoryEntry) => e.ticket == Some(id) }

  /** `get_object_or_404(Ticket, pk=pk, created_by=user)`. */
  function OwnedRow(tickets: seq<Ticket>, uid: UserId, pk: TicketId): (r: Option<Ticket>)
    ensures r.Some? ==> r.value in tickets && r.value.id == Some(pk) && r.value.createdBy == uid
    ensures r.None? && DistinctBy(tickets, TicketKey) ==>
      forall i :: 0 <= i < |tickets| && tickets[i].id == Some(pk) ==> tickets[i].createdBy != uid
  {
    match RowIndex(tickets, pk)
    case Some(i) =>
      assert forall j :: 0 <= j < |tickets| && tickets[j].id == Some(pk) ==> TicketKey(tickets[j]) == TicketKey(tickets[i]);
      if tickets[i].createdBy == uid then Some(tickets[i]) else None
    case None => None
  }

  // ---- ticket_list --------------------------------------------------------------------

  /** `Ticket.objects.filter(created_by=user).order_by('-created_at')`. */
  function OwnedTickets(tickets: seq<Ticket>, uid: UserId): seq<Ticket>
  {
    SortNewestFirst(Filter(tickets, OwnedBy(uid)), CreatedAtKey)
  }

  datatype Overview = Overview(open: seq<Ticket>, inProgress: seq<Ticket>, completed: seq<Ticket>)

  /** `ticket_list`: the requester's tickets, newest first, split by status. */
  function TicketList(tickets: seq<Ticket>, uid: UserId): (o: Overview)
    ensures NewestFirst(o.open, CreatedAtKey) && NewestFirst(o.inProgress, CreatedAtKey) && NewestFirst(o.completed, CreatedAtKey)
  {
    var owned := OwnedTickets(tickets, uid);
    FilterNewestFirst(owned, HasStatus(Open), CreatedAtKey);
    FilterNewestFirst(owned, HasStatus(InProgress), CreatedAtKey);
    FilterNewestFirst(owned, HasStatus(Completed), CreatedAtKey);
    Overview(Filter(owned, HasStatus(Open)), Filter(owned, HasStatus(InProgress)), Filter(owned, HasStatus(Completed)))
  }

  /** A listed ticket is one of the requester's stored tickets, in the bucket of its status. */
  lemma {:induction false} TicketListBuckets(tickets: seq<Ticket>, uid: UserId, t: Ticket)
    ensures var o := TicketList(tickets, uid);
      (t in o.open <==> t in tickets && t.createdBy == uid && t.status == Open) &&
      (t in o.inProgress <==> t in tickets && t.createdBy == uid && t.status == InProgress) &&
      (t in o.completed <==> t in tickets && t.createdBy == uid && t.status == Completed)
  {
    var filtered := Filter(tickets, OwnedBy(uid));
    var owned := OwnedTickets(tickets, uid);
    FilterMember(tickets, OwnedBy(uid), t);
    assert t in owned <==> t in filtered by {
      assert t in owned <==> t in multiset(owned);
      assert t in filtered <==> t in multiset(filtered);
    }
    FilterMember(owned, HasStatus(Open), t);
    FilterMember(owned, HasStatus(InProgress), t);
    FilterMember(owned, HasStatus(Completed), t);
  }

  /** The three buckets together hold every owned ticket exactly as often as it is stored. */
  lemma {:induction false} TicketListPartition(tickets: seq<Ticket>, uid: UserId)
    ensures var o := TicketList(tickets, uid);
      multiset(o.open) + multiset(o.inProgress) + multiset(o.completed) == multiset(Filter(tickets, OwnedBy(uid)))
  {
    var o := TicketList(tickets, uid);
    var owned := OwnedTickets(tickets, uid);
    var a := multiset(o.open) + multiset(o.inProgress) + multiset(o.completed);
    var b := multiset(Filter(tickets, OwnedBy(uid)));
    forall x ensures a[x] == b[x] {
      FilterCount(owned, HasStatus(Open), x);
      FilterCount(owned, HasStatus(InProgress), x);
      FilterCount(owned, HasStatus(Completed), x);
    }
    SameCounts(a, b);
  }

  // ---- ticket_detail ------------------------------------------------------------------

  /** `ticket_detail`: the owned ticket and the entries linked to it, newest first; None is 404. */
  function TicketDetail(tickets: seq<Ticket>, history: seq<HistoryEntry>, uid: UserId, pk: TicketId): (r: Option<(Ticket, seq<HistoryEntry>)>)
    ensures r.Some? <==> OwnedRow(tickets, uid, pk).Some?
    ensures r.Some? ==> r.value.0 == OwnedRow(tickets, uid, pk).value
    ensures r.Some? ==> NewestFirst(r.value.1, TimestampKey)
    ensures r.Some? ==> multiset(r.value.1) == multiset(Filter(history, AboutTicket(pk)))
  {
    match OwnedRow(tickets, uid, pk)
    case None => None
    case Some(t) => Some((t, SortNewestFirst(Filter(history, AboutTicket(pk)), TimestampKey)))
  }

  /** The detail history holds exactly the entries that refer to the ticket. */
  lemma {:induction false} DetailHistoryExact(tickets: seq<Ticket>, history: seq<HistoryEntry>, uid: UserId, pk: TicketId, e: HistoryEntry)
    requires TicketDetail(tickets, history, uid, pk).Some?
    ensures e in TicketDetail(tickets, history, uid, pk).value.1 <==> e in history && e.ticket == Some(pk)
  {
    var shown := TicketDetail(tickets, history, uid, pk).value.1;
    FilterMember(history, AboutTicket(pk), e);
    assert e in shown <==> e in multiset(shown);
    assert e in Filter(history, AboutTicket(pk)) <==> e in multiset(Filter(history, AboutTicket(pk)));
  }

  // ---- TicketForm ---------------------------------------------------------------------

  /** The three model fields `TicketForm` edits, as submitted or as cleaned. */
  datatype TicketInput = TicketInput(title: string, description: string, category: string)

  /**
   * `TicketForm.is_valid()`: title at most 200 characters, description required, and
   * the category one of the model's declared choices.
   */
  function CleanTicketForm(input: TicketInput): (r: Result<TicketInput, FormError>)
    ensures r.Ok? <==>
      CleanCharField("title", input.title, Some(TitleMaxLength)).Ok? &&
      CleanCharField("description", input.description, None).Ok? &&
      CleanChoice("category", DeclaredCategories, input.category).Ok?
    ensures r.Ok? ==> r.value.title != "" && |r.value.title| <= TitleMaxLength && r.value.description != ""
    ensures r.Ok? ==> IsChoice(DeclaredCategories, r.value.category)
    ensures r.Ok? ==> r.value == TicketInput(Strip(input.title), Strip(input.description), input.category)
  {
    var title := CleanCharField("title", input.title, Some(TitleMaxLength));
    var description := CleanCharField("description", input.description, None);
    var category := CleanChoice("category", DeclaredCategories, input.category);
    if title.Err? then Err(title.error)
    else if description.Err? then Err(description.error)
    else if category.Err? then Err(category.error)
    else Ok(TicketInput(title.value, description.value, category.value))
  }

  // ---- create_ticket / update_ticket / delete_ticket ----------------------------------

  /**
   * `create_ticket` on a POST: the form's ticket, owned by the requester, is saved and
   * one history entry is linked to it. An invalid form writes nothing.
   */
  method CreateTicket(db: Database, uid: UserId, input: TicketInput, now: Time) returns (r: Result<Ticket, FormError>)
    requires db.Valid() && uid in UserIds(db.users)
    modifies db`tickets, db`notifications, db`nextTicketId, db`history
    ensures db.Valid()
    ensures r.Ok? <==> CleanTicketForm(input).Ok?
    ensures r.Err? ==> r.error == CleanTicketForm(input).error && unchanged(db)
    ensures r.Ok? ==>
      var c := CleanTicketForm(input).value;
      r.value == NewTicket(c.title, c.description, c.category, uid).(id := Some(old(db.nextTicketId)), createdAt := now, updatedAt := now) &&
      db.tickets == old(db.tickets) + [r.value] &&
      db.history == old(db.history) + [HistoryEntry(r.value.id, None, CreatedAction, now)] &&
      db.notifications == old(db.notifications)
  {
    var c := CleanTicketForm(input);
    if c.Err? {
      return Err(c.error);
    }
    var instance := NewTicket(c.value.title, c.value.description, c.value.category, uid);
    FreshTicketId(db.Snapshot());
    var saved := db.SaveTicket(instance, now);
    UserActionsDoNotStamp(saved.id);
    var entry := db.CreateHistory(saved.id, None, CreatedAction, now);
    r := Ok(saved);
  }

  datatype UpdateOutcome = NotFound | Invalid(error: FormError) | Updated(ticket: Ticket)

  /**
   * `update_ticket` on a POST: only title, description and category change (and
   * `updated_at`); status, owner and assignee stay, so the pre-save hook adds no
   * notification. One history entry is linked to the ticket.
   */
  method UpdateTicket(db: Database, uid: UserId, pk: TicketId, input: TicketInput, now: Time) returns (r: UpdateOutcome)
    requires db.Valid()
    modifies db`tickets, db`notifications, db`nextTicketId, db`history
    ensures db.Valid()
    ensures r.NotFound? <==> OwnedRow(old(db.tickets), uid, pk).None?
    ensures r.Invalid? <==> OwnedRow(old(db.tickets), uid, pk).Some? && CleanTicketForm(input).Err?
    ensures !r.Updated? ==> unchanged(db)
    ensures r.Updated? ==>
      var row := OwnedRow(old(db.tickets), uid, pk).value;
      var c := CleanTicketForm(input).value;
      r.ticket == row.(title := c.title, description := c.description, category := c.category, updatedAt := now) &&
      db.tickets == WriteRow(old(db.tickets), r.ticket) &&
      db.history == old(db.history) + [HistoryEntry(Some(pk), None, UpdatedAction, now)] &&
      db.notifications == old(db.notifications)
  {
    var found := OwnedRow(db.tickets, uid, pk);
    if found.None? {
      return NotFound;
    }
    var c := CleanTicketForm(input);
    if c.Err? {
      return Invalid(c.error);
    }
    var row := found.value;
    var instance := row.(title := c.value.title, description := c.value.description, category := c.value.category);
    StoredRowLookup(db.Snapshot(), row);
    ResaveIsSilent(row, instance, db.users);
    var saved := db.SaveTicket(instance, now);
    UserActionsDoNotStamp(Some(pk));
    var entry := db.CreateHistory(Some(pk), None, UpdatedAction, now);
    r := Updated(saved);
  }

  /**
   * `delete_ticket`: a detached entry carrying the title is recorded first, then the
   * ticket is deleted (its notifications with it, its earlier entries detached).
   */
  method DeleteTicketView(db: Database, uid: UserId, pk: TicketId, now: Time) returns (found: bool)
    requires db.Valid()
    modifies db`tickets, db`notifications, db`history
    ensures db.Valid()
    ensures found <==> OwnedRow(old(db.tickets), uid, pk).Some?
    ensures !found ==> unchanged(db)
    ensures found ==>
      db.history == DetachTickets(old(db.history), {pk}) +
        [HistoryEntry(None, Some(OwnedRow(old(db.tickets), uid, pk).value.title), DeletedAction, now)] &&
      db.tickets == Filter(old(db.tickets), OtherTicket(pk)) &&
      db.notifications == Filter(old(db.notifications), NotAboutTicket(pk))
  {
    var row := OwnedRow(db.tickets, uid, pk);
    if row.None? {
      return false;
    }
    var entry := db.CreateHistory(None, Some(row.value.title), DeletedAction, now);
    db.DeleteTicket(pk);
    DetachAfterAppend(old(db.history), entry, {pk});
    found := true;
  }
}
