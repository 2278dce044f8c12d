/**
 * The tables of the database as values: their keys, the uniqueness and
 * referential-integrity constraints of the schema (`Consistent`), the row rewrites that
 * saves and the on-delete rules perform, and one lemma per write showing that it keeps
 * the tables consistent.
 */
module Schema {
  import opened Wrappers
  import opened Ordering
  import opened Directory
  import opened TicketModels
  import opened Signals
  import opened Verification

  // ---- keys and key sets -------------------------------------------------------------

  function UserKey(u: User): UserId { u.id }
  function UsernameKey(u: User): string { u.username }
  function OfficeKey(o: Office): OfficeId { o.id }
  function OfficeNameKey(o: Office): string { o.name }
  function ProfileKey(p: StaffProfile): int { p.id }
  function ProfileUserKey(p: StaffProfile): UserId { p.user }
  function TicketKey(t: Ticket): Option<TicketId> { t.id }

  function UserIds(users: seq<User>): set<UserId> { set u | u in users :: u.id }
  function OfficeIds(offices: seq<Office>): set<OfficeId> { set o | o in offices :: o.id }
  function TicketIds(tickets: seq<Ticket>): set<TicketId> { set t | t in tickets && t.id.Some? :: t.id.value }

  /** The tickets a user created: what deleting that user cascades to. */
  function CreatedTicketIds(tickets: seq<Ticket>, uid: UserId): set<TicketId>
  {
    set t | t in tickets && t.createdBy == uid && t.id.Some? :: t.id.value
  }

  // ---- integrity of each table -------------------------------------------------------

  predicate UsersWellFormed(users: seq<User>, next: nat)
  {
    DistinctBy(users, UserKey) && UniqueUsernames(users) &&
    forall i :: 0 <= i < |users| ==> users[i].id < next
  }

  predicate OfficesWellFormed(offices: seq<Office>, next: nat)
  {
    DistinctBy(offices, OfficeKey) && DistinctBy(offices, OfficeNameKey) &&
    forall i :: 0 <= i < |offices| ==> offices[i].id < next
  }

  /** Profiles in primary-key order, one per user, each pointing at an existing user and office. */
  predicate ProfilesWellFormed(profiles: seq<StaffProfile>, next: nat, userIds: set<UserId>, officeIds: set<OfficeId>)
  {
    Ascending(profiles, ProfileKey) && DistinctBy(profiles, ProfileUserKey) &&
    forall i :: 0 <= i < |profiles| ==>
      profiles[i].id < next && profiles[i].user in userIds && profiles[i].office in officeIds
  }

  /** Every stored ticket has a primary key, no two share one, and both user references resolve. */
  predicate TicketsWellFormed(tickets: seq<Ticket>, next: nat, userIds: set<UserId>)
  {
    DistinctBy(tickets, TicketKey) &&
    forall i :: 0 <= i < |tickets| ==>
      tickets[i].id.Some? && tickets[i].id.value < next &&
      tickets[i].createdBy in userIds &&
      (tickets[i].assignedTo.Some? ==> tickets[i].assignedTo.value in userIds)
  }

  /** A history entry's ticket reference is null or resolves. */
  predicate HistoryWellFormed(history: seq<HistoryEntry>, ticketIds: set<TicketId>)
  {
    forall i :: 0 <= i < |history| ==> history[i].ticket.Some? ==> history[i].ticket.value in ticketIds
  }

  predicate NotificationsWellFormed(notifications: seq<Notification>, ticketIds: set<TicketId>, userIds: set<UserId>)
  {
    forall i :: 0 <= i < |notifications| ==>
      notifications[i].ticket in ticketIds && notifications[i].user in userIds
  }

  /** The table is keyed by the unique e-mail column; a code fits its six-character column. */
  predicate VerificationsWellFormed(verifications: map<string, EmailVerification>)
  {
    forall e :: e in verifications ==> verifications[e].email == e && |verifications[e].code| <= CodeLength
  }

  // ---- row lookups and row rewrites ----------------------------------------------------

  /** Position of the ticket row with primary key `id`. */
  function RowIndex(tickets: seq<Ticket>, id: TicketId): (r: Option<nat>)
    ensures r.Some? ==> r.value < |tickets| && tickets[r.value].id == Some(id)
    ensures r.None? ==> forall i :: 0 <= i < |tickets| ==> tickets[i].id != Some(id)
    ensures r.Some? <==> id in TicketIds(tickets)
  {
    if tickets == [] then None
    else if tickets[0].id == Some(id) then Some(0)
    else
      match RowIndex(tickets[1..], id)
      case Some(k) => Some(k + 1)
      case None =>
        assert tickets == [tickets[0]] + tickets[1..];
        None
  }

  /** `Ticket.objects.get(pk=id)`, None for a missing pk or row. */
  function StoredRow(tickets: seq<Ticket>, id: Option<TicketId>): (r: Option<Ticket>)
    ensures r.Some? ==> r.value in tickets && r.value.id == id
    ensures r.None? ==> id.None? || id.value !in TicketIds(tickets)
  {
    if id.None? then None
    else
      match RowIndex(tickets, id.value)
      case Some(i) => Some(tickets[i])
      case None => None
  }

  /** The table after `save()` writes `saved`: its row is replaced, or it is appended. */
  function WriteRow(tickets: seq<Ticket>, saved: Ticket): seq<Ticket>
    requires saved.id.Some?
  {
    match RowIndex(tickets, saved.id.value)
    case Some(i) => tickets[i := saved]
    case None => tickets + [saved]
  }

  /** `save(update_fields=['last_admin_update'])` on the row with primary key `id`. */
  function StampRow(tickets: seq<Ticket>, id: TicketId, now: Time): (r: seq<Ticket>)
  {
    seq(|tickets|, i requires 0 <= i < |tickets| =>
      if tickets[i].id == Some(id) then tickets[i].(lastAdminUpdate := Some(now)) else tickets[i])
  }

  /** SET_NULL on `assigned_to` when the user `uid` is deleted. */
  function ClearAssignee(tickets: seq<Ticket>, uid: UserId): seq<Ticket>
  {
    seq(|tickets|, i requires 0 <= i < |tickets| =>
      if tickets[i].assignedTo == Some(uid) then tickets[i].(assignedTo := None) else tickets[i])
  }

  /** SET_NULL on `TicketHistory.ticket` when the tickets `gone` are deleted. */
  function DetachTickets(history: seq<HistoryEntry>, gone: set<TicketId>): seq<HistoryEntry>
  {
    seq(|history|, i requires 0 <= i < |history| =>
      if history[i].ticket.Some? && history[i].ticket.value in gone then history[i].(ticket := None) else history[i])
  }

  function MarkStaff(users: seq<User>, uid: UserId): seq<User>
  {
    seq(|users|, i requires 0 <= i < |users| =>
      if users[i].id == uid then users[i].(isStaff := true) else users[i])
  }

  function FindOfficeNamed(offices: seq<Office>, name: string): (r: Option<Office>)
    ensures r.Some? ==> r.value in offices && r.value.name == name
    ensures r.None? ==> forall i :: 0 <= i < |offices| ==> offices[i].name != name
  {
    if offices == [] then None
    else if offices[0].name == name then Some(offices[0])
    else FindOfficeNamed(offices[1..], name)
  }

  function OtherTicket(id: TicketId): Ticket -> bool { (t: Ticket) => t.id != Some(id) }
  function NotAboutTicket(id: TicketId): Notification -> bool { (n: Notification) => n.ticket != id }
  function OtherUser(uid: UserId): User -> bool { (u: User) => u.id != uid }
  function NotProfileOf(uid: UserId): StaffProfile -> bool { (p: StaffProfile) => p.user != uid }
  function NotCreatedBy(uid: UserId): Ticket -> bool { (t: Ticket) => t.createdBy != uid }
  function OutlivesUser(gone: set<TicketId>, uid: UserId): Notification -> bool
  {
    (n: Notification) => n.ticket !in gone && n.user != uid
  }

  /** The row the pre-save hook inserts for a notice about the saved ticket. */
  function NoticeRow(n: Notice, t: Ticket, now: Time): (r: Notification)
    requires t.id.Some?
    ensures r.user == t.createdBy && r.ticket == t.id.value && !r.isRead
  {
    Notification(t.createdBy, t.id.value, n.kind, n.title, n.message, NotificationReadDefault, now)
  }

  /** What `save()` does to a ticket instance, hook included. */
  function SavedInstance(tickets: seq<Ticket>, users: seq<User>, next: nat, instance: Ticket, now: Time): (saved: Ticket)
    ensures saved.id.Some? && saved.updatedAt == now
  {
    var notice := StatusChangeNotice(StoredRow(tickets, instance.id), instance, users);
    instance.(
      id := Some(if instance.id.Some? then instance.id.value else next),
      createdAt := if instance.id.None? then now else instance.createdAt,
      updatedAt := now,
      lastAdminUpdate := if notice.Some? then Some(now) else instance.lastAdminUpdate)
  }

  /** All tables at one moment, with the next primary key of each auto-increment column. */
  datatype Tables = Tables(
    users: seq<User>,
    offices: seq<Office>,
    staffProfiles: seq<StaffProfile>,
    tickets: seq<Ticket>,
    history: seq<HistoryEntry>,
    notifications: seq<Notification>,
    verifications: map<string, EmailVerification>,
    nextUserId: nat,
    nextOfficeId: nat,
    nextProfileId: nat,
    nextTicketId: nat)

  /** The uniqueness and referential-integrity constraints of the schema. */
  predicate Consistent(t: Tables)
  {
    match t
    case Tables(users, offices, staffProfiles, tickets, history, notifications, verifications,
                nextUserId, nextOfficeId, nextProfileId, nextTicketId) =>
      UsersWellFormed(users, nextUserId) &&
      OfficesWellFormed(offices, nextOfficeId) &&
      ProfilesWellFormed(staffProfiles, nextProfileId, UserIds(users), OfficeIds(offices)) &&
      TicketsWellFormed(tickets, nextTicketId, UserIds(users)) &&
      HistoryWellFormed(history, TicketIds(tickets)) &&
      NotificationsWellFormed(notifications, TicketIds(tickets), UserIds(users)) &&
      VerificationsWellFormed(verifications)
  }

  /** The next auto-increment value once `instance` has been saved. */
  function NextAfterSave(next: nat, instance: Ticket): (r: nat)
    ensures r >= next && (instance.id.Some? ==> instance.id.value < r)
  {
    if instance.id.None? then next + 1
    else if instance.id.value < next then next
    else instance.id.value + 1
  }

  /** The notification rows the pre-save hook inserts for saving `instance` as `saved`. */
  function NoticeRows(tickets: seq<Ticket>, users: seq<User>, instance: Ticket, saved: Ticket, now: Time): (r: seq<Notification>)
    requires saved.id.Some?
    ensures |r| <= 1
  {
    var notice := StatusChangeNotice(StoredRow(tickets, instance.id), instance, users);
    if notice.Some? then [NoticeRow(notice.value, saved, now)] else []
  }

  // ---- lemmas about the row rewrites -------------------------------------------------

  lemma {:induction false} WriteRowKeepsIntegrity(tickets: seq<Ticket>, next: nat, userIds: set<UserId>, saved: Ticket, next': nat)
    requires TicketsWellFormed(tickets, next, userIds)
    requires saved.id.Some? && saved.id.value < next' && next <= next'
    requires saved.createdBy in userIds && (saved.assignedTo.Some? ==> saved.assignedTo.value in userIds)
    ensures TicketsWellFormed(WriteRow(tickets, saved), next', userIds)
    ensures TicketIds(WriteRow(tickets, saved)) == TicketIds(tickets) + {saved.id.value}
    ensures saved in WriteRow(tickets, saved)
  {
    var r := WriteRow(tickets, saved);
    match RowIndex(tickets, saved.id.value)
    case Some(k) =>
      forall x | x in TicketIds(r) ensures x in TicketIds(tickets) + {saved.id.value} {
        var t :| t in r && t.id.Some? && t.id.value == x;
        var i :| 0 <= i < |r| && r[i] == t;
        if i != k { assert tickets[i] == t; }
      }
      forall x | x in TicketIds(tickets) ensures x in TicketIds(r) {
        var t :| t in tickets && t.id.Some? && t.id.value == x;
        var i :| 0 <= i < |tickets| && tickets[i] == t;
        if i == k { assert r[k] == saved; } else { assert r[i] == t; }
      }
      assert r[k] == saved;
    case None =>
      assert r == tickets + [saved];
      forall i, j | 0 <= i < j < |r| ensures TicketKey(r[i]) != TicketKey(r[j]) {
        if j == |tickets| { assert r[i] == tickets[i]; }
      }
      forall x | x in TicketIds(r) ensures x in TicketIds(tickets) + {saved.id.value} {
        var t :| t in r && t.id.Some? && t.id.value == x;
        if t != saved { assert t in tickets; }
      }
      forall x | x in TicketIds(tickets) ensures x in TicketIds(r) {
        var t :| t in tickets && t.id.Some? && t.id.value == x;
        assert t in r;
      }
      assert r[|tickets|] == saved;
  }

  lemma {:induction false} StampRowKeepsIntegrity(tickets: seq<Ticket>, next: nat, userIds: set<UserId>, id: TicketId, now: Time)
    requires TicketsWellFormed(tickets, next, userIds)
    ensures TicketsWellFormed(StampRow(tickets, id, now), next, userIds)
    ensures TicketIds(StampRow(tickets, id, now)) == TicketIds(tickets)
  {
    var r := StampRow(tickets, id, now);
    assert forall i :: 0 <= i < |r| ==> r[i].id == tickets[i].id;
    forall x | x in TicketIds(r) ensures x in TicketIds(tickets) {
      var t :| t in r && t.id.Some? && t.id.value == x;
      var i :| 0 <= i < |r| && r[i] == t;
      assert tickets[i] in tickets;
    }
    forall x | x in TicketIds(tickets) ensures x in TicketIds(r) {
      var t :| t in tickets && t.id.Some? && t.id.value == x;
      var i :| 0 <= i < |tickets| && tickets[i] == t;
      assert r[i] in r;
    }
  }

  lemma {:induction false} RemoveTicketKeepsIntegrity(tickets: seq<Ticket>, next: nat, userIds: set<UserId>, id: TicketId)
    requires TicketsWellFormed(tickets, next, userIds)
    ensures TicketsWellFormed(Filter(tickets, OtherTicket(id)), next, userIds)
    ensures TicketIds(Filter(tickets, OtherTicket(id))) == TicketIds(tickets) - {id}
  {
    var r := Filter(tickets, OtherTicket(id));
    FilterDistinct(tickets, OtherTicket(id), TicketKey);
    FilterElements(tickets, OtherTicket(id));
    forall x | x in TicketIds(r) ensures x in TicketIds(tickets) - {id} {
      var t :| t in r && t.id.Some? && t.id.value == x;
      FilterMember(tickets, OtherTicket(id), t);
    }
    forall x | x in TicketIds(tickets) - {id} ensures x in TicketIds(r) {
      var t :| t in tickets && t.id.Some? && t.id.value == x;
      FilterMember(tickets, OtherTicket(id), t);
    }
  }

  lemma {:induction false} UserIdsWithout(users: seq<User>, uid: UserId)
    ensures UserIds(Filter(users, OtherUser(uid))) == UserIds(users) - {uid}
  {
    var r := Filter(users, OtherUser(uid));
    forall x | x in UserIds(r) ensures x in UserIds(users) - {uid} {
      var u :| u in r && u.id == x;
      FilterMember(users, OtherUser(uid), u);
    }
    forall x | x in UserIds(users) - {uid} ensures x in UserIds(r) {
      var u :| u in users && u.id == x;
      FilterMember(users, OtherUser(uid), u);
    }
  }

  lemma {:induction false} RemoveCreatorIds(tickets: seq<Ticket>, next: nat, userIds: set<UserId>, uid: UserId)
    requires TicketsWellFormed(tickets, next, userIds)
    ensures TicketsWellFormed(Filter(tickets, NotCreatedBy(uid)), next, userIds)
    ensures forall i :: 0 <= i < |Filter(tickets, NotCreatedBy(uid))| ==> Filter(tickets, NotCreatedBy(uid))[i].createdBy != uid
    ensures TicketIds(Filter(tickets, NotCreatedBy(uid))) == TicketIds(tickets) - CreatedTicketIds(tickets, uid)
  {
    var f := Filter(tickets, NotCreatedBy(uid));
    FilterDistinct(tickets, NotCreatedBy(uid), TicketKey);
    FilterElements(tickets, NotCreatedBy(uid));
    forall x | x in TicketIds(f) ensures x !in CreatedTicketIds(tickets, uid) {
      var t :| t in f && t.id.Some? && t.id.value == x;
      FilterMember(tickets, NotCreatedBy(uid), t);
      var k :| 0 <= k < |tickets| && tickets[k] == t;
      forall c | c in tickets && c.createdBy == uid && c.id.Some? ensures c.id.value != x {
        var m :| 0 <= m < |tickets| && tickets[m] == c;
        assert m != k;
      }
    }
    forall x | x in TicketIds(f) ensures x in TicketIds(tickets) {
      var t :| t in f && t.id.Some? && t.id.value == x;
      FilterMember(tickets, NotCreatedBy(uid), t);
    }
    forall x | x in TicketIds(tickets) - CreatedTicketIds(tickets, uid) ensures x in TicketIds(f) {
      var t :| t in tickets && t.id.Some? && t.id.value == x;
      FilterMember(tickets, NotCreatedBy(uid), t);
    }
  }

  lemma {:induction false} ClearAssigneeKeepsIntegrity(tickets: seq<Ticket>, next: nat, userIds: set<UserId>, uid: UserId)
    requires TicketsWellFormed(tickets, next, userIds)
    requires forall i :: 0 <= i < |tickets| ==> tickets[i].createdBy != uid
    ensures TicketsWellFormed(ClearAssignee(tickets, uid), next, userIds - {uid})
    ensures TicketIds(ClearAssignee(tickets, uid)) == TicketIds(tickets)
  {
    var r := ClearAssignee(tickets, uid);
    assert forall i :: 0 <= i < |r| ==> TicketKey(r[i]) == TicketKey(tickets[i]);
    forall x | x in TicketIds(r) ensures x in TicketIds(tickets) {
      var t :| t in r && t.id.Some? && t.id.value == x;
      var i :| 0 <= i < |r| && r[i] == t;
      assert tickets[i] in tickets;
    }
    forall x | x in TicketIds(tickets) ensures x in TicketIds(r) {
      var t :| t in tickets && t.id.Some? && t.id.value == x;
      var i :| 0 <= i < |tickets| && tickets[i] == t;
      assert r[i] in r;
    }
  }

  lemma {:induction false} DetachKeepsIntegrity(history: seq<HistoryEntry>, ticketIds: set<TicketId>, gone: set<TicketId>)
    requires HistoryWellFormed(history, ticketIds)
    ensures HistoryWellFormed(DetachTickets(history, gone), ticketIds - gone)
    ensures |DetachTickets(history, gone)| == |history|
  {
  }

  lemma {:induction false} NotificationsOutlive(notifications: seq<Notification>, ticketIds: set<TicketId>, userIds: set<UserId>, p: Notification -> bool, ticketIds': set<TicketId>, userIds': set<UserId>)
    requires NotificationsWellFormed(notifications, ticketIds, userIds)
    requires forall n :: n in notifications && p(n) ==> n.ticket in ticketIds' && n.user in userIds'
    ensures NotificationsWellFormed(Filter(notifications, p), ticketIds', userIds')
  {
    var r := Filter(notifications, p);
    forall i | 0 <= i < |r| ensures r[i].ticket in ticketIds' && r[i].user in userIds' {
      FilterMember(notifications, p, r[i]);
    }
  }

  lemma {:induction false} ProfilesWithout(profiles: seq<StaffProfile>, next: nat, userIds: set<UserId>, officeIds: set<OfficeId>, uid: UserId)
    requires ProfilesWellFormed(profiles, next, userIds, officeIds)
    ensures ProfilesWellFormed(Filter(profiles, NotProfileOf(uid)), next, userIds - {uid}, officeIds)
  {
    var r := Filter(profiles, NotProfileOf(uid));
    FilterAscending(profiles, NotProfileOf(uid), ProfileKey);
    FilterDistinct(profiles, NotProfileOf(uid), ProfileUserKey);
    forall i | 0 <= i < |r|
      ensures r[i].id < next && r[i].user in userIds - {uid} && r[i].office in officeIds
    {
      FilterMember(profiles, NotProfileOf(uid), r[i]);
    }
  }

  lemma {:induction false} UsersWithout(users: seq<User>, next: nat, uid: UserId)
    requires UsersWellFormed(users, next)
    ensures UsersWellFormed(Filter(users, OtherUser(uid)), next)
    ensures UserIds(Filter(users, OtherUser(uid))) == UserIds(users) - {uid}
  {
    var r := Filter(users, OtherUser(uid));
    FilterDistinct(users, OtherUser(uid), UserKey);
    FilterElements(users, OtherUser(uid));
    assert DistinctBy(users, UsernameKey);
    FilterDistinct(users, OtherUser(uid), UsernameKey);
    UserIdsWithout(users, uid);
  }

  // ---- each operation keeps the tables consistent --------------------------------------

  lemma {:induction false} SaveTicketStep(t: Tables, instance: Ticket, now: Time)
    requires Consistent(t)
    requires instance.createdBy in UserIds(t.users)
    requires instance.assignedTo.Some? ==> instance.assignedTo.value in UserIds(t.users)
    ensures var saved := SavedInstance(t.tickets, t.users, t.nextTicketId, instance, now);
      Consistent(t.(tickets := WriteRow(t.tickets, saved),
                    notifications := t.notifications + NoticeRows(t.tickets, t.users, instance, saved, now),
                    nextTicketId := NextAfterSave(t.nextTicketId, instance))) &&
      TicketIds(WriteRow(t.tickets, saved)) == TicketIds(t.tickets) + {saved.id.value}
  {
    var saved := SavedInstance(t.tickets, t.users, t.nextTicketId, instance, now);
    var next := NextAfterSave(t.nextTicketId, instance);
    var userIds := UserIds(t.users);
    WriteRowKeepsIntegrity(t.tickets, t.nextTicketId, userIds, saved, next);
    var ids := TicketIds(WriteRow(t.tickets, saved));
    var ns := t.notifications + NoticeRows(t.tickets, t.users, instance, saved, now);
    forall i | 0 <= i < |ns| ensures ns[i].ticket in ids && ns[i].user in userIds {
      if i < |t.notifications| { assert ns[i] == t.notifications[i]; }
    }
  }

  lemma {:induction false} CreateHistoryStep(t: Tables, entry: HistoryEntry, now: Time)
    requires Consistent(t)
    requires entry.ticket.Some? ==> entry.ticket.value in TicketIds(t.tickets)
    ensures Consistent(t.(history := t.history + [entry]))
    ensures entry.ticket.Some? ==>
      Consistent(t.(history := t.history + [entry], tickets := StampRow(t.tickets, entry.ticket.value, now))) &&
      TicketIds(StampRow(t.tickets, entry.ticket.value, now)) == TicketIds(t.tickets)
  {
    var h := t.history + [entry];
    forall i | 0 <= i < |h| && h[i].ticket.Some? ensures h[i].ticket.value in TicketIds(t.tickets) {
      if i < |t.history| { assert h[i] == t.history[i]; }
    }
    if entry.ticket.Some? {
      StampRowKeepsIntegrity(t.tickets, t.nextTicketId, UserIds(t.users), entry.ticket.value, now);
    }
  }

  lemma {:induction false} DeleteTicketStep(t: Tables, id: TicketId)
    requires Consistent(t)
    ensures Consistent(t.(tickets := Filter(t.tickets, OtherTicket(id)),
                          notifications := Filter(t.notifications, NotAboutTicket(id)),
                          history := DetachTickets(t.history, {id})))
    ensures TicketIds(Filter(t.tickets, OtherTicket(id))) == TicketIds(t.tickets) - {id}
  {
    var userIds := UserIds(t.users);
    RemoveTicketKeepsIntegrity(t.tickets, t.nextTicketId, userIds, id);
    DetachKeepsIntegrity(t.history, TicketIds(t.tickets), {id});
    var r := Filter(t.notifications, NotAboutTicket(id));
    forall i | 0 <= i < |r| ensures r[i].ticket in TicketIds(t.tickets) - {id} && r[i].user in userIds {
      FilterMember(t.notifications, NotAboutTicket(id), r[i]);
    }
  }

  /** No ticket and no notification refers to the user `uid` any more. */
  predicate Unreferenced(t: Tables, uid: UserId)
  {
    match t
    case Tables(_, _, _, tickets, _, notifications, _, _, _, _, _) =>
      (forall i :: 0 <= i < |tickets| ==> tickets[i].createdBy != uid && tickets[i].assignedTo != Some(uid)) &&
      (forall i :: 0 <= i < |notifications| ==> notifications[i].user != uid)
  }

  /** The next primary key is not yet used, so saving a new ticket appends a row. */
  lemma FreshTicketId(t: Tables)
    requires Consistent(t)
    ensures RowIndex(t.tickets, t.nextTicketId).None?
  {
  }

  /** Detaching leaves an entry that refers to no ticket as it is. */
  lemma {:induction false} DetachAfterAppend(history: seq<HistoryEntry>, e: HistoryEntry, gone: set<TicketId>)
    requires e.ticket.None?
    ensures DetachTickets(history + [e], gone) == DetachTickets(history, gone) + [e]
  {
    var l, r := DetachTickets(history + [e], gone), DetachTickets(history, gone) + [e];
    assert |l| == |r|;
    forall i | 0 <= i < |l| ensures l[i] == r[i] {
      if i < |history| { assert (history + [e])[i] == history[i]; }
    }
  }

  /** A stored row is what a lookup by its primary key returns, and its user references resolve. */
  lemma {:induction false} StoredRowLookup(t: Tables, row: Ticket)
    requires Consistent(t) && row in t.tickets
    ensures row.id.Some? && StoredRow(t.tickets, row.id) == Some(row)
    ensures row.createdBy in UserIds(t.users)
    ensures row.assignedTo.Some? ==> row.assignedTo.value in UserIds(t.users)
  {
    var i :| 0 <= i < |t.tickets| && t.tickets[i] == row;
    var k := RowIndex(t.tickets, row.id.value).value;
    assert TicketKey(t.tickets[k]) == TicketKey(t.tickets[i]);
  }

  /** A staff profile's user exists. */
  lemma ProfileUserExists(t: Tables, i: nat)
    requires Consistent(t) && i < |t.staffProfiles|
    ensures t.staffProfiles[i].user in UserIds(t.users)
  {
  }

  /** The on-delete rules `user.delete()` applies to the rows that refer to the user. */
  lemma {:induction false} CascadeUserStep(t: Tables, uid: UserId)
    requires Consistent(t)
    ensures var gone := CreatedTicketIds(t.tickets, uid);
      var t' := Tables(t.users, t.offices, t.staffProfiles,
                       ClearAssignee(Filter(t.tickets, NotCreatedBy(uid)), uid), DetachTickets(t.history, gone),
                       Filter(t.notifications, OutlivesUser(gone, uid)), t.verifications,
                       t.nextUserId, t.nextOfficeId, t.nextProfileId, t.nextTicketId);
      Consistent(t') && Unreferenced(t', uid)
  {
    var gone := CreatedTicketIds(t.tickets, uid);
    var userIds := UserIds(t.users);
    RemoveCreatorIds(t.tickets, t.nextTicketId, userIds, uid);
    var f := Filter(t.tickets, NotCreatedBy(uid));
    ClearAssigneeKeepsIntegrity(f, t.nextTicketId, userIds, uid);
    DetachKeepsIntegrity(t.history, TicketIds(t.tickets), gone);
    var r := Filter(t.notifications, OutlivesUser(gone, uid));
    forall i | 0 <= i < |r| ensures r[i].ticket in TicketIds(t.tickets) - gone && r[i].user in userIds - {uid} {
      FilterMember(t.notifications, OutlivesUser(gone, uid), r[i]);
    }
  }

  /** Removing the user row itself, with its staff profile, once nothing else refers to it. */
  lemma {:induction false} RemoveUserStep(t: Tables, uid: UserId)
    requires Consistent(t) && Unreferenced(t, uid)
    ensures Consistent(Tables(Filter(t.users, OtherUser(uid)), t.offices, Filter(t.staffProfiles, NotProfileOf(uid)),
                              t.tickets, t.history, t.notifications, t.verifications,
                              t.nextUserId, t.nextOfficeId, t.nextProfileId, t.nextTicketId))
  {
    var userIds := UserIds(t.users);
    UsersWithout(t.users, t.nextUserId, uid);
    ProfilesWithout(t.staffProfiles, t.nextProfileId, userIds, OfficeIds(t.offices), uid);
  }

  lemma {:induction false} InsertUserStep(t: Tables, u: User)
    requires Consistent(t)
    requires u.id == t.nextUserId
    requires forall i :: 0 <= i < |t.users| ==> t.users[i].username != u.username
    ensures Consistent(t.(users := t.users + [u], nextUserId := t.nextUserId + 1))
    ensures UserIds(t.users + [u]) == UserIds(t.users) + {u.id}
  {
    var us := t.users + [u];
    forall x | x in UserIds(us) ensures x in UserIds(t.users) + {u.id} {
      var v :| v in us && v.id == x;
      if v != u { assert v in t.users; }
    }
    forall x | x in UserIds(t.users) ensures x in UserIds(us) {
      var v :| v in t.users && v.id == x;
      assert v in us;
    }
    forall i, j | 0 <= i < j < |us| ensures us[i].id != us[j].id && us[i].username != us[j].username {
      if j == |t.users| { assert us[i] == t.users[i]; }
    }
  }

  lemma {:induction false} SetStaffStep(t: Tables, uid: UserId)
    requires Consistent(t)
    ensures Consistent(t.(users := MarkStaff(t.users, uid)))
    ensures UserIds(MarkStaff(t.users, uid)) == UserIds(t.users)
  {
    var r := MarkStaff(t.users, uid);
    assert forall i :: 0 <= i < |r| ==> r[i].id == t.users[i].id && r[i].username == t.users[i].username;
    forall x | x in UserIds(r) ensures x in UserIds(t.users) {
      var v :| v in r && v.id == x;
      var i :| 0 <= i < |r| && r[i] == v;
      assert t.users[i] in t.users;
    }
    forall x | x in UserIds(t.users) ensures x in UserIds(r) {
      var v :| v in t.users && v.id == x;
      var i :| 0 <= i < |t.users| && t.users[i] == v;
      assert r[i] in r;
    }
  }

  lemma {:induction false} AddOfficeStep(t: Tables, name: string)
    requires Consistent(t)
    requires forall i :: 0 <= i < |t.offices| ==> t.offices[i].name != name
    ensures Consistent(t.(offices := t.offices + [Office(t.nextOfficeId, name)], nextOfficeId := t.nextOfficeId + 1))
    ensures OfficeIds(t.offices + [Office(t.nextOfficeId, name)]) == OfficeIds(t.offices) + {t.nextOfficeId}
  {
    var o := Office(t.nextOfficeId, name);
    var os := t.offices + [o];
    forall x | x in OfficeIds(os) ensures x in OfficeIds(t.offices) + {o.id} {
      var v :| v in os && v.id == x;
      if v != o { assert v in t.offices; }
    }
    forall x | x in OfficeIds(t.offices) ensures x in OfficeIds(os) {
      var v :| v in t.offices && v.id == x;
      assert v in os;
    }
    forall i, j | 0 <= i < j < |os| ensures os[i].id != os[j].id && os[i].name != os[j].name {
      if j == |t.offices| { assert os[i] == t.offices[i]; }
    }
  }

  lemma {:induction false} AddProfileStep(t: Tables, uid: UserId, officeId: OfficeId)
    requires Consistent(t)
    requires uid in UserIds(t.users) && officeId in OfficeIds(t.offices)
    requires forall i :: 0 <= i < |t.staffProfiles| ==> t.staffProfiles[i].user != uid
    ensures Consistent(t.(staffProfiles := t.staffProfiles + [StaffProfile(t.nextProfileId, uid, officeId)],
                          nextProfileId := t.nextProfileId + 1))
  {
    var ps := t.staffProfiles + [StaffProfile(t.nextProfileId, uid, officeId)];
    forall i, j | 0 <= i < j < |ps| ensures ps[i].id < ps[j].id && ps[i].user != ps[j].user {
      if j == |t.staffProfiles| { assert ps[i] == t.staffProfiles[i]; }
    }
  }


  // ---- user deletion ------------------------------------------------------------------

  /** The tables after `User.delete()` of `uid`, as the on-delete rules leave them. */
  function AfterDeleteUser(t: Tables, uid: UserId): Tables
  {
    var gone := CreatedTicketIds(t.tickets, uid);
    t.(users := Filter(t.users, OtherUser(uid)),
       staffProfiles := Filter(t.staffProfiles, NotProfileOf(uid)),
       tickets := ClearAssignee(Filter(t.tickets, NotCreatedBy(uid)), uid),
       notifications := Filter(t.notifications, OutlivesUser(gone, uid)),
       history := DetachTickets(t.history, gone))
  }

  /** The tables after deleting the users `uids`, first to last. */
  function AfterDeleteUsers(t: Tables, uids: seq<UserId>): Tables
  {
    if uids == [] then t else AfterDeleteUser(AfterDeleteUsers(t, uids[..|uids| - 1]), uids[|uids| - 1])
  }

  // ---- lookups the staff scripts rely on --------------------------------------------

  /** Primary keys identify users. */
  lemma SameIdSameUser(users: seq<User>, a: User, b: User)
    requires DistinctBy(users, UserKey) && a in users && b in users && a.id == b.id
    ensures a == b
  {
    var i :| 0 <= i < |users| && users[i] == a;
    var j :| 0 <= j < |users| && users[j] == b;
    assert UserKey(users[i]) == UserKey(users[j]);
  }

  /** Marking one user as staff leaves every other user row as it was. */
  lemma MarkStaffKeeps(users: seq<User>, uid: UserId, u: User)
    requires u in users && u.id != uid
    ensures u in MarkStaff(users, uid)
  {
    var i :| 0 <= i < |users| && users[i] == u;
    assert MarkStaff(users, uid)[i] == u;
  }

  /** The marked user's row now has the staff flag and is otherwise unchanged. */
  lemma MarkStaffSets(users: seq<User>, u: User)
    requires u in users
    ensures u.(isStaff := true) in MarkStaff(users, u.id)
  {
    var i :| 0 <= i < |users| && users[i] == u;
    assert MarkStaff(users, u.id)[i] == u.(isStaff := true);
  }

  /** Marking a freshly appended user as staff changes only that last row. */
  lemma {:induction false} MarkStaffFresh(users: seq<User>, u: User)
    requires u.id !in UserIds(users)
    ensures MarkStaff(users + [u], u.id) == users + [u.(isStaff := true)]
  {
    forall i | 0 <= i < |users|
      ensures MarkStaff(users + [u], u.id)[i] == users[i]
    {
      assert users[i] in users;
    }
  }

  /** No staff profile refers to a user id that is not in the table. */
  lemma NoProfileForUnknownUser(t: Tables, uid: UserId)
    requires Consistent(t) && uid !in UserIds(t.users)
    ensures forall i :: 0 <= i < |t.staffProfiles| ==> t.staffProfiles[i].user != uid
  {
    forall i | 0 <= i < |t.staffProfiles| ensures t.staffProfiles[i].user != uid {
      ProfileUserExists(t, i);
    }
  }

  /** The next user id is unused, by users and by staff profiles alike. */
  lemma FreshUserId(t: Tables)
    requires Consistent(t)
    ensures t.nextUserId !in UserIds(t.users)
    ensures forall i :: 0 <= i < |t.staffProfiles| ==> t.staffProfiles[i].user != t.nextUserId
  {
    NoProfileForUnknownUser(t, t.nextUserId);
  }

  /** Office names are unique. */
  lemma OfficeNamesDistinct(t: Tables)
    requires Consistent(t)
    ensures DistinctBy(t.offices, OfficeNameKey)
  {
  }
}
