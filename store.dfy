/**
 * The database the ticket core runs against, with the ORM calls it makes as explicit
 * operations: `Ticket.save()` (running the pre-save notification hook first), creating a
 * history entry (running the post-save note hook after), the on-delete rules of every
 * foreign key, `create_user`, `get_or_create` of offices, and the pending-verification
 * table. Every table is kept in primary-key order; `Valid` states the uniqueness and
 * referential integrity the schema guarantees, and every operation keeps it.
 */
module Store {
  import opened Wrappers
  import opened Ordering
  import opened Directory
  import opened TicketModels
  import opened Signals
  import opened Verification
  import opened Schema

  /** A message handed to the mail backend. */
  datatype Mail = Mail(subject: string, body: string, recipients: seq<string>)

  class Database {
    var users: seq<User>
    var offices: seq<Office>
    var staffProfiles: seq<StaffProfile>
    var tickets: seq<Ticket>
    var history: seq<HistoryEntry>
    var notifications: seq<Notification>
    var verifications: map<string, EmailVerification>
    var outbox: seq<Mail>
    var nextUserId: nat
    var nextOfficeId: nat
    var nextProfileId: nat
    var nextTicketId: nat

    /** The current contents of every table. */
    function Snapshot(): Tables
      reads this
    {
      Tables(users, offices, staffProfiles, tickets, history, notifications, verifications,
             nextUserId, nextOfficeId, nextProfileId, nextTicketId)
    }

    ghost predicate Valid()
      reads this
    {
      Consistent(Snapshot())
    }

    constructor ()
      ensures Valid()
      ensures users == [] && offices == [] && staffProfiles == [] && tickets == []
      ensures history == [] && notifications == [] && verifications == map[] && outbox == []
    {
      users, offices, staffProfiles, tickets := [], [], [], [];
      history, notifications, verifications, outbox := [], [], map[], [];
      nextUserId, nextOfficeId, nextProfileId, nextTicketId := 1, 1, 1, 1;
    }

    /**
     * `instance.save()`. The pre-save hook compares `instance` with its stored row and
     * may insert one notification and stamp `last_admin_update`; then the row is
     * inserted (a fresh primary key, `created_at` set) or overwritten, with `updated_at`
     * refreshed.
     */
    method SaveTicket(instance: Ticket, now: Time) returns (saved: Ticket)
      requires Valid()
      requires instance.createdBy in UserIds(users)
      requires instance.assignedTo.Some? ==> instance.assignedTo.value in UserIds(users)
      modifies this`tickets, this`notifications, this`nextTicketId
      ensures Valid()
      ensures saved == SavedInstance(old(tickets), users, old(nextTicketId), instance, now)
      ensures tickets == WriteRow(old(tickets), saved)
      ensures notifications == old(notifications) + NoticeRows(old(tickets), users, instance, saved, now)
      ensures nextTicketId == NextAfterSave(old(nextTicketId), instance)
      ensures TicketIds(tickets) == TicketIds(old(tickets)) + {saved.id.value}
    {
      ghost var before := Snapshot();
      saved := SavedInstance(tickets, users, nextTicketId, instance, now);
      SaveTicketStep(before, instance, now);
      notifications := notifications + NoticeRows(tickets, users, instance, saved, now);
      tickets := WriteRow(tickets, saved);
      nextTicketId := NextAfterSave(nextTicketId, instance);
      assert Snapshot() == before.(tickets := tickets, notifications := notifications, nextTicketId := nextTicketId);
    }

    /**
     * `TicketHistory.objects.create(...)`, then the post-save hook: a new entry about an
     * existing ticket whose action contains "Note added by" stamps that ticket's
     * `last_admin_update`. The stamp saves only that column, so `updated_at` stays and
     * the pre-save hook, seeing status and assignee unchanged, adds no notification.
     * The stamp re-saves the stored row, not a caller's possibly stale in-memory copy.
     */
    method CreateHistory(ticket: Option<TicketId>, ticketTitle: Option<string>, action: string, now: Time)
      returns (entry: HistoryEntry)
      requires Valid()
      requires ticket.Some? ==> ticket.value in TicketIds(tickets)
      modifies this`history, this`tickets
      ensures Valid()
      ensures entry == HistoryEntry(ticket, ticketTitle, action, now)
      ensures history == old(history) + [entry]
      ensures StampsTicket(ticket, action) ==> tickets == StampRow(old(tickets), ticket.value, now)
      ensures !StampsTicket(ticket, action) ==> tickets == old(tickets)
      ensures TicketIds(tickets) == TicketIds(old(tickets))
    {
      ghost var before := Snapshot();
      entry := HistoryEntry(ticket, ticketTitle, action, now);
      CreateHistoryStep(before, entry, now);
      history := history + [entry];
      if StampsTicket(ticket, action) {
        var row := StoredRow(tickets, ticket).value;
        ResaveIsSilent(row, row.(lastAdminUpdate := Some(now)), users);
        tickets := StampRow(tickets, ticket.value, now);
      }
      assert Snapshot() == before.(history := history, tickets := tickets);
    }

    /**
     * `ticket.delete()`: its notifications cascade, its history entries are kept with
     * the reference set to null.
     */
    method DeleteTicket(id: TicketId)
      requires Valid()
      modifies this`tickets, this`notifications, this`history
      ensures Valid()
      ensures tickets == Filter(old(tickets), OtherTicket(id))
      ensures notifications == Filter(old(notifications), NotAboutTicket(id))
      ensures history == DetachTickets(old(history), {id})
      ensures TicketIds(tickets) == TicketIds(old(tickets)) - {id}
    {
      ghost var before := Snapshot();
      DeleteTicketStep(before, id);
      tickets := Filter(tickets, OtherTicket(id));
      notifications := Filter(notifications, NotAboutTicket(id));
      history := DetachTickets(history, {id});
      assert Snapshot() == before.(tickets := tickets, notifications := notifications, history := history);
    }

    /**
     * `user.delete()`: the tickets they created cascade (with those tickets'
     * notifications, and their history detached), tickets assigned to them become
     * unassigned, their notifications go; then the user row goes, with its staff profile.
     */
    method DeleteUser(uid: UserId)
      requires Valid()
      modifies this`users, this`staffProfiles, this`tickets, this`notifications, this`history
      ensures Valid()
      ensures users == Filter(old(users), OtherUser(uid))
      ensures staffProfiles == Filter(old(staffProfiles), NotProfileOf(uid))
      ensures tickets == ClearAssignee(Filter(old(tickets), NotCreatedBy(uid)), uid)
      ensures var gone := CreatedTicketIds(old(tickets), uid);
        notifications == Filter(old(notifications), OutlivesUser(gone, uid)) &&
        history == DetachTickets(old(history), gone)
      ensures Snapshot() == AfterDeleteUser(old(Snapshot()), uid)
    {
      CascadeFromUser(uid);
      RemoveUserRow(uid);
    }

    /** The rows that refer to the user `uid`, as the on-delete rules treat them. */
    method CascadeFromUser(uid: UserId)
      requires Valid()
      modifies this`tickets, this`notifications, this`history
      ensures Valid() && Unreferenced(Snapshot(), uid)
      ensures tickets == ClearAssignee(Filter(old(tickets), NotCreatedBy(uid)), uid)
      ensures var gone := CreatedTicketIds(old(tickets), uid);
        notifications == Filter(old(notifications), OutlivesUser(gone, uid)) &&
        history == DetachTickets(old(history), gone)
    {
      var gone := CreatedTicketIds(tickets, uid);
      CascadeUserStep(Snapshot(), uid);
      notifications := Filter(notifications, OutlivesUser(gone, uid));
      history := DetachTickets(history, gone);
      tickets := ClearAssignee(Filter(tickets, NotCreatedBy(uid)), uid);
    }

    /** Deletes the user row and its staff profile once nothing else refers to the user. */
    method RemoveUserRow(uid: UserId)
      requires Valid() && Unreferenced(Snapshot(), uid)
      modifies this`users, this`staffProfiles
      ensures Valid()
      ensures users == Filter(old(users), OtherUser(uid))
      ensures staffProfiles == Filter(old(staffProfiles), NotProfileOf(uid))
    {
      RemoveUserStep(Snapshot(), uid);
      users := Filter(users, OtherUser(uid));
      staffProfiles := Filter(staffProfiles, NotProfileOf(uid));
    }

    /** Inserts a user row whose password column is `encoded` as given. */
    method InsertUser(username: string, email: string, encoded: string) returns (uid: UserId)
      requires Valid()
      requires forall i :: 0 <= i < |users| ==> users[i].username != username
      modifies this`users, this`nextUserId
      ensures Valid()
      ensures uid == old(nextUserId) && nextUserId == uid + 1 && uid !in UserIds(old(users))
      ensures users == old(users) + [User(uid, username, email, "", "", false, encoded)]
      ensures UserIds(users) == UserIds(old(users)) + {uid}
    {
      uid := nextUserId;
      var u := User(uid, username, email, "", "", false, encoded);
      InsertUserStep(Snapshot(), u);
      users := users + [u];
      nextUserId := nextUserId + 1;
    }

    /**
     * `User.objects.create_user(username, email, password)`: the domain of the address
     * is normalised and the raw password is hashed.
     */
    method CreateUser(username: string, email: string, raw: string) returns (uid: UserId)
      requires Valid()
      requires forall i :: 0 <= i < |users| ==> users[i].username != username
      modifies this`users, this`nextUserId
      ensures Valid()
      ensures uid == old(nextUserId) && nextUserId == uid + 1 && uid !in UserIds(old(users))
      ensures users == old(users) + [User(uid, username, NormalizeEmail(email), "", "", false, MakePassword(raw))]
      ensures UserIds(users) == UserIds(old(users)) + {uid}
    {
      uid := InsertUser(username, NormalizeEmail(email), MakePassword(raw));
    }

    /** `user.is_staff = True; user.save()`. */
    method SetStaff(uid: UserId)
      requires Valid()
      modifies this`users
      ensures Valid()
      ensures users == MarkStaff(old(users), uid)
      ensures UserIds(users) == UserIds(old(users))
    {
      SetStaffStep(Snapshot(), uid);
      users := MarkStaff(users, uid);
    }

    /** `Office.objects.get_or_create(name=name)`. */
    method GetOrCreateOffice(name: string) returns (office: Office, created: bool)
      requires Valid()
      modifies this`offices, this`nextOfficeId
      ensures Valid()
      ensures created <==> FindOfficeNamed(old(offices), name).None?
      ensures !created ==> office == FindOfficeNamed(old(offices), name).value && offices == old(offices)
      ensures created ==> office == Office(old(nextOfficeId), name) && offices == old(offices) + [office]
      ensures office in offices && office.name == name
      ensures OfficeIds(old(offices)) <= OfficeIds(offices)
    {
      match FindOfficeNamed(offices, name)
      case Some(o) =>
        office, created := o, false;
      case None =>
        office, created := Office(nextOfficeId, name), true;
        AddOfficeStep(Snapshot(), name);
        offices := offices + [office];
        nextOfficeId := nextOfficeId + 1;
    }

    /** `StaffProfile.objects.create(user=..., office=...)`. */
    method CreateStaffProfile(uid: UserId, officeId: OfficeId) returns (profile: StaffProfile)
      requires Valid()
      requires uid in UserIds(users) && officeId in OfficeIds(offices)
      requires forall i :: 0 <= i < |staffProfiles| ==> staffProfiles[i].user != uid
      modifies this`staffProfiles, this`nextProfileId
      ensures Valid()
      ensures profile == StaffProfile(old(nextProfileId), uid, officeId)
      ensures staffProfiles == old(staffProfiles) + [profile]
    {
      profile := StaffProfile(nextProfileId, uid, officeId);
      AddProfileStep(Snapshot(), uid, officeId);
      staffProfiles := staffProfiles + [profile];
      nextProfileId := nextProfileId + 1;
    }

    /** Stores the verification record for `v.email`, replacing any earlier one. */
    method SaveVerification(v: EmailVerification)
      requires Valid()
      requires |v.code| <= CodeLength
      modifies this`verifications
      ensures Valid()
      ensures verifications == old(verifications)[v.email := v]
    {
      verifications := verifications[v.email := v];
    }

    method DeleteVerification(email: string)
      requires Valid()
      modifies this`verifications
      ensures Valid()
      ensures verifications == old(verifications) - {email}
    {
      verifications := verifications - {email};
    }

    /** `send_mail(...)`: the message is handed to the backend, modelled as an outbox. */
    method SendMail(m: Mail)
      modifies this`outbox
      ensures outbox == old(outbox) + [m]
    {
      outbox := outbox + [m];
    }
  }
}
