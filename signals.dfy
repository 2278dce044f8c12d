/**
 * The two persistence hooks of the ticket app, as decisions. The pre-save hook compares
 * the stored row with the instance being saved and picks at most one notification for the
 * ticket's owner; whenever it picks one it also stamps `last_admin_update`. The post-save
 * hook of history entries stamps a ticket when a staff note is recorded against it.
 * `Store.Database.SaveTicket` and `Store.Database.CreateHistory` apply these decisions.
 */
module Signals {
  import opened Wrappers
  import opened Text
  import opened Directory
  import opened TicketModels

  /** The notification the hook creates; the recipient is always the ticket's owner. */
  datatype Notice = Notice(kind: NotificationType, title: string, message: string)

  function CompletedMessage(id: TicketId, title: string): string
  {
    "Your ticket " + "#" + NatToString(id) + " " + "\"" + title + "\"" + " has been marked as completed. Please review the solution."
  }

  function InProgressMessage(id: TicketId, handler: string): string
  {
    "Your ticket #" + NatToString(id) + " is now being processed by " + handler + "."
  }

  function StatusUpdatedMessage(id: TicketId, status: Status): string
  {
    "Your ticket #" + NatToString(id) + " status has been updated to " + status.Display() + "."
  }

  function AssignedMessage(id: TicketId, assignee: string): string
  {
    "Your ticket #" + NatToString(id) + " has been assigned to " + assignee + "."
  }

  /** Who the in-progress notice says is working on the ticket. */
  function Handler(instance: Ticket, users: seq<User>): string
  {
    match instance.assignedTo
    case Some(u) => FullNameOf(users, u)
    case None => "our team"
  }

  predicate Reassigned(stored: Ticket, instance: Ticket)
  {
    stored.assignedTo != instance.assignedTo && instance.assignedTo.Some?
  }

  /**
   * The pre-save decision. `stored` is the row `Ticket.objects.get(pk=instance.pk)`
   * returns, None when there is none.
   */
  function StatusChangeNotice(stored: Option<Ticket>, instance: Ticket, users: seq<User>): (n: Option<Notice>)
    // a new ticket, or one whose row is gone, gets nothing
    ensures instance.id.None? || stored.None? ==> n.None?
    // otherwise a status change, or a change of assignee to a user, gets exactly one notice
    ensures instance.id.Some? && stored.Some? ==>
      (n.Some? <==> stored.value.status != instance.status || Reassigned(stored.value, instance))
    ensures n.Some? && instance.status == Completed && stored.value.status != Completed ==>
      n.value.kind == TicketCompleted && n.value.title == "Ticket Completed"
    ensures n.Some? && instance.status == InProgress && stored.value.status == Open ==>
      n.value.kind == TicketUpdated && n.value.title == "Ticket In Progress"
    ensures (n.Some? && stored.value.status != instance.status && instance.status != Completed &&
             !(instance.status == InProgress && stored.value.status == Open)) ==>
      n.value.kind == TicketUpdated && n.value.title == "Ticket Status Updated"
    // the assignment notice only when the status did not change
    ensures n.Some? ==> (n.value.kind == TicketAssigned <==> stored.value.status == instance.status)
    ensures n.Some? && n.value.kind == TicketAssigned ==> n.value.title == "Ticket Assigned"
  {
    if instance.id.None? then None
    else
      match stored
      case None => None
      case Some(row) =>
        var id := instance.id.value;
        if row.status != instance.status then
          if instance.status == Completed then
            Some(Notice(TicketCompleted, "Ticket Completed", CompletedMessage(id, instance.title)))
          else if instance.status == InProgress && row.status == Open then
            Some(Notice(TicketUpdated, "Ticket In Progress", InProgressMessage(id, Handler(instance, users))))
          else
            Some(Notice(TicketUpdated, "Ticket Status Updated", StatusUpdatedMessage(id, instance.status)))
        else if Reassigned(row, instance) then
          Some(Notice(TicketAssigned, "Ticket Assigned", AssignedMessage(id, FullNameOf(users, instance.assignedTo.value))))
        else
          None
  }

  /** Saving a row unchanged in status and assignee fires nothing. */
  lemma ResaveIsSilent(stored: Ticket, instance: Ticket, users: seq<User>)
    requires stored.status == instance.status && stored.assignedTo == instance.assignedTo
    ensures StatusChangeNotice(Some(stored), instance, users).None?
  {
  }

  /** The completion notice names the ticket by number and title. */
  lemma {:induction false} CompletedNoticeNamesTicket(stored: Ticket, instance: Ticket, users: seq<User>)
    requires instance.id.Some? && instance.status == Completed && stored.status != Completed
    ensures var n := StatusChangeNotice(Some(stored), instance, users);
      n.Some? && Contains(n.value.message, "#" + NatToString(instance.id.value))
      && Contains(n.value.message, "\"" + instance.title + "\"")
  {
    CompletedMessageNames(instance.id.value, instance.title);
  }

  /** The completion message carries "#id" and the quoted title verbatim. */
  lemma {:induction false} CompletedMessageNames(num: TicketId, title: string)
    ensures Contains(CompletedMessage(num, title), "#" + NatToString(num))
    ensures Contains(CompletedMessage(num, title), "\"" + title + "\"")
  {
    var id := NatToString(num);
    var tail := " has been marked as completed. Please review the solution.";
    var m := CompletedMessage(num, title);
    assert m == "Your ticket " + ("#" + id) + (" " + "\"" + title + "\"" + tail);
    InfixContained("Your ticket ", "#" + id, " " + "\"" + title + "\"" + tail);
    assert m == ("Your ticket " + "#" + id + " ") + ("\"" + title + "\"") + tail;
    InfixContained("Your ticket " + "#" + id + " ", "\"" + title + "\"", tail);
  }

  /**
   * Moving an open ticket to in progress names who handles it: the assignee's full name,
   * or "our team" when nobody is assigned.
   */
  lemma {:induction false} InProgressNoticeNamesHandler(stored: Ticket, instance: Ticket, users: seq<User>)
    requires instance.id.Some? && stored.status == Open && instance.status == InProgress
    ensures var n := StatusChangeNotice(Some(stored), instance, users);
      var h := if instance.assignedTo.Some? then FullNameOf(users, instance.assignedTo.value) else "our team";
      n.Some? && Contains(n.value.message, " is now being processed by " + h + ".")
  {
    HandlerNamed(instance.id.value, Handler(instance, users));
  }

  /** The in-progress message carries the handler's name verbatim. */
  lemma {:induction false} HandlerNamed(id: TicketId, h: string)
    ensures Contains(InProgressMessage(id, h), " is now being processed by " + h + ".")
  {
    var head := "Your ticket #" + NatToString(id);
    var mid := " is now being processed by " + h + ".";
    assert InProgressMessage(id, h) == head + mid + "";
    InfixContained(head, mid, "");
  }

  /** Any other status change reports the new status by its display label. */
  lemma {:induction false} StatusUpdateNoticeShowsStatus(stored: Ticket, instance: Ticket, users: seq<User>)
    requires instance.id.Some? && stored.status != instance.status && instance.status != Completed
    requires !(instance.status == InProgress && stored.status == Open)
    ensures var n := StatusChangeNotice(Some(stored), instance, users);
      n.Some? && Contains(n.value.message, "updated to " + instance.status.Display() + ".")
  {
    var head := "Your ticket #" + NatToString(instance.id.value) + " status has been ";
    assert StatusUpdatedMessage(instance.id.value, instance.status) == head + ("updated to " + instance.status.Display() + ".") + "";
    InfixContained(head, "updated to " + instance.status.Display() + ".", "");
  }

  /** A new assignee with the status unchanged is announced by the assignee's full name. */
  lemma {:induction false} AssignedNoticeNamesAssignee(stored: Ticket, instance: Ticket, users: seq<User>)
    requires instance.id.Some? && stored.status == instance.status && Reassigned(stored, instance)
    ensures var n := StatusChangeNotice(Some(stored), instance, users);
      var name := FullNameOf(users, instance.assignedTo.value);
      n.Some? && n.value.kind == TicketAssigned && n.value.title == "Ticket Assigned" &&
      Contains(n.value.message, " has been assigned to " + name + ".")
  {
    var name := FullNameOf(users, instance.assignedTo.value);
    var head := "Your ticket #" + NatToString(instance.id.value);
    var mid := " has been assigned to " + name + ".";
    assert AssignedMessage(instance.id.value, name) == head + mid + "";
    InfixContained(head, mid, "");
  }

  /** The note marker the post-save hook looks for (case-sensitively). */
  const NoteMarker: string := "Note added by"

  /** The post-save decision for a new history entry: stamp its ticket? */
  predicate StampsTicket(ticket: Option<TicketId>, action: string)
  {
    ticket.Some? && Contains(action, NoteMarker)
  }

  /** The hook stamps exactly when the entry has a ticket and the marker occurs somewhere in its action. */
  lemma {:induction false} StampsTicketIff(ticket: Option<TicketId>, action: string)
    ensures StampsTicket(ticket, action) <==> ticket.Some? && exists i :: OccursAt(action, NoteMarker, i)
  {
    var r := Find(action, NoteMarker);
    if r.Some? {
      assert OccursAt(action, NoteMarker, r.value);
    }
  }

  /** Actions without a capital N can never stamp a ticket. */
  lemma {:induction false} PlainActionDoesNotStamp(ticket: Option<TicketId>, action: string)
    requires 'N' !in action
    ensures !StampsTicket(ticket, action)
  {
    MissingHeadNotContained(action, NoteMarker);
  }
}
