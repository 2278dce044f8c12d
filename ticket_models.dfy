/**
 * The ticket schema. `Ticket`, `HistoryEntry` and `Notification` carry the fields the
 * ticket code writes and reads; the declarations in tickets/models.py lag behind that
 * code (no `metadata`, `attachment` or `last_admin_update` on Ticket, no recipient, type,
 * title or read flag under those names on Notification). The declared choice lists,
 * defaults, length limits and on-delete rules are stated separately below.
 */
module TicketModels {
  import opened Wrappers
  import opened Text
  import opened Choices
  import opened Directory

  type TicketId = nat
  /** An uploaded file, by reference only; its storage is not modelled. */
  type FileRef = string

  datatype Status = Open | InProgress | Completed
  {
    /** The stored value. */
    function Code(): string
    {
      match this
      case Open => "open"
      case InProgress => "in_progress"
      case Completed => "completed"
    }

    /** `get_status_display()`. */
    function Display(): string
    {
      match this
      case Open => "Open"
      case InProgress => "In Progress"
      case Completed => "Completed"
    }
  }

  const StatusChoices: ChoiceList := [("open", "Open"), ("in_progress", "In Progress"), ("completed", "Completed")]

  /** A new ticket's status. */
  const DefaultStatus: Status := Open

  /** The category choices the model declares; they are not the routing keys. */
  const DeclaredCategories: ChoiceList :=
    [("academics", "Academics"), ("facilities", "Facilities"), ("support", "Support"), ("faculty", "Faculty")]

  const TitleMaxLength := 200
  const HistoryTitleMaxLength := 255
  const ActionMaxLength := 255
  const NotificationMessageMaxLength := 200
  const NotificationReadDefault := false

  /** Reads a stored status value back. */
  function StatusFromCode(code: string): (r: Option<Status>)
    ensures r.Some? ==> r.value.Code() == code
    ensures r.None? ==> !IsChoice(StatusChoices, code)
  {
    if code == "open" then Some(Open)
    else if code == "in_progress" then Some(InProgress)
    else if code == "completed" then Some(Completed)
    else None
  }

  /** Every status is stored as one of the declared codes, shown with its declared label. */
  lemma StatusMatchesChoices(s: Status)
    ensures IsChoice(StatusChoices, s.Code())
    ensures Label(StatusChoices, s.Code()) == s.Display()
    ensures StatusFromCode(s.Code()) == Some(s)
  {
    match s
    case Open => assert StatusChoices[0].0 == s.Code();
    case InProgress => assert StatusChoices[1].0 == s.Code();
    case Completed => assert StatusChoices[2].0 == s.Code();
  }

  datatype Ticket = Ticket(
    id: Option<TicketId>,       // None until the row is inserted
    title: string,
    description: string,
    category: string,
    status: Status,
    createdBy: UserId,
    assignedTo: Option<UserId>,
    createdAt: Time,
    updatedAt: Time,
    metadata: map<string, string>,
    attachment: Option<FileRef>,
    lastAdminUpdate: Option<Time>,
    lastViewedByUser: Option<Time>)

  /** `Ticket(title=..., description=..., category=..., created_by=...)` before it is saved. */
  function NewTicket(title: string, description: string, category: string, owner: UserId): (t: Ticket)
    ensures t.id.None? && t.status == DefaultStatus && t.assignedTo.None?
    ensures t.metadata == map[] && t.attachment.None? && t.lastAdminUpdate.None? && t.lastViewedByUser.None?
    ensures t.title == title && t.description == description && t.category == category && t.createdBy == owner
  {
    Ticket(None, title, description, category, DefaultStatus, owner, None, 0, 0, map[], None, None, None)
  }

  /** One audit line. `ticket` is cleared (not the entry deleted) when the ticket goes away. */
  datatype HistoryEntry = HistoryEntry(
    ticket: Option<TicketId>,
    ticketTitle: Option<string>,
    action: string,
    timestamp: Time)

  const DeletedTicketLabel: string := "Deleted ticket"

  /** `TicketHistory.__str__`: the title snapshot (or "Deleted ticket" when it is empty or null), a dash, the action. */
  function HistoryStr(e: HistoryEntry): (r: string)
    ensures EndsWith(r, " - " + e.action)
    ensures e.ticketTitle.Some? && e.ticketTitle.value != "" ==> e.ticketTitle.value <= r
    ensures e.ticketTitle.None? || e.ticketTitle.value == "" ==> DeletedTicketLabel <= r
    ensures |r| == |(if e.ticketTitle.Some? && e.ticketTitle.value != "" then e.ticketTitle.value else DeletedTicketLabel)| + 3 + |e.action|
  {
    var head := if e.ticketTitle.Some? && e.ticketTitle.value != "" then e.ticketTitle.value else DeletedTicketLabel;
    var r := head + " - " + e.action;
    assert r[|r| - |" - " + e.action|..] == " - " + e.action;
    assert r[..|head|] == head;
    r
  }

  datatype NotificationType = TicketCompleted | TicketUpdated | TicketAssigned
  {
    function Code(): string
    {
      match this
      case TicketCompleted => "ticket_completed"
      case TicketUpdated => "ticket_updated"
      case TicketAssigned => "ticket_assigned"
    }
  }

  datatype Notification = Notification(
    user: UserId,
    ticket: TicketId,
    kind: NotificationType,
    title: string,
    message: string,
    isRead: bool,
    createdAt: Time)

  /** What deleting a referenced row does to the referencing rows. */
  datatype OnDelete = Cascade | SetNull

  const TicketCreatedByOnDelete: OnDelete := Cascade
  const TicketAssignedToOnDelete: OnDelete := SetNull
  const HistoryTicketOnDelete: OnDelete := SetNull
  const NotificationTicketOnDelete: OnDelete := Cascade
}
