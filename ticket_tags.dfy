/**
 * Template filters over tickets and history lines (tickets/templatetags/ticket_tags.py).
 * `icontains` is modelled as containment after lower-casing both sides.
 */
module TicketTags {
  import opened Wrappers
  import opened Text
  import opened Ordering
  import opened TicketModels
  import opened Signals

  const NoteSeparator: string := ": "

  /** `ticket.tickethistory_set.filter(action__icontains='Note added by')`, as a row test. */
  function IsAdminNoteOf(id: TicketId): HistoryEntry -> bool
  {
    (e: HistoryEntry) => e.ticket == Some(id) && Contains(Lower(e.action), Lower(NoteMarker))
  }

  /** `admin_notes_count`: how many of the ticket's history lines are notes. */
  function AdminNotesCount(history: seq<HistoryEntry>, id: TicketId): (r: nat)
    ensures r <= |history|
  {
    |Filter(history, IsAdminNoteOf(id))|
  }

  /** A note line about the ticket, as the note hook recognises it, adds one to the count. */
  lemma NoteLineCounted(history: seq<HistoryEntry>, id: TicketId, e: HistoryEntry)
    requires e.ticket == Some(id) && Contains(e.action, NoteMarker)
    ensures AdminNotesCount(history + [e], id) == AdminNotesCount(history, id) + 1
  {
    FilterAppend(history, [e], IsAdminNoteOf(id));
    ContainsImpliesLowerContains(e.action, NoteMarker);
    assert Filter([e], IsAdminNoteOf(id)) == [e];
  }

  /** Lines about other tickets, or without the marker in any case, do not count. */
  lemma OtherLineNotCounted(history: seq<HistoryEntry>, id: TicketId, e: HistoryEntry)
    requires e.ticket != Some(id) || !Contains(Lower(e.action), Lower(NoteMarker))
    ensures AdminNotesCount(history + [e], id) == AdminNotesCount(history, id)
  {
    FilterAppend(history, [e], IsAdminNoteOf(id));
    assert Filter([e], IsAdminNoteOf(id)) == [];
  }

  /** The count is case-insensitive, the note hook is not: a lower-case marker counts without stamping. */
  lemma LowerCaseMarkerCountedNotStamped(id: TicketId)
    ensures var e := HistoryEntry(Some(id), None, "note added by staff", 0);
      AdminNotesCount([e], id) == 1 && !StampsTicket(e.ticket, e.action)
  {
    var e := HistoryEntry(Some(id), None, "note added by staff", 0);
    assert Lower(NoteMarker) == "note added by";
    assert Lower(e.action) == e.action;
    InfixContained("", "note added by", " staff");
    assert "" + "note added by" + " staff" == e.action;
    assert Filter([e], IsAdminNoteOf(id)) == [e];
    PlainActionDoesNotStamp(e.ticket, e.action);
  }

  /** `extract_note`: for a note line with a ": ", the text after the first one; otherwise the line unchanged. */
  function ExtractNote(action: string): (r: string)
    ensures !(Contains(action, NoteMarker) && Contains(action, NoteSeparator)) ==> r == action
    ensures Contains(action, NoteMarker) && Contains(action, NoteSeparator) ==>
      exists k :: OccursAt(action, NoteSeparator, k) && r == action[k + |NoteSeparator|..] &&
        forall j :: 0 <= j < k ==> !OccursAt(action, NoteSeparator, j)
  {
    if Contains(action, NoteMarker) && Contains(action, NoteSeparator) then
      var k := Find(action, NoteSeparator).value;
      action[k + |NoteSeparator|..]
    else
      action
  }

  /**
   * A note written as a head that holds the marker and no colon, ": " and the note text
   * gives back exactly the note text, even when that text has ": " of its own.
   */
  lemma {:induction false} ExtractNoteRoundTrip(head: string, note: string)
    requires Contains(head, NoteMarker) && ':' !in head
    ensures ExtractNote(head + NoteSeparator + note) == note
  {
    var s := head + NoteSeparator + note;
    var i := Find(head, NoteMarker).value;
    assert s[i..i + |NoteMarker|] == head[i..i + |NoteMarker|];
    ContainsAt(s, NoteMarker, i);
    assert s[|head|..|head| + 2] == NoteSeparator;
    forall j | 0 <= j < |head|
      ensures !OccursAt(s, NoteSeparator, j)
    {
      assert s[j] == head[j];
      if j + 2 <= |s| { assert s[j..j + 2][0] == s[j]; }
    }
    FindFirst(s, NoteSeparator, |head|);
    assert s[|head| + 2..] == note;
  }

  /**
   * `has_unread_updates`: exactly what the ticket's `has_unread_admin_notes()` says.
   * That method is not part of this model, so it is a parameter.
   */
  function HasUnreadUpdates(ticket: Ticket, hasUnreadAdminNotes: Ticket -> bool): (r: bool)
    ensures r <==> hasUnreadAdminNotes(ticket)
  {
    hasUnreadAdminNotes(ticket)
  }
}
