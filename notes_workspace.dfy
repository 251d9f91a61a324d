/**
 * The notes editor: the tabs in creation order, the note on screen, its line numbers,
 * word count and caret position, Tab insertion, and the flag that makes the editor drop
 * the next content change after a Tab.
 */
module NotesWorkspace {
  import opened Wrappers
  import opened Text
  import opened Json
  import opened Records
  import Seqs
  import Sorting

  /** The tabs: a copy of the notes sorted by ascending creation time. */
  function OrderedNotes(notes: seq<Note>): seq<Note> {
    Sorting.SortAscending(notes, (n: Note) => n.createdAt)
  }

  /** The tabs are the notes, each once, oldest first. */
  lemma OrderedNotesSpec(notes: seq<Note>)
    ensures var r := OrderedNotes(notes);
      && multiset(r) == multiset(notes)
      && forall i, j :: 0 <= i < j < |r| ==> r[i].createdAt <= r[j].createdAt
  {
    Sorting.SortAscendingSpec(notes, (n: Note) => n.createdAt);
  }

  /** `ordered.find(n => n.id === selectedId) ?? ordered[0] ?? null`. */
  function SelectedNote(ordered: seq<Note>, selectedId: Json): (r: Option<Note>)
    ensures r.Some? <==> |ordered| > 0
  {
    if |ordered| == 0 then None
    else match FindNote(ordered, selectedId)
      case Some(k) => Some(ordered[k])
      case None => Some(ordered[0])
  }

  /** `notes.findIndex(n => n.id === id)`, `None` standing for -1. */
  function FindNote(notes: seq<Note>, id: Json): Option<nat> {
    Seqs.FindIndex(notes, (n: Note) => n.id == id)
  }

  /** The note on screen is the first tab with the selected id; with no such tab it is the first tab; with no tab there is none. */
  lemma SelectedNoteSpec(ordered: seq<Note>, selectedId: Json)
    ensures var r := SelectedNote(ordered, selectedId);
      && (|ordered| == 0 ==> r == None)
      && ((exists k :: 0 <= k < |ordered| && ordered[k].id == selectedId) ==>
            r.Some? && r.value.id == selectedId && r.value in ordered
            && exists k :: 0 <= k < |ordered| && ordered[k] == r.value && forall m :: 0 <= m < k ==> ordered[m].id != selectedId)
      && ((forall k :: 0 <= k < |ordered| ==> ordered[k].id != selectedId) && |ordered| > 0 ==> r == Some(ordered[0]))
  {
    if exists k :: 0 <= k < |ordered| && ordered[k].id == selectedId {
      var f := FindNote(ordered, selectedId);
      assert f.Some?;
    }
  }

  /** The id the selection effect asks for: the first tab's, when nothing is selected. */
  function AutoSelect(selectedId: Json, ordered: seq<Note>): (r: Option<Json>)
    ensures r.Some? <==> !Truthy(Some(selectedId)) && |ordered| > 0
    ensures r.Some? ==> r.value == ordered[0].id
  {
    if !Truthy(Some(selectedId)) && |ordered| > 0 then Some(ordered[0].id) else None
  }

  /** The gutter: `'1'` to `'n'`, one per line, and `['1']` with no note. */
  function LineNumbers(note: Option<Note>): seq<string> {
    if note.None? then ["1"]
    else
      var lines := SplitLines(note.value.content);
      seq(|lines|, i requires 0 <= i < |lines| => NatToString(i + 1))
  }

  /** There is one number per line break plus one, and they count up from 1. */
  lemma LineNumbersSpec(note: Option<Note>)
    ensures var r := LineNumbers(note);
      && |r| == (if note.None? then 1 else 1 + CountChar(note.value.content, '\n'))
      && forall i :: 0 <= i < |r| ==> r[i] == NatToString(i + 1)
  {
    if note.Some? {
      var lines := SplitLines(note.value.content);
      SplitLinesCount(note.value.content);
      assert |LineNumbers(note)| == |lines|;
    } else {
      assert NatToString(1) == [Digit(1)];
    }
  }

  /** `content.trim().split(/\s+/).filter(Boolean).length`, and 0 with no note. */
  function WordCount(note: Option<Note>): nat {
    if note.None? then 0
    else |Seqs.Filter(SplitOnSpaces(Trim(note.value.content)), (w: string) => w != "")|
  }

  lemma {:induction false} NonEmptyFilter(pieces: seq<string>)
    ensures |Seqs.Filter(pieces, (w: string) => w != "")| == NonEmptyCount(pieces)
  {
    if |pieces| > 0 {
      NonEmptyFilter(pieces[1..]);
    }
  }

  /** The word count is the number of maximal runs of visible characters, and 0 exactly for blank content. */
  lemma WordCountSpec(note: Note)
    ensures WordCount(Some(note)) == RunCount(note.content)
    ensures WordCount(Some(note)) == 0 <==> IsBlank(note.content)
  {
    var t := Trim(note.content);
    NonEmptyFilter(SplitOnSpaces(t));
    SplitOnSpacesRuns(t);
    TrimRunCount(note.content);
    RunCountZero(note.content);
  }

  /** `s.slice(0, i)`. */
  function SliceTo(s: string, i: nat): (r: string)
    ensures |r| == (if i < |s| then i else |s|) && r <= s
  {
    if i < |s| then s[..i] else s
  }

  /** `s.slice(i)`. */
  function SliceFrom(s: string, i: nat): (r: string)
    ensures |r| == (if i < |s| then |s| - i else 0)
  {
    if i < |s| then s[i..] else ""
  }

  datatype Caret = Caret(line: nat, column: nat)

  /** `updateCaretPosition`: line and column of the caret at `selectionStart` (0 when unknown). */
  function CaretAt(value: string, selectionStart: Option<nat>): Caret {
    var lines := SplitLines(SliceTo(value, selectionStart.GetOr(0)));
    Caret(|lines|, |lines[|lines| - 1]| + 1)
  }

  /**
   * The caret line is one more than the number of line feeds before the caret; the
   * column is one more than the number of characters since the last of them (or since
   * the start), so it is at least 1.
   */
  lemma CaretAtSpec(value: string, selectionStart: Option<nat>)
    ensures var prefix := SliceTo(value, selectionStart.GetOr(0));
      var c := CaretAt(value, selectionStart);
      && c.line == 1 + CountChar(prefix, '\n')
      && 1 <= c.column <= |prefix| + 1
      && var tail := prefix[|prefix| - (c.column - 1)..];
         '\n' !in tail && (c.column - 1 < |prefix| ==> prefix[|prefix| - c.column] == '\n')
  {
    var prefix := SliceTo(value, selectionStart.GetOr(0));
    SplitLinesCount(prefix);
    SplitLinesLast(prefix);
  }

  /** `value.slice(0, start) + '\t' + value.slice(end)`: the selection replaced by a tab. */
  function TabInsert(value: string, start: nat, end: nat): string {
    SliceTo(value, start) + "\t" + SliceFrom(value, end)
  }

  /**
   * For a selection inside the text, the result is the text before it, a tab, and the
   * text after it, and its length shrinks by the selection and grows by one.
   */
  lemma TabInsertSpec(value: string, start: nat, end: nat)
    requires start <= end <= |value|
    ensures var r := TabInsert(value, start, end);
      && r == value[..start] + "\t" + value[end..]
      && |r| == |value| - (end - start) + 1
      && r[start] == '\t'
  {
  }

  /** The caret just after the inserted tab is on the line of the selection start, one column further. */
  lemma TabCaretSpec(value: string, start: nat, end: nat)
    requires start <= end <= |value|
    ensures var c := CaretAt(value, Some(start));
      CaretAt(TabInsert(value, start, end), Some(start + 1)) == Caret(c.line, c.column + 1)
  {
    var r := TabInsert(value, start, end);
    var p := value[..start];
    assert SliceTo(value, start) == p;
    assert SliceTo(r, start + 1) == p + ['\t'];
    SplitLinesSnoc(p, '\t');
  }

  /** The editor's own state. */
  class Editor {
    /** `suppressChangeRef.current`: the next content change is to be dropped. */
    var suppress: bool
    var caret: Caret

    constructor()
      ensures !suppress && caret == Caret(1, 1)
    {
      suppress := false;
      caret := Caret(1, 1);
    }

    /**
     * `handleContentChange`: with a note on screen, a suppressed change clears the flag
     * and is dropped; any other change is sent as an update of the note.
     */
    method ContentChange(selected: Option<Note>, value: string, now: real) returns (sent: Option<Note>)
      modifies this`suppress
      ensures selected.None? ==> sent == None && suppress == old(suppress)
      ensures selected.Some? && old(suppress) ==> sent == None && !suppress
      ensures selected.Some? && !old(suppress) ==> sent == Some(selected.value.(content := value, updatedAt := now)) && !suppress
    {
      if selected.None? {
        return None;
      }
      if suppress {
        suppress := false;
        return None;
      }
      sent := Some(selected.value.(content := value, updatedAt := now));
    }

    /**
     * `handleKeyDown` for Tab: with a note and a text area, the selection is replaced by a
     * tab, the updated note sent directly, the flag set so that the next content change
     * is dropped, and the caret placed just after the tab. The key's default action is
     * prevented and the text area is controlled, so the edit itself raises no change event.
     */
    method Tab(selected: Option<Note>, hasTextArea: bool, selectionStart: Option<nat>, selectionEnd: Option<nat>, now: real)
      returns (sent: Option<Note>, caretIndex: Option<nat>)
      modifies this`suppress
      ensures selected.None? || !hasTextArea ==> sent == None && caretIndex == None && suppress == old(suppress)
      ensures selected.Some? && hasTextArea ==>
        && suppress
        && sent == Some(selected.value.(content := TabInsert(selected.value.content, selectionStart.GetOr(0), selectionEnd.GetOr(0)), updatedAt := now))
        && caretIndex == Some(selectionStart.GetOr(0) + 1)
    {
      if selected.None? || !hasTextArea {
        return None, None;
      }
      var start := selectionStart.GetOr(0);
      var end := selectionEnd.GetOr(0);
      var next := TabInsert(selected.value.content, start, end);
      suppress := true;
      sent := Some(selected.value.(content := next, updatedAt := now));
      caretIndex := Some(start + 1);
    }

    /** `handleRename`: the note with the new title and time and every other field kept, unless there is no note. */
    method Rename(selected: Option<Note>, value: string, now: real) returns (sent: Option<Note>)
      ensures selected.None? ==> sent == None
      ensures selected.Some? ==> sent == Some(selected.value.(title := value, updatedAt := now))
    {
      if selected.None? {
        return None;
      }
      sent := Some(selected.value.(title := value, updatedAt := now));
    }

    method UpdateCaret(hasTextArea: bool, value: string, selectionStart: Option<nat>)
      modifies this`caret
      ensures caret == if hasTextArea then CaretAt(value, selectionStart) else old(caret)
    {
      if hasTextArea {
        caret := CaretAt(value, selectionStart);
      }
    }
  }

  /**
   * After a Tab the next content change, whatever the user typed, is dropped and clears
   * the flag; the change after that is sent. The note on screen is the one the Tab sent.
   */
  method TabThenType(e: Editor, note: Note, start: nat, end: nat, lost: string, typed: string, now: real)
    returns (first: Option<Note>, second: Option<Note>)
    modifies e
    ensures first == None && !e.suppress
    ensures second == Some(note.(content := typed, updatedAt := now))
  {
    var sent, caretIndex := e.Tab(Some(note), true, Some(start), Some(end), now);
    first := e.ContentChange(sent, lost, now);
    second := e.ContentChange(sent, typed, now);
  }

  /**
   * The Tab handler without the flag: the same insertion, sent and caret, and the flag
   * left as it was.
   */
  method TabKeepingEdits(selected: Option<Note>, hasTextArea: bool, selectionStart: Option<nat>, selectionEnd: Option<nat>, now: real)
    returns (sent: Option<Note>, caretIndex: Option<nat>)
    ensures selected.None? || !hasTextArea ==> sent == None && caretIndex == None
    ensures selected.Some? && hasTextArea ==>
      && sent == Some(selected.value.(content := TabInsert(selected.value.content, selectionStart.GetOr(0), selectionEnd.GetOr(0)), updatedAt := now))
      && caretIndex == Some(selectionStart.GetOr(0) + 1)
  {
    if selected.None? || !hasTextArea {
      return None, None;
    }
    var start := selectionStart.GetOr(0);
    var end := selectionEnd.GetOr(0);
    sent := Some(selected.value.(content := TabInsert(selected.value.content, start, end), updatedAt := now));
    caretIndex := Some(start + 1);
  }

  /** With the flag-free Tab, the user's first change after a Tab is sent. */
  method TabKeepsNextEdit(e: Editor, note: Note, start: nat, end: nat, typed: string, now: real)
    returns (first: Option<Note>)
    requires !e.suppress
    modifies e
    ensures first == Some(note.(content := typed, updatedAt := now)) && !e.suppress
  {
    var sent, caretIndex := TabKeepingEdits(Some(note), true, Some(start), Some(end), now);
    first := e.ContentChange(sent, typed, now);
  }
}
