/** The workspace overview: the most recent boards, notes and canvases. */
module Overview {
  import opened Records
  import Seqs
  import Sorting

  /** `boards.slice(0, 4)`. */
  function RecentBoards(boards: seq<Board>): seq<Board> {
    Seqs.Take(boards, 4)
  }

  /** The first four boards, in their order, or all of them when there are fewer. */
  lemma RecentBoardsSpec(boards: seq<Board>)
    ensures var r := RecentBoards(boards);
      && |r| == (if |boards| < 4 then |boards| else 4)
      && forall i :: 0 <= i < |r| ==> r[i] == boards[i]
  {
  }

  /** `notes.slice().sort(by recency, newest first).slice(0, 6)`. */
  function OrderedNotes(notes: seq<Note>): seq<Note> {
    Seqs.Take(Sorting.SortDescending(notes, NoteRecency), 6)
  }

  /** `canvases.slice().sort(by recency, newest first).slice(0, 6)`. */
  function OrderedCanvases(canvases: seq<Canvas>): seq<Canvas> {
    Seqs.Take(Sorting.SortDescending(canvases, CanvasRecency), 6)
  }

  /**
   * The first `n` of a newest-first sorted copy: at most `n` long, newest first, and drawn
   * from the input without repeating any element more often than it occurs there.
   */
  lemma TopSpec<T(!new)>(s: seq<T>, key: T -> real, n: nat)
    ensures var r := Seqs.Take(Sorting.SortDescending(s, key), n);
      && |r| <= n && (|s| >= n ==> |r| == n) && (|s| < n ==> |r| == |s|)
      && (forall i, j :: 0 <= i < j < |r| ==> key(r[i]) >= key(r[j]))
      && multiset(r) <= multiset(s)
  {
    var sorted := Sorting.SortDescending(s, key);
    var r := Seqs.Take(sorted, n);
    Sorting.SortDescendingSpec(s, key);
    assert sorted == r + sorted[|r|..];
    assert multiset(sorted) == multiset(r) + multiset(sorted[|r|..]);
  }

  /** No element the first `n` leave out is newer than any element they keep. */
  lemma TopKeepsNewest<T(!new)>(s: seq<T>, key: T -> real, n: nat, x: T)
    requires x in multiset(s) - multiset(Seqs.Take(Sorting.SortDescending(s, key), n))
    ensures var r := Seqs.Take(Sorting.SortDescending(s, key), n);
      forall i :: 0 <= i < |r| ==> key(x) <= key(r[i])
  {
    var sorted := Sorting.SortDescending(s, key);
    var r := Seqs.Take(sorted, n);
    Sorting.SortDescendingSpec(s, key);
    var rest := sorted[|r|..];
    assert sorted == r + rest;
    assert multiset(sorted) == multiset(r) + multiset(rest);
    assert x in rest;
    var k :| 0 <= k < |rest| && rest[k] == x;
    assert sorted[|r| + k] == x;
    forall i | 0 <= i < |r| ensures key(x) <= key(r[i]) {
      assert sorted[i] == r[i];
    }
  }

  /** The overview's notes: at most six, newest first, all from the notes, none newer left out. */
  lemma OrderedNotesSpec(notes: seq<Note>)
    ensures var r := OrderedNotes(notes);
      && |r| <= 6 && (|notes| >= 6 ==> |r| == 6)
      && (forall i, j :: 0 <= i < j < |r| ==> NoteRecency(r[i]) >= NoteRecency(r[j]))
      && (forall x :: x in r ==> x in notes)
      && (forall x :: x in notes && x !in r ==> forall i :: 0 <= i < |r| ==> NoteRecency(x) <= NoteRecency(r[i]))
  {
    TopSpec(notes, NoteRecency, 6);
    var r := OrderedNotes(notes);
    forall x | x in r ensures x in notes {
      assert x in multiset(r);
    }
    forall x | x in notes && x !in r ensures forall i :: 0 <= i < |r| ==> NoteRecency(x) <= NoteRecency(r[i]) {
      assert x in multiset(notes) - multiset(r);
      TopKeepsNewest(notes, NoteRecency, 6, x);
    }
  }

  /** The overview's canvases: the same bound and order as the notes. */
  lemma OrderedCanvasesSpec(canvases: seq<Canvas>)
    ensures var r := OrderedCanvases(canvases);
      && |r| <= 6 && (|canvases| >= 6 ==> |r| == 6)
      && (forall i, j :: 0 <= i < j < |r| ==> CanvasRecency(r[i]) >= CanvasRecency(r[j]))
      && (forall x :: x in r ==> x in canvases)
      && (forall x :: x in canvases && x !in r ==> forall i :: 0 <= i < |r| ==> CanvasRecency(x) <= CanvasRecency(r[i]))
  {
    TopSpec(canvases, CanvasRecency, 6);
    var r := OrderedCanvases(canvases);
    forall x | x in r ensures x in canvases {
      assert x in multiset(r);
    }
    forall x | x in canvases && x !in r ensures forall i :: 0 <= i < |r| ==> CanvasRecency(x) <= CanvasRecency(r[i]) {
      assert x in multiset(canvases) - multiset(r);
      TopKeepsNewest(canvases, CanvasRecency, 6, x);
    }
  }
}
