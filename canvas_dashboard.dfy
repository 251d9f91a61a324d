/**
 * The canvas dashboard: cover picking, the searchable and sortable canvas list, the
 * figures above it, the canvas the "open" button opens, and inline renaming.
 */
module CanvasDashboard {
  import opened Wrappers
  import opened Text
  import opened Json
  import opened Records
  import Seqs
  import Sorting

  /** `coverGradients`. */
  const COVERS: seq<string> := [
    "linear-gradient(135deg,#2563eb,#7c3aed)",
    "linear-gradient(135deg,#ec4899,#ef4444)",
    "linear-gradient(135deg,#10b981,#14b8a6)",
    "linear-gradient(135deg,#f59e0b,#f97316)",
    "linear-gradient(135deg,#6366f1,#22d3ee)",
    "linear-gradient(135deg,#8b5cf6,#d946ef)",
    "linear-gradient(135deg,#0ea5e9,#6366f1)",
    "linear-gradient(135deg,#14b8a6,#3b82f6)"
  ]

  /** `String(id)` for the ids a canvas can carry: strings, booleans, objects and integers (exact below 2^53 in magnitude). */
  function IdText(id: Json): string {
    match id
    case JStr(s) => s
    case JBool(b) => if b then "true" else "false"
    case JNum(n) => if n.Floor as real == n then IntToString(n.Floor) else ""
    case JObj(_) => "[object Object]"
    case _ => ""
  }

  /** `char.charCodeAt(0)` for one code point: the code point itself, or its high surrogate. */
  function CodeUnit(c: char): (u: nat)
    ensures u < 0x10000
  {
    if c as int < 0x10000 then c as int else 0xD800 + (c as int - 0x10000) / 0x400
  }

  /** `Array.from(s).reduce((sum, char) => sum + char.charCodeAt(0), 0)`. */
  function CodeSum(s: string): nat {
    if |s| == 0 then 0 else CodeSum(s[..|s| - 1]) + CodeUnit(s[|s| - 1])
  }

  /** `pickCover(id, index)`: by the position for a falsy id, else by the id's code sum. */
  function PickCover(id: Json, index: nat): string {
    if !Truthy(Some(id)) then COVERS[index % |COVERS|]
    else COVERS[CodeSum(IdText(id)) % |COVERS|]
  }

  /** The cover is always one of the gradients; for a canvas with an id it does not depend on the position. */
  lemma PickCoverSpec(id: Json, i: nat, j: nat)
    ensures PickCover(id, i) in COVERS
    ensures Truthy(Some(id)) ==> PickCover(id, i) == PickCover(id, j)
    ensures !Truthy(Some(id)) ==> PickCover(id, i) == COVERS[i % 8]
  {
  }

  /** The code sum of a concatenation is the sum of the code sums. */
  lemma {:induction false} CodeSumAppend(a: string, b: string)
    ensures CodeSum(a + b) == CodeSum(a) + CodeSum(b)
    decreases |b|
  {
    if |b| == 0 {
      assert a + b == a;
    } else {
      var b' := b[..|b| - 1];
      assert (a + b)[..|a + b| - 1] == a + b';
      assert (a + b)[|a + b| - 1] == b[|b| - 1];
      CodeSumAppend(a, b');
    }
  }

  /** Taking one character out of a string takes its code unit out of the code sum. */
  lemma CodeSumRemove(s: string, k: nat)
    requires k < |s|
    ensures CodeSum(s) == CodeSum(s[..k] + s[k + 1..]) + CodeUnit(s[k])
  {
    assert s == s[..k] + ([s[k]] + s[k + 1..]);
    CodeSumAppend(s[..k], [s[k]] + s[k + 1..]);
    CodeSumAppend([s[k]], s[k + 1..]);
    CodeSumAppend(s[..k], s[k + 1..]);
    assert CodeSum([s[k]]) == CodeSum([]) + CodeUnit(s[k]);
  }

  /** Strings holding the same characters, in any order, have the same code sum. */
  lemma {:induction false} CodeSumPermutation(a: string, b: string)
    requires multiset(a) == multiset(b)
    ensures CodeSum(a) == CodeSum(b)
    decreases |a|
  {
    if |a| == 0 {
      assert |b| == |multiset(b)| == |multiset(a)| == 0;
    } else {
      var c := a[|a| - 1];
      var a' := a[..|a| - 1];
      assert a == a' + [c];
      assert c in multiset(b);
      var k :| 0 <= k < |b| && b[k] == c;
      var b' := b[..k] + b[k + 1..];
      assert b == b[..k] + [c] + b[k + 1..];
      assert multiset(a) == multiset(a') + multiset{c};
      assert multiset(b) == multiset(b[..k]) + multiset{c} + multiset(b[k + 1..]);
      assert multiset(b') == multiset(b[..k]) + multiset(b[k + 1..]);
      assert multiset(a') == multiset(b') by {
        assert multiset(a') + multiset{c} == multiset(b') + multiset{c};
        assert multiset(a') == multiset(a') + multiset{c} - multiset{c};
      }
      CodeSumPermutation(a', b');
      CodeSumRemove(b, k);
    }
  }

  /** Reordering the characters of an id does not change its cover, whatever the position. */
  lemma ReorderedIdSameCover(a: string, b: string, i: nat)
    requires multiset(a) == multiset(b)
    ensures PickCover(JStr(a), i) == PickCover(JStr(b), i)
  {
    assert |a| == |multiset(a)| == |multiset(b)| == |b|;
    CodeSumPermutation(a, b);
  }

  /** `"a"` sums to 97, so it gets the second gradient. */
  lemma CoverExample()
    ensures PickCover(JStr("a"), 5) == COVERS[1]
  {
    assert CodeSum("a") == CodeSum("") + CodeUnit('a');
  }

  /** A canvas as the dashboard lists it: `{ ...canvas, index, searchable }`. */
  datatype CanvasItem = CanvasItem(canvas: Canvas, index: nat, searchable: string)

  function Items(canvases: seq<Canvas>): seq<CanvasItem> {
    seq(|canvases|, i requires 0 <= i < |canvases| => CanvasItem(canvases[i], i, Lower(canvases[i].name)))
  }

  function Matches(nq: string): CanvasItem -> bool {
    (it: CanvasItem) => Contains(it.searchable, nq)
  }

  /** `a.updatedAt ?? a.createdAt ?? 0`: a stored canvas always has a numeric `updatedAt`. */
  function Edited(it: CanvasItem): real {
    it.canvas.updatedAt
  }

  /** `(a.name ?? '').localeCompare(b.name ?? '')`, reversed for `'name-za'`. */
  function NameOrder(collate: (string, string) -> real, reversed: bool): (CanvasItem, CanvasItem) -> real {
    (a: CanvasItem, b: CanvasItem) =>
      if reversed then collate(b.canvas.name, a.canvas.name) else collate(a.canvas.name, b.canvas.name)
  }

  function SortItems(items: seq<CanvasItem>, sort: string, collate: (string, string) -> real): seq<CanvasItem> {
    if sort == "name-az" then Sorting.SortBy(items, NameOrder(collate, false))
    else if sort == "name-za" then Sorting.SortBy(items, NameOrder(collate, true))
    else Sorting.SortDescending(items, Edited)
  }

  /** `filteredCanvases`: map with positions, filter on the trimmed lowercased query when it is not empty, sort. */
  function FilteredCanvases(canvases: seq<Canvas>, query: string, sort: string, collate: (string, string) -> real): seq<CanvasItem> {
    var nq := Lower(Trim(query));
    var mapped := Items(canvases);
    var filtered := if |nq| > 0 then Seqs.Filter(mapped, Matches(nq)) else mapped;
    SortItems(filtered, sort, collate)
  }

  lemma SortItemsMembers(items: seq<CanvasItem>, sort: string, collate: (string, string) -> real, x: CanvasItem)
    ensures x in SortItems(items, sort, collate) <==> x in items
  {
    Sorting.SortByMembers(items, NameOrder(collate, false), x);
    Sorting.SortByMembers(items, NameOrder(collate, true), x);
    Sorting.SortDescendingSpec(items, Edited);
    assert x in Sorting.SortDescending(items, Edited) <==> x in multiset(Sorting.SortDescending(items, Edited));
    assert x in items <==> x in multiset(items);
  }

  /**
   * The list holds, at its original position, exactly each canvas whose lowercased name
   * contains the trimmed lowercased query (each canvas for a blank query); `'recent'` and
   * every other non-name sort put the most recently edited first.
   */
  lemma FilteredCanvasesSpec(canvases: seq<Canvas>, query: string, sort: string, collate: (string, string) -> real, k: nat)
    requires k < |canvases|
    ensures var r := FilteredCanvases(canvases, query, sort, collate);
      && (CanvasItem(canvases[k], k, Lower(canvases[k].name)) in r <==>
            IsBlank(query) || Contains(Lower(canvases[k].name), Lower(Trim(query))))
      && (forall it :: it in r ==> it.index < |canvases| && canvases[it.index] == it.canvas)
      && (sort != "name-az" && sort != "name-za" ==>
            forall i, j :: 0 <= i < j < |r| ==> r[i].canvas.updatedAt >= r[j].canvas.updatedAt)
  {
    var nq := Lower(Trim(query));
    var mapped := Items(canvases);
    var filtered := if |nq| > 0 then Seqs.Filter(mapped, Matches(nq)) else mapped;
    var r := SortItems(filtered, sort, collate);
    TrimBlank(query);
    var item := CanvasItem(canvases[k], k, Lower(canvases[k].name));
    assert mapped[k] == item;
    SortItemsMembers(filtered, sort, collate, item);
    Seqs.FilterMembers(mapped, Matches(nq), item);
    forall it | it in r ensures it.index < |canvases| && canvases[it.index] == it.canvas {
      SortItemsMembers(filtered, sort, collate, it);
      Seqs.FilterMembers(mapped, Matches(nq), it);
      var i :| 0 <= i < |mapped| && mapped[i] == it;
    }
    if sort != "name-az" && sort != "name-za" {
      Sorting.SortDescendingSpec(filtered, Edited);
    }
  }

  /** `primaryCanvasId`: the first listed canvas's id, else the first canvas's id, else `null`. */
  function PrimaryCanvasId(listed: seq<CanvasItem>, canvases: seq<Canvas>): Json {
    if |listed| > 0 && listed[0].canvas.id != JNull then listed[0].canvas.id
    else if |canvases| > 0 then canvases[0].id
    else JNull
  }

  /** The id is the first listed canvas's when it has one, else the first canvas's, and is always the id of some canvas or `null`. */
  lemma PrimaryCanvasIdSpec(canvases: seq<Canvas>, query: string, sort: string, collate: (string, string) -> real)
    ensures var listed := FilteredCanvases(canvases, query, sort, collate);
      var r := PrimaryCanvasId(listed, canvases);
      && (r == JNull || exists i :: 0 <= i < |canvases| && canvases[i].id == r)
      && (|listed| > 0 && listed[0].canvas.id != JNull ==> r == listed[0].canvas.id)
      && ((|listed| == 0 || listed[0].canvas.id == JNull) && |canvases| > 0 ==> r == canvases[0].id)
      && (|canvases| > 0 && canvases[0].id != JNull ==> r != JNull)
      && (|canvases| == 0 ==> r == JNull)
  {
    var listed := FilteredCanvases(canvases, query, sort, collate);
    if |listed| > 0 {
      FilteredCanvasesSpec(canvases, query, sort, collate, 0);
      assert listed[0] in listed;
    } else if |canvases| > 0 {
      assert canvases[0].id == PrimaryCanvasId(listed, canvases);
    }
  }

  /** `edited && edited >= startOfToday`. */
  predicate EditedToday(c: Canvas, startOfToday: real) {
    c.updatedAt != 0.0 && c.updatedAt >= startOfToday
  }

  /** How many canvases were edited today. */
  function CountEditedToday(s: seq<Canvas>, startOfToday: real): (n: nat)
    ensures n <= |s|
  {
    if |s| == 0 then 0
    else CountEditedToday(s[..|s| - 1], startOfToday) + (if EditedToday(s[|s| - 1], startOfToday) then 1 else 0)
  }

  /** The count is the number of canvases that were edited today, wherever they stand. */
  lemma {:induction false} CountEditedTodaySpec(s: seq<Canvas>, startOfToday: real)
    ensures CountEditedToday(s, startOfToday) == Seqs.CountWhere(s, (c: Canvas) => EditedToday(c, startOfToday))
  {
    if |s| > 0 {
      var p := s[..|s| - 1];
      var today := (c: Canvas) => EditedToday(c, startOfToday);
      CountEditedTodaySpec(p, startOfToday);
      assert s == p + [s[|s| - 1]];
      Seqs.CountWhereAppend(p, [s[|s| - 1]], today);
      assert [s[|s| - 1]][1..] == [];
    }
  }

  /** One step of the `lastEdited` update: taken when none is held, the held one is falsy, or the new one is later. */
  function LastEditedStep(last: Option<real>, edited: real): Option<real> {
    if last.None? || last.value == 0.0 || (edited != 0.0 && edited > last.value) then Some(edited) else last
  }

  /** `lastEdited` after the loop over `s`. */
  function LastEdited(s: seq<Canvas>): Option<real> {
    if |s| == 0 then None else LastEditedStep(LastEdited(s[..|s| - 1]), s[|s| - 1].updatedAt)
  }

  /** `lastEdited` is `null` just for no canvases, and otherwise one of the edit times. */
  lemma {:induction false} LastEditedSpec(s: seq<Canvas>)
    ensures LastEdited(s).None? <==> |s| == 0
    ensures LastEdited(s).Some? ==> exists i :: 0 <= i < |s| && s[i].updatedAt == LastEdited(s).value
  {
    if |s| > 0 {
      var p := s[..|s| - 1];
      LastEditedSpec(p);
      if LastEdited(s) != Some(s[|s| - 1].updatedAt) {
        var i :| 0 <= i < |p| && p[i].updatedAt == LastEdited(p).value;
        assert s[i] == p[i];
      }
    }
  }

  /** With edit times that are never negative, `lastEdited` is the latest of them. */
  lemma {:induction false} LastEditedIsLatest(s: seq<Canvas>)
    requires forall i :: 0 <= i < |s| ==> s[i].updatedAt >= 0.0
    ensures forall i :: 0 <= i < |s| ==> s[i].updatedAt <= LastEdited(s).value
  {
    if |s| > 0 {
      var p := s[..|s| - 1];
      assert forall i :: 0 <= i < |p| ==> p[i] == s[i];
      LastEditedIsLatest(p);
      LastEditedSpec(p);
      forall i | 0 <= i < |s| ensures s[i].updatedAt <= LastEdited(s).value {
        if i < |p| {
          assert s[i] == p[i];
        }
      }
    }
  }

  /** `{ total, updatedToday, lastEdited }`. */
  datatype Stats = Stats(total: nat, updatedToday: nat, lastEdited: Option<real>)

  /** `stats`: one pass over the canvases, counting today's edits and keeping the latest edit time. */
  method ComputeStats(canvases: seq<Canvas>, startOfToday: real) returns (st: Stats)
    ensures st.total == |canvases|
    ensures st.updatedToday == CountEditedToday(canvases, startOfToday)
    ensures st.lastEdited == LastEdited(canvases)
  {
    if |canvases| == 0 {
      return Stats(0, 0, None);
    }
    var updatedToday := 0;
    var lastEdited: Option<real> := None;
    var i := 0;
    while i < |canvases|
      invariant 0 <= i <= |canvases|
      invariant updatedToday == CountEditedToday(canvases[..i], startOfToday)
      invariant lastEdited == LastEdited(canvases[..i])
    {
      var edited := canvases[i].updatedAt;
      if edited != 0.0 && edited >= startOfToday {
        updatedToday := updatedToday + 1;
      }
      if lastEdited.None? || lastEdited.value == 0.0 || (edited != 0.0 && edited > lastEdited.value) {
        lastEdited := Some(edited);
      }
      assert canvases[..i + 1][..i] == canvases[..i];
      i := i + 1;
    }
    assert canvases[..i] == canvases;
    return Stats(|canvases|, updatedToday, lastEdited);
  }

  /** `{ id, value }`: the canvas being renamed and the text typed so far. */
  datatype Editing = Editing(id: Option<Json>, value: string)

  /** The `onRename(id, name)` call a commit makes. */
  datatype Rename = Rename(id: Option<Json>, name: string)

  /** The rename a commit requests: the trimmed value, and only when it is not empty. */
  function CommitRequest(editing: Option<Editing>): Option<Rename> {
    if editing.None? then None
    else
      var next := Trim(editing.value.value);
      if |next| > 0 then Some(Rename(editing.value.id, next)) else None
  }

  /** A rename is requested exactly for a non-blank value, with that value trimmed, for the edited canvas. */
  lemma CommitRequestSpec(editing: Option<Editing>)
    ensures var r := CommitRequest(editing);
      && (r.Some? <==> editing.Some? && !IsBlank(editing.value.value))
      && (r.Some? ==> r.value.id == editing.value.id && r.value.name == Trim(editing.value.value)
                      && r.value.name != "" && Trim(r.value.name) == r.value.name)
  {
    if editing.Some? {
      TrimBlank(editing.value.value);
      TrimIdempotent(editing.value.value);
    }
  }

  /** The `editing` state of the dashboard. */
  class Renamer {
    var editing: Option<Editing>

    constructor()
      ensures editing == None
    {
      editing := None;
    }

    /** `startEditing(canvas)`: edit that canvas, starting from its name. */
    method StartEditing(c: Canvas)
      modifies this
      ensures editing == Some(Editing(Some(c.id), c.name))
    {
      editing := Some(Editing(Some(c.id), c.name));
    }

    /** The input's `onChange`: `{ ...prev, value }`. */
    method ChangeValue(value: string)
      modifies this
      ensures editing == Some(Editing(if old(editing).Some? then old(editing).value.id else None, value))
    {
      var id := if editing.Some? then editing.value.id else None;
      editing := Some(Editing(id, value));
    }

    /** `commitEditing`: request the rename a non-blank value calls for, and stop editing. */
    method CommitEditing() returns (rename: Option<Rename>)
      modifies this
      ensures rename == CommitRequest(old(editing))
      ensures editing == None
    {
      if editing.None? {
        return None;
      }
      var next := Trim(editing.value.value);
      rename := None;
      if |next| > 0 {
        rename := Some(Rename(editing.value.id, next));
      }
      editing := None;
    }

    /** `cancelEditing`: stop editing without renaming. */
    method CancelEditing()
      modifies this
      ensures editing == None
    {
      editing := None;
    }
  }
}
