/**
 * The board hierarchy engine: a board holds an ordered sequence of lists, each list an
 * ordered sequence of cards. Each operation is the state updater the board view passes
 * to `setLocal`: a function of the previous board, computed on a deep clone
 * (`deepClone` is the identity on these values), so nothing is shared with the
 * previous state.
 */
module Hierarchy {
  import opened Wrappers
  import opened Json
  import opened Records
  import opened Lib
  import Seqs

  // ---------------------------------------------------------------- splice

  /** `a.splice(i, 1)` on an index that exists: the sequence without its i-th element. */
  function RemoveAt<T>(s: seq<T>, i: nat): (r: seq<T>)
    requires i < |s|
    ensures |r| == |s| - 1
    ensures forall k :: 0 <= k < i ==> r[k] == s[k]
    ensures forall k :: i <= k < |r| ==> r[k] == s[k + 1]
  {
    s[..i] + s[i + 1..]
  }

  /** `a.splice(i, 0, x)`: `x` inserted at `i`, or appended when `i` is past the end. */
  function InsertAt<T>(s: seq<T>, i: nat, x: T): (r: seq<T>)
    ensures |r| == |s| + 1
    ensures var k := if i < |s| then i else |s|;
      r[k] == x && r[..k] == s[..k] && r[k + 1..] == s[k..]
  {
    var k := if i < |s| then i else |s|;
    s[..k] + [x] + s[k..]
  }

  lemma RemoveAtMultiset<T>(s: seq<T>, i: nat)
    requires i < |s|
    ensures multiset(RemoveAt(s, i)) + multiset{s[i]} == multiset(s)
  {
    assert s == s[..i] + [s[i]] + s[i + 1..];
  }

  lemma InsertAtMultiset<T>(s: seq<T>, i: nat, x: T)
    ensures multiset(InsertAt(s, i, x)) == multiset(s) + multiset{x}
  {
    var k := if i < |s| then i else |s|;
    assert s == s[..k] + s[k..];
  }

  /** Moving an element from `i` to `j` only reorders the sequence. */
  lemma MovePermutes<T>(s: seq<T>, i: nat, j: nat)
    requires i < |s|
    ensures multiset(InsertAt(RemoveAt(s, i), j, s[i])) == multiset(s)
  {
    RemoveAtMultiset(s, i);
    InsertAtMultiset(RemoveAt(s, i), j, s[i]);
  }

  // ---------------------------------------------------------------- lookups

  /** `lists.findIndex(l => l.id === id)`, `None` standing for -1. */
  function FindList(lists: seq<CardList>, id: Json): Option<nat> {
    Seqs.FindIndex(lists, (l: CardList) => l.id == id)
  }

  /** `cards.findIndex(x => x.id === id)`, `None` standing for -1. */
  function FindCard(cards: seq<Json>, id: Option<Json>): Option<nat> {
    Seqs.FindIndex(cards, (c: Json) => Get(c, "id") == id)
  }

  /** All the cards of the lists, list after list. */
  function AllCards(lists: seq<CardList>): seq<Json> {
    if |lists| == 0 then [] else lists[0].cards + AllCards(lists[1..])
  }

  /** Replacing one list changes the cards of the board by exactly that list's cards. */
  lemma {:induction false} AllCardsUpdate(lists: seq<CardList>, k: nat, l: CardList)
    requires k < |lists|
    ensures multiset(AllCards(lists[k := l])) + multiset(lists[k].cards) == multiset(AllCards(lists)) + multiset(l.cards)
  {
    var u := lists[k := l];
    assert AllCards(u) == u[0].cards + AllCards(u[1..]);
    assert AllCards(lists) == lists[0].cards + AllCards(lists[1..]);
    if k > 0 {
      var t := lists[1..];
      assert u[1..] == t[k - 1 := l];
      assert t[k - 1] == lists[k];
      AllCardsUpdate(t, k - 1, l);
      var a, c, d := multiset(u[0].cards), multiset(AllCards(u[1..])), multiset(AllCards(t));
      assert c + multiset(lists[k].cards) == d + multiset(l.cards);
      assert u[0] == lists[0];
      calc {
        multiset(AllCards(u)) + multiset(lists[k].cards);
        (a + c) + multiset(lists[k].cards);
        a + (c + multiset(lists[k].cards));
        a + (d + multiset(l.cards));
        (a + d) + multiset(l.cards);
        multiset(AllCards(lists)) + multiset(l.cards);
      }
    } else {
      assert u[1..] == lists[1..];
    }
  }

  // ---------------------------------------------------------------- drag and drop

  /** A position in a droppable: the list id (or the board for columns) and an index. */
  datatype Location = Location(droppableId: string, index: nat)

  /** What the drag-and-drop library reports when a drag ends. */
  datatype DropResult = DropResult(kind: string, source: Location, destination: Option<Location>)

  /** The `COLUMN` branch: take the list at `from` out and put it back at `to`; a missing list changes nothing. */
  function MoveColumn(b: Board, from: nat, to: nat): Board {
    if from >= |b.lists| then b
    else b.(lists := InsertAt(RemoveAt(b.lists, from), to, b.lists[from]))
  }

  /**
   * The card branch: find both lists by id, take the card at `source.index` out of the
   * source list and insert it at `destination.index` of the destination list (after the
   * removal when both are the same list). An unknown list, an index past the end of the
   * source list, or a falsy card leaves the board as it was.
   */
  function MoveCard(b: Board, source: Location, destination: Location): Board {
    var si := FindList(b.lists, JStr(source.droppableId));
    var di := FindList(b.lists, JStr(destination.droppableId));
    if si.None? || di.None? then b
    else
      var src := b.lists[si.value];
      if source.index >= |src.cards| then b
      else
        var card := src.cards[source.index];
        if !Truthy(Some(card)) then b
        else
          var removed := b.lists[si.value := src.(cards := RemoveAt(src.cards, source.index))];
          var dst := removed[di.value];
          b.(lists := removed[di.value := dst.(cards := InsertAt(dst.cards, destination.index, card))])
  }

  /** The board after `handleDragEnd(result)`. */
  function DragEnd(b: Board, r: DropResult): Board {
    if r.destination.None? then b
    else
      var d := r.destination.value;
      if d.droppableId == r.source.droppableId && d.index == r.source.index then b
      else if r.kind == "COLUMN" then MoveColumn(b, r.source.index, d.index)
      else MoveCard(b, r.source, d)
  }

  /** No destination, or a drop where the drag started, leaves the board unchanged. */
  lemma DragEndNoMove(b: Board, r: DropResult)
    requires r.destination.None? || r.destination.value == r.source
    ensures DragEnd(b, r) == b
  {
  }

  /**
   * A column move removes the list at `from` and inserts it at `to` of what is left
   * (the end when `to` is past it); the lists are a permutation of the old ones and the
   * rest of the board is unchanged. A move from a missing position changes nothing.
   */
  lemma MoveColumnSpec(b: Board, from: nat, to: nat)
    ensures var r := MoveColumn(b, from, to);
      && r.id == b.id && r.name == b.name && r.wallpaper == b.wallpaper && r.createdAt == b.createdAt
      && multiset(r.lists) == multiset(b.lists)
      && (from >= |b.lists| ==> r == b)
      && (from < |b.lists| ==>
            var rest := RemoveAt(b.lists, from);
            var k := if to < |rest| then to else |rest|;
            r.lists[k] == b.lists[from] && r.lists[..k] == rest[..k] && r.lists[k + 1..] == rest[k..])
  {
    if from < |b.lists| {
      MovePermutes(b.lists, from, to);
    }
  }

  /** `[X, Y, Z]` with the list at 2 dropped at 0 gives `[Z, X, Y]`. */
  lemma ColumnMoveExample(b: Board, x: CardList, y: CardList, z: CardList)
    requires b.lists == [x, y, z]
    ensures DragEnd(b, DropResult("COLUMN", Location("board", 2), Some(Location("board", 0)))).lists == [z, x, y]
  {
    assert RemoveAt(b.lists, 2) == [x, y];
  }

  /** When a card move is rejected (an unknown list, an index past the end, a falsy card), the board is returned as it was. */
  lemma MoveCardRejected(b: Board, source: Location, destination: Location)
    requires || FindList(b.lists, JStr(source.droppableId)).None?
             || FindList(b.lists, JStr(destination.droppableId)).None?
             || source.index >= |b.lists[FindList(b.lists, JStr(source.droppableId)).value].cards|
             || !Truthy(Some(b.lists[FindList(b.lists, JStr(source.droppableId)).value].cards[source.index]))
    ensures MoveCard(b, source, destination) == b
  {
  }

  /**
   * A card move keeps the board's own fields and the lists' ids and titles, and changes
   * no list other than the source and the destination: the card leaves the source at `source.index`
   * and arrives in the destination at `destination.index` (the end when that is past it).
   */
  lemma MoveCardSpec(b: Board, source: Location, destination: Location)
    requires FindList(b.lists, JStr(source.droppableId)).Some?
    requires FindList(b.lists, JStr(destination.droppableId)).Some?
    ensures var si := FindList(b.lists, JStr(source.droppableId)).value;
      var di := FindList(b.lists, JStr(destination.droppableId)).value;
      var r := MoveCard(b, source, destination);
      && r.(lists := b.lists) == b
      && |r.lists| == |b.lists|
      && (forall k :: 0 <= k < |b.lists| ==> r.lists[k].id == b.lists[k].id && r.lists[k].title == b.lists[k].title)
      && (forall k :: 0 <= k < |b.lists| && k != si && k != di ==> r.lists[k] == b.lists[k])
      && (source.index < |b.lists[si].cards| && Truthy(Some(b.lists[si].cards[source.index])) ==>
            var card := b.lists[si].cards[source.index];
            var left := RemoveAt(b.lists[si].cards, source.index);
            if si == di then r.lists[si].cards == InsertAt(left, destination.index, card)
            else r.lists[si].cards == left && r.lists[di].cards == InsertAt(b.lists[di].cards, destination.index, card))
  {
  }

  /** Every card move, done or rejected, keeps the multiset and hence the number of all the cards of the board. */
  lemma MoveCardKeepsCards(b: Board, source: Location, destination: Location)
    ensures multiset(AllCards(MoveCard(b, source, destination).lists)) == multiset(AllCards(b.lists))
    ensures |AllCards(MoveCard(b, source, destination).lists)| == |AllCards(b.lists)|
  {
    var si := FindList(b.lists, JStr(source.droppableId));
    var di := FindList(b.lists, JStr(destination.droppableId));
    if si.Some? && di.Some? {
      var src := b.lists[si.value];
      if source.index < |src.cards| && Truthy(Some(src.cards[source.index])) {
        var card := src.cards[source.index];
        var l1 := src.(cards := RemoveAt(src.cards, source.index));
        var removed := b.lists[si.value := l1];
        var dst := removed[di.value];
        var l2 := dst.(cards := InsertAt(dst.cards, destination.index, card));
        var after := removed[di.value := l2];
        assert MoveCard(b, source, destination).lists == after;
        AllCardsUpdate(b.lists, si.value, l1);
        AllCardsUpdate(removed, di.value, l2);
        RemoveAtMultiset(src.cards, source.index);
        InsertAtMultiset(dst.cards, destination.index, card);
        var one := multiset{card};
        MultisetCancel(multiset(AllCards(after)), multiset(AllCards(removed)) + one, multiset(dst.cards));
        MultisetCancel(multiset(AllCards(removed)) + one, multiset(AllCards(b.lists)), multiset(l1.cards));
        assert |multiset(AllCards(after))| == |multiset(AllCards(b.lists))|;
      }
    }
  }

  lemma MultisetCancel<T>(x: multiset<T>, y: multiset<T>, z: multiset<T>)
    requires x + z == y + z
    ensures x == y
  {
    forall e ensures x[e] == y[e] {
      assert (x + z)[e] == (y + z)[e];
    }
  }

  /** Lists A = [1,2,3] and B = [4,5]: moving A's first card to position 1 of B gives A = [2,3] and B = [4,1,5]. */
  lemma CardMoveExample(b: Board)
    requires b.lists == [CardList(JStr("A"), JStr("A"), [JNum(1.0), JNum(2.0), JNum(3.0)]),
                         CardList(JStr("B"), JStr("B"), [JNum(4.0), JNum(5.0)])]
    ensures var r := DragEnd(b, DropResult("CARD", Location("A", 0), Some(Location("B", 1))));
      r.lists == [CardList(JStr("A"), JStr("A"), [JNum(2.0), JNum(3.0)]),
                  CardList(JStr("B"), JStr("B"), [JNum(4.0), JNum(1.0), JNum(5.0)])]
  {
    assert FindList(b.lists, JStr("A")) == Some(0);
    assert b.lists[0].id != JStr("B") && b.lists[1].id == JStr("B");
    assert FindList(b.lists, JStr("B")) == Some(1);
    assert RemoveAt(b.lists[0].cards, 0) == [JNum(2.0), JNum(3.0)];
    assert InsertAt(b.lists[1].cards, 1, JNum(1.0)) == [JNum(4.0), JNum(1.0), JNum(5.0)];
  }

  // ---------------------------------------------------------------- lists and cards

  /** `addList(title)`: a new list with a generated id and no cards at the end. */
  function AddList(b: Board, id: string, title: string): Board {
    b.(lists := b.lists + [CardList(JStr(id), JStr(title), [])])
  }

  /** `deleteList(listId)`: the lists without the ones with that id. */
  function DeleteList(b: Board, listId: Json): Board {
    b.(lists := Seqs.Filter(b.lists, (l: CardList) => l.id != listId))
  }

  /** The card `addCard` creates. */
  function NewCard(id: string): Json {
    JObj(map["id" := JStr(id), "title" := JStr("New Card"), "description" := JStr(""), "due" := JStr(""), "labels" := JArr([])])
  }

  /** `addCard(listId)`: the new card pushed onto the first list with that id; no such list throws. */
  function AddCard(b: Board, listId: Json, cardId: string): Result<Board> {
    match FindList(b.lists, listId)
    case None => Err("Cannot read properties of undefined (reading 'cards')")
    case Some(k) => Ok(b.(lists := b.lists[k := b.lists[k].(cards := b.lists[k].cards + [NewCard(cardId)])]))
  }

  /**
   * `updateCard(listId, card)`: in the first list with that id, the first card with the
   * same id is replaced by `card`; when there is none, the cards stay as they are (the
   * source writes to index -1, which is not an element). No such list throws.
   */
  function UpdateCard(b: Board, listId: Json, card: Json): Result<Board> {
    match FindList(b.lists, listId)
    case None => Err("Cannot read properties of undefined (reading 'cards')")
    case Some(k) =>
      var cards := b.lists[k].cards;
      match FindCard(cards, Get(card, "id"))
      case None => Ok(b)
      case Some(i) => Ok(b.(lists := b.lists[k := b.lists[k].(cards := cards[i := card])]))
  }

  /** `deleteCard(listId, cardId)`: the cards of the first list with that id without those with `cardId`; no such list is a no-op. */
  function DeleteCard(b: Board, listId: Json, cardId: Option<Json>): Board {
    match FindList(b.lists, listId)
    case None => b
    case Some(k) =>
      b.(lists := b.lists[k := b.lists[k].(cards := Seqs.Filter(b.lists[k].cards, (c: Json) => Get(c, "id") != cardId))])
  }

  /** `addList` appends exactly one list, empty and with the given title, after the old ones, and changes nothing else. */
  lemma AddListSpec(b: Board, id: string, title: string)
    ensures var r := AddList(b, id, title);
      && r.(lists := b.lists) == b
      && |r.lists| == |b.lists| + 1 && r.lists[..|b.lists|] == b.lists
      && r.lists[|b.lists|] == CardList(JStr(id), JStr(title), [])
      && AllCards(r.lists) == AllCards(b.lists)
  {
    AllCardsAppendEmpty(b.lists, CardList(JStr(id), JStr(title), []));
  }

  lemma {:induction false} AllCardsAppendEmpty(lists: seq<CardList>, l: CardList)
    requires l.cards == []
    ensures AllCards(lists + [l]) == AllCards(lists)
  {
    if |lists| > 0 {
      assert (lists + [l])[1..] == lists[1..] + [l];
      AllCardsAppendEmpty(lists[1..], l);
    } else {
      assert AllCards([l]) == l.cards + AllCards([]);
    }
  }

  /** `deleteList` removes exactly the lists with that id, keeps the others in order, and changes nothing else. */
  lemma DeleteListSpec(b: Board, listId: Json)
    ensures var r := DeleteList(b, listId);
      && r.(lists := b.lists) == b
      && (forall k :: 0 <= k < |r.lists| ==> r.lists[k].id != listId)
      && (forall k :: 0 <= k < |b.lists| && b.lists[k].id != listId ==> b.lists[k] in r.lists)
      && Seqs.IsSubseq(r.lists, b.lists)
      && |r.lists| == |b.lists| - Seqs.CountWhere(b.lists, (l: CardList) => l.id == listId)
  {
    var keep := (l: CardList) => l.id != listId;
    Seqs.FilterIsSubseq(b.lists, keep);
    Seqs.FilterDropsCount(b.lists, keep, (l: CardList) => l.id == listId);
  }

  /**
   * `addCard` appends a card titled `'New Card'` with an empty description and due date
   * and no labels to the named list and changes nothing else; a missing list throws.
   */
  lemma AddCardSpec(b: Board, listId: Json, cardId: string)
    ensures var r := AddCard(b, listId, cardId);
      && (r.Err? <==> forall k :: 0 <= k < |b.lists| ==> b.lists[k].id != listId)
      && (r.Ok? ==>
            var k := FindList(b.lists, listId).value;
            && r.value.(lists := b.lists) == b
            && |r.value.lists| == |b.lists|
            && r.value.lists[k].cards == b.lists[k].cards + [NewCard(cardId)]
            && r.value.lists[k].(cards := b.lists[k].cards) == b.lists[k]
            && r.value.lists[k].id == listId
            && (forall m :: 0 <= m < |b.lists| && m != k ==> r.value.lists[m] == b.lists[m]))
  {
  }

  /** The new card carries the given id, the title "New Card", empty description and due date, and no labels. */
  lemma NewCardSpec(cardId: string)
    ensures var c := NewCard(cardId);
      && Get(c, "id") == Some(JStr(cardId))
      && Get(c, "title") == Some(JStr("New Card"))
      && Get(c, "description") == Some(JStr(""))
      && Get(c, "due") == Some(JStr(""))
      && Get(c, "labels") == Some(JArr([]))
  {
  }

  /**
   * `updateCard` replaces the first card with the same id in the named list and nothing
   * else; with no such card the board is unchanged; a missing list throws.
   */
  lemma UpdateCardSpec(b: Board, listId: Json, card: Json)
    ensures var r := UpdateCard(b, listId, card);
      && (r.Err? <==> FindList(b.lists, listId).None?)
      && (r.Ok? ==>
            var k := FindList(b.lists, listId).value;
            && r.value.(lists := b.lists) == b
            && |r.value.lists| == |b.lists|
            && (forall m :: 0 <= m < |b.lists| && m != k ==> r.value.lists[m] == b.lists[m])
            && r.value.lists[k].(cards := b.lists[k].cards) == b.lists[k]
            && |r.value.lists[k].cards| == |b.lists[k].cards|
            && (FindCard(b.lists[k].cards, Get(card, "id")).None? ==> r.value == b)
            && (FindCard(b.lists[k].cards, Get(card, "id")).Some? ==>
                  var i := FindCard(b.lists[k].cards, Get(card, "id")).value;
                  r.value.lists[k].cards[i] == card
                  && forall j :: 0 <= j < |b.lists[k].cards| && j != i ==> r.value.lists[k].cards[j] == b.lists[k].cards[j]))
  {
  }

  /** `deleteCard` filters that id out of the named list only, changes nothing else, and is a no-op when the list is missing. */
  lemma DeleteCardSpec(b: Board, listId: Json, cardId: Option<Json>)
    ensures var r := DeleteCard(b, listId, cardId);
      && (FindList(b.lists, listId).None? ==> r == b)
      && r.(lists := b.lists) == b
      && |r.lists| == |b.lists|
      && (FindList(b.lists, listId).Some? ==>
            var k := FindList(b.lists, listId).value;
            && (forall m :: 0 <= m < |b.lists| && m != k ==> r.lists[m] == b.lists[m])
            && r.lists[k].(cards := b.lists[k].cards) == b.lists[k]
            && |r.lists[k].cards| == |b.lists[k].cards| - Seqs.CountWhere(b.lists[k].cards, (c: Json) => Get(c, "id") == cardId)
            && (forall j :: 0 <= j < |r.lists[k].cards| ==> Get(r.lists[k].cards[j], "id") != cardId)
            && (forall j :: 0 <= j < |b.lists[k].cards| && Get(b.lists[k].cards[j], "id") != cardId ==> b.lists[k].cards[j] in r.lists[k].cards)
            && Seqs.IsSubseq(r.lists[k].cards, b.lists[k].cards))
  {
    match FindList(b.lists, listId)
    case None =>
    case Some(k) =>
      Seqs.FilterIsSubseq(b.lists[k].cards, (c: Json) => Get(c, "id") != cardId);
      Seqs.FilterDropsCount(b.lists[k].cards, (c: Json) => Get(c, "id") != cardId, (c: Json) => Get(c, "id") == cardId);
  }

  // ---------------------------------------------------------------- import

  /** What `importJSON` rejects: a falsy value, one without a truthy `id`, or one whose `lists` is not an array. */
  predicate IsImportable(parsed: Json) {
    Truthy(Some(parsed)) && Truthy(Get(parsed, "id")) && Get(parsed, "lists").Some? && Get(parsed, "lists").value.JArr?
  }

  /**
   * `importJSON`: the previous board spread into an object, with `name` and `wallpaper`
   * taken from the file when they are truthy and `lists` from the file; anything else
   * fails with `'Invalid board file'`. The file's own `id` is not used.
   */
  function ImportBoard(prev: Board, parsed: Json): (r: Result<Json>)
    ensures r.Ok? ==> r.value.JObj?
  {
    if !IsImportable(parsed) then Err("Invalid board file")
    else
      var name := if Truthy(Get(parsed, "name")) then Get(parsed, "name").value else prev.name;
      var wallpaper := if Truthy(Get(parsed, "wallpaper")) then Get(parsed, "wallpaper").value else prev.wallpaper;
      Ok(JObj(BoardToJson(prev).fields["name" := name]["wallpaper" := wallpaper]["lists" := Get(parsed, "lists").value]))
  }

  /**
   * The import fails exactly on an invalid file; a valid one keeps the board's id and
   * creation time, takes the file's lists, and takes its name and wallpaper only when
   * they are truthy.
   */
  lemma ImportBoardSpec(prev: Board, parsed: Json)
    ensures var r := ImportBoard(prev, parsed);
      && (r.Err? <==> !IsImportable(parsed))
      && (r.Err? ==> r.error == "Invalid board file")
      && (r.Ok? ==>
            && Get(r.value, "id") == Some(prev.id)
            && Get(r.value, "createdAt") == Some(JNum(prev.createdAt))
            && Get(r.value, "lists") == Get(parsed, "lists")
            && Get(r.value, "name") == Some(if Truthy(Get(parsed, "name")) then Get(parsed, "name").value else prev.name)
            && Get(r.value, "wallpaper") == Some(if Truthy(Get(parsed, "wallpaper")) then Get(parsed, "wallpaper").value else prev.wallpaper)
            && r.value.fields.Keys == {"id", "name", "wallpaper", "createdAt", "lists"})
  {
  }

  /**
   * Exporting a board (`JSON.stringify(local)`, whose parse is `BoardToJson`) and importing
   * the file into the same board gives the board's JSON back. A board whose id is falsy
   * exports a file that the import rejects.
   */
  lemma ExportImport(b: Board)
    ensures ImportBoard(b, BoardToJson(b)) ==
      (if Truthy(Some(b.id)) then Ok(BoardToJson(b)) else Err("Invalid board file"))
  {
    var j := BoardToJson(b);
    if Truthy(Some(b.id)) {
      assert j.fields["name" := b.name]["wallpaper" := b.wallpaper]["lists" := j.fields["lists"]] == j.fields;
    }
  }
}
