/** The boards dashboard: the searchable, sortable list of boards and its empty-state message. */
module Dashboard {
  import opened Wrappers
  import opened Text
  import opened Json
  import opened Records
  import Lib
  import Seqs
  import Sorting

  /** A board as the dashboard lists it: `{ ...board, dots, searchable }`. */
  datatype BoardItem = BoardItem(board: Board, dots: seq<Json>, searchable: string)

  /** `board.name?.toLowerCase() ?? ''`. */
  function Searchable(name: Json): string {
    if name.JStr? then Lower(name.s) else ""
  }

  /** The item built for one board. */
  function ToItem(b: Board): BoardItem {
    BoardItem(b, Lib.LabelColors(b), Searchable(b.name))
  }

  /** `boards.map(...)`: one item per board, in order. */
  function Items(boards: seq<Board>): seq<BoardItem> {
    seq(|boards|, i requires 0 <= i < |boards| => ToItem(boards[i]))
  }

  /** `query.trim().toLowerCase()`. */
  function NormalisedQuery(query: string): string {
    Lower(Trim(query))
  }

  /** `board => board.searchable.includes(normalisedQuery)`. */
  function Matches(nq: string): BoardItem -> bool {
    (it: BoardItem) => Contains(it.searchable, nq)
  }

  /** `b.createdAt ?? 0`: a stored board always has a numeric `createdAt`. */
  function Created(it: BoardItem): real {
    it.board.createdAt
  }

  /** The name comparator: `localeCompare` on `board.name ?? ''`, reversed for `'name-za'`. */
  function NameOrder(collate: (string, string) -> real, reversed: bool): (BoardItem, BoardItem) -> real {
    (a: BoardItem, b: BoardItem) =>
      if reversed then collate(Lib.StringOr(Some(b.board.name), ""), Lib.StringOr(Some(a.board.name), ""))
      else collate(Lib.StringOr(Some(a.board.name), ""), Lib.StringOr(Some(b.board.name), ""))
  }

  /** The sort step: by name for `'name-az'` and `'name-za'`, else newest first. */
  function SortItems(items: seq<BoardItem>, sort: string, collate: (string, string) -> real): seq<BoardItem> {
    if sort == "name-az" then Sorting.SortBy(items, NameOrder(collate, false))
    else if sort == "name-za" then Sorting.SortBy(items, NameOrder(collate, true))
    else Sorting.SortDescending(items, Created)
  }

  /** The items that pass the search: all of them when the normalised query is empty. */
  function Searched(boards: seq<Board>, query: string): seq<BoardItem> {
    var nq := NormalisedQuery(query);
    if |nq| > 0 then Seqs.Filter(Items(boards), Matches(nq)) else Items(boards)
  }

  /** `filteredBoards`: map, then filter on the normalised query when it is not empty, then sort. */
  function FilteredBoards(boards: seq<Board>, query: string, sort: string, collate: (string, string) -> real): seq<BoardItem> {
    SortItems(Searched(boards, query), sort, collate)
  }

  /** Whichever order is chosen, sorting only rearranges the items. */
  lemma SortItemsPermutes(items: seq<BoardItem>, sort: string, collate: (string, string) -> real)
    ensures multiset(SortItems(items, sort, collate)) == multiset(items)
  {
    Sorting.SortByPermutes(items, NameOrder(collate, false));
    Sorting.SortByPermutes(items, NameOrder(collate, true));
    Sorting.SortDescendingSpec(items, Created);
  }

  /** A board's item lies in the mapped list exactly when the board is one of the boards. */
  lemma ItemsMembers(boards: seq<Board>, b: Board)
    ensures ToItem(b) in Items(boards) <==> b in boards
  {
    var mapped := Items(boards);
    if b in boards {
      var i :| 0 <= i < |boards| && boards[i] == b;
      assert mapped[i] == ToItem(b);
    }
    if ToItem(b) in mapped {
      var i :| 0 <= i < |mapped| && mapped[i] == ToItem(b);
      assert boards[i] == b;
    }
  }

  /** Sorting neither adds nor drops an item. */
  lemma SortItemsMembers(items: seq<BoardItem>, sort: string, collate: (string, string) -> real, x: BoardItem)
    ensures x in SortItems(items, sort, collate) <==> x in items
  {
    Sorting.SortByMembers(items, NameOrder(collate, false), x);
    Sorting.SortByMembers(items, NameOrder(collate, true), x);
    Sorting.SortDescendingSpec(items, Created);
    assert x in Sorting.SortDescending(items, Created) <==> x in multiset(Sorting.SortDescending(items, Created));
  }

  /**
   * A board is listed exactly when it is one of the boards and its lowercased name contains
   * the trimmed, lowercased query, or the query is blank.
   */
  lemma FilteredBoardsMembers(boards: seq<Board>, query: string, sort: string, collate: (string, string) -> real, b: Board)
    ensures ToItem(b) in FilteredBoards(boards, query, sort, collate)
            <==> b in boards && (IsBlank(query) || Contains(Searchable(b.name), NormalisedQuery(query)))
  {
    TrimBlank(query);
    SortItemsMembers(Searched(boards, query), sort, collate, ToItem(b));
    ItemsMembers(boards, b);
    var nq := NormalisedQuery(query);
    if |nq| > 0 {
      Seqs.FilterMembers(Items(boards), Matches(nq), ToItem(b));
    }
  }

  /** Every listed item is built from one of the boards, with its label colours and searchable name. */
  lemma FilteredBoardsItems(boards: seq<Board>, query: string, sort: string, collate: (string, string) -> real, it: BoardItem)
    requires it in FilteredBoards(boards, query, sort, collate)
    ensures it.board in boards && it.dots == Lib.LabelColors(it.board) && it.searchable == Searchable(it.board.name)
  {
    var searched := Searched(boards, query);
    SortItemsMembers(searched, sort, collate, it);
    var nq := NormalisedQuery(query);
    if |nq| > 0 {
      Seqs.FilterMembers(Items(boards), Matches(nq), it);
    }
    var i :| 0 <= i < |boards| && Items(boards)[i] == it;
  }

  /** With a blank query the listing holds every board's item, as often as the board occurs. */
  lemma BlankQueryKeepsAll(boards: seq<Board>, query: string, sort: string, collate: (string, string) -> real)
    requires IsBlank(query)
    ensures multiset(FilteredBoards(boards, query, sort, collate)) == multiset(Items(boards))
    ensures |FilteredBoards(boards, query, sort, collate)| == |boards|
  {
    TrimBlank(query);
    SortItemsPermutes(Items(boards), sort, collate);
    assert |multiset(FilteredBoards(boards, query, sort, collate))| == |multiset(Items(boards))|;
  }

  /** For `'newest'` and every other non-name sort, the listing comes newest first. */
  lemma FilteredBoardsOrder(boards: seq<Board>, query: string, sort: string, collate: (string, string) -> real)
    requires sort != "name-az" && sort != "name-za"
    ensures var r := FilteredBoards(boards, query, sort, collate);
      forall i, j :: 0 <= i < j < |r| ==> r[i].board.createdAt >= r[j].board.createdAt
  {
    Sorting.SortDescendingSpec(Searched(boards, query), Created);
  }

  const NO_BOARDS := "No boards yet. Create one to get started."

  /** `emptyMessage`: the no-match message naming the query when there are boards, else the invitation. */
  function EmptyMessage(boards: seq<Board>, query: string): (m: string)
    ensures |boards| == 0 <==> m == NO_BOARDS
  {
    if |boards| > 0 then
      var m := "No boards matched “" + query + "”.";
      assert m[10] == 'm' && NO_BOARDS[10] == 'y';
      m
    else NO_BOARDS
  }

  /** The message depends on the boards only through whether there are any. */
  lemma EmptyMessageDependsOnCount(b1: seq<Board>, b2: seq<Board>, query: string)
    requires (|b1| > 0) == (|b2| > 0)
    ensures EmptyMessage(b1, query) == EmptyMessage(b2, query)
  {
  }
}
