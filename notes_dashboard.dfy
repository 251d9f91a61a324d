/** The notes dashboard: the searchable, sortable list of notes. */
module NotesDashboard {
  import opened Text
  import opened Records
  import Seqs
  import Sorting

  /** The text a note is searched in: `` `${title} ${content}`.toLowerCase() ``. */
  function Target(n: Note): string {
    Lower(n.title + " " + n.content)
  }

  /** The filter: every note for a blank query, else the notes whose target contains the lowercased, untrimmed query. */
  function Keeps(query: string): Note -> bool {
    (n: Note) => Trim(query) == "" || Contains(Target(n), Lower(query))
  }

  /** `(a.title ?? '').localeCompare(b.title ?? '')`. */
  function TitleOrder(collate: (string, string) -> real): (Note, Note) -> real {
    (a: Note, b: Note) => collate(a.title, b.title)
  }

  /** `items`: filter a copy of the notes, then sort by title for `'title'`, else most recently updated first. */
  function Items(notes: seq<Note>, query: string, sort: string, collate: (string, string) -> real): seq<Note> {
    var filtered := Seqs.Filter(notes, Keeps(query));
    if sort == "title" then Sorting.SortBy(filtered, TitleOrder(collate))
    else Sorting.SortDescending(filtered, NoteRecency)
  }

  /**
   * The list is a rearrangement of the notes the filter keeps: with a blank query all of
   * them; otherwise exactly those whose lowercased title and content, joined by a space,
   * contain the lowercased query as typed (it is not trimmed). Unless sorted by title, the
   * most recently updated come first.
   */
  lemma ItemsSpec(notes: seq<Note>, query: string, sort: string, collate: (string, string) -> real, n: Note)
    ensures var r := Items(notes, query, sort, collate);
      && multiset(r) == multiset(Seqs.Filter(notes, Keeps(query)))
      && (IsBlank(query) ==> multiset(r) == multiset(notes))
      && (n in r <==> n in notes && (IsBlank(query) || Contains(Target(n), Lower(query))))
      && (sort != "title" ==> forall i, j :: 0 <= i < j < |r| ==> NoteRecency(r[i]) >= NoteRecency(r[j]))
  {
    var filtered := Seqs.Filter(notes, Keeps(query));
    var r := Items(notes, query, sort, collate);
    TrimBlank(query);
    Sorting.SortByPermutes(filtered, TitleOrder(collate));
    Sorting.SortDescendingSpec(filtered, NoteRecency);
    if IsBlank(query) {
      Seqs.FilterKeepsAll(notes, Keeps(query));
    }
    Seqs.FilterMembers(notes, Keeps(query), n);
    assert n in r <==> n in multiset(r);
    assert n in filtered <==> n in multiset(filtered);
  }
}
