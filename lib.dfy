/**
 * The persistence helpers: the sanitisers that turn a JSON value read back from storage
 * into a record with every field filled in, the encoders that give the JSON a record is
 * written as, the constructors of new records, and the label palette of a board.
 * Generated ids (`uid`, `Math.random`) and the clock (`Date.now()`) are parameters.
 */
module Lib {
  import opened Wrappers
  import opened Text
  import opened Json
  import opened Records
  import Seqs

  /** The label colours a card can carry. */
  const LABELS: seq<string> := ["#ff6b6b", "#ffa94d", "#ffd43b", "#69db7c", "#38d9a9", "#4dabf7", "#9775fa", "#f783ac"]

  /** The board backgrounds; the first one is the default. */
  const WALLPAPERS: seq<string> := [
    "linear-gradient(135deg,#1d2b64,#f8cdda)",
    "linear-gradient(135deg,#141e30,#243b55)",
    "linear-gradient(135deg,#0f2027,#203a43,#2c5364)",
    "linear-gradient(135deg,#3a1c71,#d76d77,#ffaf7b)",
    "linear-gradient(135deg,#2b5876,#4e4376)",
    "linear-gradient(135deg,#bdc3c7,#2c3e50)",
    "linear-gradient(135deg,#16222A,#3A6073)",
    "linear-gradient(135deg,#20002c,#cbb4d4)"
  ]

  /** `typeof v === 'number' ? v : now`. */
  function NumberOr(v: Option<Json>, now: real): real {
    if v.Some? && v.value.JNum? then v.value.n else now
  }

  /** `typeof v === 'string' ? v : d`. */
  function StringOr(v: Option<Json>, d: string): string {
    if v.Some? && v.value.JStr? then v.value.s else d
  }

  /** A string that is not all white space. */
  predicate IsNonBlankString(v: Option<Json>) {
    v.Some? && v.value.JStr? && !IsBlank(v.value.s)
  }

  /** `typeof v === 'string' && v.trim().length ? v.trim() : d`. */
  function TitleOr(v: Option<Json>, d: string): string {
    if v.Some? && v.value.JStr? && Trim(v.value.s) != "" then Trim(v.value.s) else d
  }

  /** A title as the sanitisers leave it: non-empty, with no surrounding white space. */
  predicate IsCleanTitle(s: string) {
    s != "" && Trim(s) == s
  }

  /** `TitleOr` gives the trimmed string, which is clean, when there is one that is not blank, and the default otherwise. */
  lemma TitleOrSpec(v: Option<Json>, d: string)
    ensures IsNonBlankString(v) ==> IsCleanTitle(TitleOr(v, d)) && TitleOr(v, d) == Trim(v.value.s)
    ensures !IsNonBlankString(v) ==> TitleOr(v, d) == d
  {
    if v.Some? && v.value.JStr? {
      TrimBlank(v.value.s);
      TrimIdempotent(v.value.s);
    }
  }

  /** The default note title is clean. */
  lemma UntitledNoteClean()
    ensures IsCleanTitle("Untitled note")
  {
    TrimUnchanged("Untitled note");
  }

  /** The default canvas title is clean. */
  lemma UntitledCanvasClean()
    ensures IsCleanTitle("Untitled canvas")
  {
    TrimUnchanged("Untitled canvas");
  }

  /** A clean title is read back as itself. */
  lemma TitleOrClean(s: string, d: string)
    requires IsCleanTitle(s)
    ensures TitleOr(Some(JStr(s)), d) == s
  {
  }

  // ---------------------------------------------------------------- boards

  /** The list part of `sanitizeBoard`: `freshId` is the id generated when the list has none. */
  function SanitizeList(l: Json, freshId: string): CardList {
    CardList(Coalesce(Get(l, "id"), JStr(freshId)), Coalesce(Get(l, "title"), JStr("List")), ArrayOr(Get(l, "cards")))
  }

  /**
   * `sanitizeBoard`: `freshId` is the id generated when the board has none, `listIds(i)`
   * the one generated for the i-th list, `now` the clock.
   */
  function SanitizeBoard(b: Json, freshId: string, listIds: nat -> string, now: real): Board {
    var lists := ArrayOr(Get(b, "lists"));
    Board(
      Coalesce(Get(b, "id"), JStr(freshId)),
      Coalesce(Get(b, "name"), JStr("Untitled")),
      Coalesce(Get(b, "wallpaper"), JStr(WALLPAPERS[0])),
      NumberOr(Get(b, "createdAt"), now),
      seq(|lists|, i requires 0 <= i < |lists| => SanitizeList(lists[i], listIds(i))))
  }

  /** The JSON object a list is written as. */
  function ListToJson(l: CardList): Json {
    JObj(map["id" := l.id, "title" := l.title, "cards" := JArr(l.cards)])
  }

  /** The JSON object a board is written as. */
  function BoardToJson(b: Board): Json {
    JObj(map[
      "id" := b.id,
      "name" := b.name,
      "wallpaper" := b.wallpaper,
      "createdAt" := JNum(b.createdAt),
      "lists" := JArr(seq(|b.lists|, i requires 0 <= i < |b.lists| => ListToJson(b.lists[i])))])
  }

  /** A list whose id and title are present (not null). */
  predicate IsStoredList(l: CardList) {
    l.id != JNull && l.title != JNull
  }

  /** A board whose id, name, wallpaper and lists are all present: the shape the sanitiser produces. */
  predicate IsStoredBoard(b: Board) {
    && b.id != JNull && b.name != JNull && b.wallpaper != JNull
    && forall i :: 0 <= i < |b.lists| ==> IsStoredList(b.lists[i])
  }

  /**
   * What `sanitizeBoard` promises: a present (non-null) id, name, wallpaper and list title is
   * kept and a missing one gets its default (`'Untitled'`, the first wallpaper, `'List'`);
   * a numeric `createdAt` is kept and any other becomes `now`; one output list per input
   * list, each holding the input's cards unchanged; the result has every field present.
   */
  lemma SanitizeBoardSpec(b: Json, freshId: string, listIds: nat -> string, now: real)
    ensures var r := SanitizeBoard(b, freshId, listIds, now);
      && IsStoredBoard(r)
      && r.name == (if IsNullish(Get(b, "name")) then JStr("Untitled") else Get(b, "name").value)
      && r.wallpaper == (if IsNullish(Get(b, "wallpaper")) then JStr(WALLPAPERS[0]) else Get(b, "wallpaper").value)
      && (!IsNullish(Get(b, "id")) ==> Some(r.id) == Get(b, "id"))
      && r.createdAt == (if Get(b, "createdAt").Some? && Get(b, "createdAt").value.JNum? then Get(b, "createdAt").value.n else now)
      && |r.lists| == |ArrayOr(Get(b, "lists"))|
      && forall i :: 0 <= i < |r.lists| ==>
           var l := ArrayOr(Get(b, "lists"))[i];
           && r.lists[i].cards == ArrayOr(Get(l, "cards"))
           && r.lists[i].title == (if IsNullish(Get(l, "title")) then JStr("List") else Get(l, "title").value)
           && (!IsNullish(Get(l, "id")) ==> Some(r.lists[i].id) == Get(l, "id"))
  {
    var lists := ArrayOr(Get(b, "lists"));
    var r := SanitizeBoard(b, freshId, listIds, now);
    forall i | 0 <= i < |r.lists|
      ensures IsStoredList(r.lists[i])
      ensures r.lists[i] == SanitizeList(lists[i], listIds(i))
    {
      assert r.lists[i] == SanitizeList(lists[i], listIds(i));
    }
  }

  /** Reading back a list written by `ListToJson` gives the same list. */
  lemma ListRoundTrip(l: CardList, freshId: string)
    requires IsStoredList(l)
    ensures SanitizeList(ListToJson(l), freshId) == l
  {
    var j := ListToJson(l);
    assert Get(j, "id") == Some(l.id);
    assert Get(j, "title") == Some(l.title);
    assert Get(j, "cards") == Some(JArr(l.cards));
  }

  /**
   * Saving and loading a board keeps it: the sanitiser leaves every field of a stored
   * board as it is, whatever ids and clock it is given.
   */
  lemma {:induction false} BoardRoundTrip(b: Board, freshId: string, listIds: nat -> string, now: real)
    requires IsStoredBoard(b)
    ensures SanitizeBoard(BoardToJson(b), freshId, listIds, now) == b
  {
    var j := BoardToJson(b);
    var stored := seq(|b.lists|, i requires 0 <= i < |b.lists| => ListToJson(b.lists[i]));
    assert Get(j, "id") == Some(b.id);
    assert Get(j, "name") == Some(b.name);
    assert Get(j, "wallpaper") == Some(b.wallpaper);
    assert Get(j, "createdAt") == Some(JNum(b.createdAt));
    assert Get(j, "lists") == Some(JArr(stored));
    var out := seq(|stored|, i requires 0 <= i < |stored| => SanitizeList(stored[i], listIds(i)));
    forall i | 0 <= i < |b.lists| ensures out[i] == b.lists[i] {
      ListRoundTrip(b.lists[i], listIds(i));
    }
    assert out == b.lists;
  }

  /** `sanitizeBoard` is idempotent: sanitising the JSON of a sanitised board changes nothing. */
  lemma SanitizeBoardIdempotent(b: Json, freshId: string, listIds: nat -> string, now: real,
                                freshId': string, listIds': nat -> string, now': real)
    ensures var once := SanitizeBoard(b, freshId, listIds, now);
            SanitizeBoard(BoardToJson(once), freshId', listIds', now') == once
  {
    SanitizeBoardSpec(b, freshId, listIds, now);
    BoardRoundTrip(SanitizeBoard(b, freshId, listIds, now), freshId', listIds', now');
  }

  /** `defaultBoard(name)`: a fresh board. */
  function DefaultBoard(id: string, name: string, now: real): Board {
    Board(JStr(id), JStr(name), JStr(WALLPAPERS[0]), now, [])
  }

  /**
   * A new board has no lists, the first wallpaper and the given name, and it is already
   * in the stored shape, so saving and loading it keeps it unchanged.
   */
  lemma DefaultBoardSpec(id: string, name: string, now: real, freshId: string, listIds: nat -> string, now': real)
    ensures var b := DefaultBoard(id, name, now);
      && b.lists == [] && b.wallpaper == JStr(WALLPAPERS[0]) && b.name == JStr(name)
      && SanitizeBoard(BoardToJson(b), freshId, listIds, now') == b
  {
    BoardRoundTrip(DefaultBoard(id, name, now), freshId, listIds, now');
  }

  // ---------------------------------------------------------------- notes

  /** A tag the sanitiser keeps: a string that is not blank. */
  predicate IsTag(t: Json) {
    t.JStr? && Trim(t.s) != ""
  }

  /** `t => t.trim()` on a kept tag. */
  function TagText(t: Json): string {
    if t.JStr? then Trim(t.s) else ""
  }

  /** `tags.filter(t => typeof t === 'string' && t.trim().length).map(t => t.trim())`. */
  function CleanTags(tags: seq<Json>): seq<string> {
    Seqs.Map(Seqs.Filter(tags, IsTag), TagText)
  }

  /** Every tag kept is a clean one: non-empty and trimmed. */
  lemma {:induction false} CleanTagsClean(tags: seq<Json>)
    ensures var r := CleanTags(tags); forall i :: 0 <= i < |r| ==> IsCleanTitle(r[i])
  {
    var kept := Seqs.Filter(tags, IsTag);
    var r := CleanTags(tags);
    forall i | 0 <= i < |r| ensures IsCleanTitle(r[i]) {
      assert r[i] == Trim(kept[i].s);
      TrimIdempotent(kept[i].s);
      TrimBlank(kept[i].s);
    }
  }

  /** One tag is kept per non-blank string among the tags, and each of them is kept, trimmed. */
  lemma CleanTagsSpec(tags: seq<Json>)
    ensures var r := CleanTags(tags);
      && |r| == Seqs.CountWhere(tags, IsTag)
      && (forall i :: 0 <= i < |tags| && IsTag(tags[i]) ==> TagText(tags[i]) in r)
  {
    Seqs.MapFilterSpec(tags, IsTag, TagText);
  }

  /**
   * Nothing else is kept, and the order is kept: the tags are the trimmed forms of a
   * subsequence of the input made of non-blank strings only.
   */
  lemma CleanTagsOrder(tags: seq<Json>)
    ensures var r := CleanTags(tags);
      exists kept: seq<Json> :: Seqs.IsSubseq(kept, tags) && |kept| == |r| &&
        forall i :: 0 <= i < |r| ==> IsTag(kept[i]) && r[i] == TagText(kept[i])
  {
    Seqs.MapFilterOrder(tags, IsTag, TagText);
  }

  /** The JSON array a tag list is written as. */
  function TagsToJson(tags: seq<string>): seq<Json> {
    seq(|tags|, i requires 0 <= i < |tags| => JStr(tags[i]))
  }

  /** A list of clean tags is read back as itself. */
  lemma {:induction false} CleanTagsOfClean(tags: seq<string>)
    requires forall i :: 0 <= i < |tags| ==> IsCleanTitle(tags[i])
    ensures CleanTags(TagsToJson(tags)) == tags
  {
    var js := TagsToJson(tags);
    forall i | 0 <= i < |js| ensures IsTag(js[i]) {
      assert js[i] == JStr(tags[i]);
    }
    Seqs.FilterKeepsAll(js, IsTag);
    var again := CleanTags(js);
    assert |again| == |tags|;
    forall i | 0 <= i < |tags| ensures again[i] == tags[i] {
      assert js[i] == JStr(tags[i]);
    }
  }

  /** `typeof v === 'string' ? v : null`. */
  function ParentIdOr(v: Option<Json>): Option<string> {
    if v.Some? && v.value.JStr? then Some(v.value.s) else None
  }

  /** `sanitizeNote`: `freshId` is the id generated when the note has none. */
  function SanitizeNote(n: Json, freshId: string, now: real): Note {
    Note(
      Coalesce(Get(n, "id"), JStr(freshId)),
      TitleOr(Get(n, "title"), "Untitled note"),
      StringOr(Get(n, "content"), ""),
      ParentIdOr(Get(n, "parentId")),
      CleanTags(ArrayOr(Get(n, "tags"))),
      NumberOr(Get(n, "createdAt"), now),
      NumberOr(Get(n, "updatedAt"), now),
      Truthy(Get(n, "isDaily")))
  }

  /** The JSON object a note is written as (`null` for no parent). */
  function NoteToJson(n: Note): Json {
    JObj(map[
      "id" := n.id,
      "title" := JStr(n.title),
      "content" := JStr(n.content),
      "parentId" := (if n.parentId.Some? then JStr(n.parentId.value) else JNull),
      "tags" := JArr(TagsToJson(n.tags)),
      "createdAt" := JNum(n.createdAt),
      "updatedAt" := JNum(n.updatedAt),
      "isDaily" := JBool(n.isDaily)])
  }

  /** A note in the shape the sanitiser produces: an id, a clean title and clean tags. */
  predicate IsStoredNote(n: Note) {
    && n.id != JNull
    && IsCleanTitle(n.title)
    && forall i :: 0 <= i < |n.tags| ==> IsCleanTitle(n.tags[i])
  }

  /**
   * What `sanitizeNote` promises: the title is the trimmed title when it is a non-blank
   * string and `'Untitled note'` otherwise; the content is the given string or `''`;
   * `parentId` the given string or null; `isDaily` the truth value of the field; the tags
   * the cleaned tags; numeric timestamps are kept and any other becomes `now`; and the
   * result is in the stored shape.
   */
  lemma SanitizeNoteSpec(n: Json, freshId: string, now: real)
    ensures var r := SanitizeNote(n, freshId, now);
      && IsStoredNote(r)
      && (IsNonBlankString(Get(n, "title")) ==> r.title == Trim(Get(n, "title").value.s))
      && (!IsNonBlankString(Get(n, "title")) ==> r.title == "Untitled note")
      && (Get(n, "content").Some? && Get(n, "content").value.JStr? ==> r.content == Get(n, "content").value.s)
      && (!(Get(n, "content").Some? && Get(n, "content").value.JStr?) ==> r.content == "")
      && (r.parentId.None? <==> !(Get(n, "parentId").Some? && Get(n, "parentId").value.JStr?))
      && (r.parentId.Some? ==> Get(n, "parentId") == Some(JStr(r.parentId.value)))
      && r.isDaily == Truthy(Get(n, "isDaily"))
      && r.tags == CleanTags(ArrayOr(Get(n, "tags")))
      && r.createdAt == (if Get(n, "createdAt").Some? && Get(n, "createdAt").value.JNum? then Get(n, "createdAt").value.n else now)
      && r.updatedAt == (if Get(n, "updatedAt").Some? && Get(n, "updatedAt").value.JNum? then Get(n, "updatedAt").value.n else now)
  {
    UntitledNoteClean();
    TitleOrSpec(Get(n, "title"), "Untitled note");
    CleanTagsClean(ArrayOr(Get(n, "tags")));
  }

  /** What each field of a written note reads back as. */
  lemma NoteToJsonFields(n: Note)
    ensures var j := NoteToJson(n);
      && Get(j, "id") == Some(n.id)
      && Get(j, "title") == Some(JStr(n.title))
      && Get(j, "content") == Some(JStr(n.content))
      && Get(j, "parentId") == Some(if n.parentId.Some? then JStr(n.parentId.value) else JNull)
      && Get(j, "tags") == Some(JArr(TagsToJson(n.tags)))
      && Get(j, "createdAt") == Some(JNum(n.createdAt))
      && Get(j, "updatedAt") == Some(JNum(n.updatedAt))
      && Get(j, "isDaily") == Some(JBool(n.isDaily))
  {
  }

  /** Saving and loading a note keeps it. */
  lemma NoteRoundTrip(n: Note, freshId: string, now: real)
    requires IsStoredNote(n)
    ensures SanitizeNote(NoteToJson(n), freshId, now) == n
  {
    var j := NoteToJson(n);
    NoteToJsonFields(n);
    var r := SanitizeNote(j, freshId, now);
    assert r.title == n.title by { TitleOrClean(n.title, "Untitled note"); }
    assert r.tags == n.tags by { CleanTagsOfClean(n.tags); }
    assert r.parentId == n.parentId;
    assert r.id == n.id && r.content == n.content && r.isDaily == n.isDaily;
    assert r.createdAt == n.createdAt && r.updatedAt == n.updatedAt;
  }

  /** `sanitizeNote` is idempotent: sanitising the JSON of a sanitised note changes nothing. */
  lemma SanitizeNoteIdempotent(n: Json, freshId: string, now: real, freshId': string, now': real)
    ensures var once := SanitizeNote(n, freshId, now);
            SanitizeNote(NoteToJson(once), freshId', now') == once
  {
    SanitizeNoteSpec(n, freshId, now);
    NoteRoundTrip(SanitizeNote(n, freshId, now), freshId', now');
  }

  /** `defaultNote(title, content)`: the sanitised form of a new note object. */
  function DefaultNote(id: string, title: string, content: string, now: real): Note {
    SanitizeNote(JObj(map[
      "id" := JStr(id),
      "title" := JStr(title),
      "content" := JStr(content),
      "createdAt" := JNum(now),
      "updatedAt" := JNum(now),
      "parentId" := JNull,
      "tags" := JArr([])]), id, now)
  }

  /**
   * A new note carries the given id and content, the trimmed title (or `'Untitled note'`
   * for a blank one), no parent, no tags, both timestamps `now`, and is not a daily note.
   */
  lemma DefaultNoteSpec(id: string, title: string, content: string, now: real)
    ensures var n := DefaultNote(id, title, content, now);
      && n.id == JStr(id)
      && n.title == (if IsBlank(title) then "Untitled note" else Trim(title))
      && n.content == content
      && n.parentId == None && n.tags == []
      && n.createdAt == now && n.updatedAt == now
      && !n.isDaily
      && IsStoredNote(n)
  {
    var j := JObj(map[
      "id" := JStr(id),
      "title" := JStr(title),
      "content" := JStr(content),
      "createdAt" := JNum(now),
      "updatedAt" := JNum(now),
      "parentId" := JNull,
      "tags" := JArr([])]);
    assert Get(j, "id") == Some(JStr(id));
    assert Get(j, "title") == Some(JStr(title));
    assert Get(j, "content") == Some(JStr(content));
    assert Get(j, "createdAt") == Some(JNum(now));
    assert Get(j, "updatedAt") == Some(JNum(now));
    assert Get(j, "parentId") == Some(JNull);
    assert Get(j, "tags") == Some(JArr([]));
    assert Get(j, "isDaily") == None;
    SanitizeNoteSpec(j, id, now);
  }

  // ---------------------------------------------------------------- canvases

  /** `Array.isArray(v) ? v.map(el => copy of el) : []`: each object element is copied. */
  function SceneElements(v: Option<Json>): seq<Json> {
    var xs := ArrayOr(v);
    seq(|xs|, i requires 0 <= i < |xs| => ShallowCopy(xs[i]))
  }

  /** A copy of `appState` when it is an object (or array), with `collaborators` deleted; `{}` otherwise. */
  function SceneAppState(v: Option<Json>): map<string, Json> {
    if v.Some? && IsObjectLike(v.value) then Spread(v.value) - {"collaborators"} else map[]
  }

  /** `Object.fromEntries(Object.entries(files).map(copy))` when `files` is an object (or array); `{}` otherwise. */
  function SceneFiles(v: Option<Json>): map<string, Json> {
    if v.Some? && IsObjectLike(v.value) then
      var m := Spread(v.value);
      map k | k in m :: ShallowCopy(m[k])
    else map[]
  }

  /** `sanitizeCanvasScene(scene)`, `scene` being `undefined` when it is `None`. */
  function SanitizeCanvasScene(scene: Option<Json>): Scene {
    Scene(
      SceneElements(GetOpt(scene, "elements")),
      SceneAppState(GetOpt(scene, "appState")),
      SceneFiles(GetOpt(scene, "files")))
  }

  /** The JSON object a scene is written as. */
  function SceneToJson(s: Scene): Json {
    JObj(map["elements" := JArr(s.elements), "appState" := JObj(s.appState), "files" := JObj(s.files)])
  }

  /**
   * A scene in the shape the sanitiser produces: no element and no file is an array
   * (copies of arrays are plain objects), and the app state has no `collaborators`.
   */
  predicate IsCleanScene(s: Scene) {
    && (forall i :: 0 <= i < |s.elements| ==> !s.elements[i].JArr?)
    && "collaborators" !in s.appState
    && forall k :: k in s.files ==> !s.files[k].JArr?
  }

  /**
   * What `sanitizeCanvasScene` promises: `elements` is `[]` unless the input is an array,
   * and otherwise has one entry per input element, a non-object element unchanged and an
   * object element replaced by a copy with the same properties; `appState` is `{}` unless
   * the input is an object, and otherwise holds every property of it except
   * `collaborators`; `files` has the keys of the input's files; and the result is clean.
   */
  lemma SanitizeCanvasSceneSpec(scene: Option<Json>)
    ensures var r := SanitizeCanvasScene(scene);
      var xs := ArrayOr(GetOpt(scene, "elements"));
      var a := GetOpt(scene, "appState");
      var f := GetOpt(scene, "files");
      && IsCleanScene(r)
      && |r.elements| == |xs|
      && (forall i :: 0 <= i < |xs| && !IsObjectLike(xs[i]) ==> r.elements[i] == xs[i])
      && (forall i :: 0 <= i < |xs| && IsObjectLike(xs[i]) ==> r.elements[i] == JObj(Spread(xs[i])))
      && "collaborators" !in r.appState
      && (!(a.Some? && IsObjectLike(a.value)) ==> r.appState == map[])
      && (a.Some? && IsObjectLike(a.value) ==>
            forall k :: k in Spread(a.value) && k != "collaborators" ==> k in r.appState && r.appState[k] == Spread(a.value)[k])
      && (a.Some? && IsObjectLike(a.value) ==> r.appState.Keys <= Spread(a.value).Keys)
      && (!(f.Some? && IsObjectLike(f.value)) ==> r.files == map[])
      && (f.Some? && IsObjectLike(f.value) ==> r.files.Keys == Spread(f.value).Keys)
  {
  }

  /** Reading back a clean scene written by `SceneToJson` gives the same scene. */
  lemma SceneRoundTrip(s: Scene)
    requires IsCleanScene(s)
    ensures SanitizeCanvasScene(Some(SceneToJson(s))) == s
  {
    var j := SceneToJson(s);
    assert GetOpt(Some(j), "elements") == Some(JArr(s.elements));
    assert GetOpt(Some(j), "appState") == Some(JObj(s.appState));
    assert GetOpt(Some(j), "files") == Some(JObj(s.files));
    var r := SanitizeCanvasScene(Some(j));
    assert r.elements == s.elements by {
      forall i | 0 <= i < |s.elements| ensures r.elements[i] == s.elements[i] {
        assert r.elements[i] == ShallowCopy(s.elements[i]);
      }
    }
    assert r.appState == s.appState;
    assert r.files == s.files by {
      forall k | k in s.files ensures k in r.files && r.files[k] == s.files[k] {
        assert r.files[k] == ShallowCopy(s.files[k]);
      }
    }
  }

  /** `sanitizeCanvasScene` is idempotent on the JSON of its own output. */
  lemma SanitizeCanvasSceneIdempotent(scene: Option<Json>)
    ensures var once := SanitizeCanvasScene(scene);
            SanitizeCanvasScene(Some(SceneToJson(once))) == once
  {
    SanitizeCanvasSceneSpec(scene);
    SceneRoundTrip(SanitizeCanvasScene(scene));
  }

  /** `sanitizeCanvas`: `freshId` is the id generated when the canvas has none. */
  function SanitizeCanvas(c: Json, freshId: string, now: real): Canvas {
    Canvas(
      Coalesce(Get(c, "id"), JStr(freshId)),
      TitleOr(Get(c, "name"), "Untitled canvas"),
      SanitizeCanvasScene(Get(c, "scene")),
      NumberOr(Get(c, "createdAt"), now),
      NumberOr(Get(c, "updatedAt"), now))
  }

  /** The JSON object a canvas is written as. */
  function CanvasToJson(c: Canvas): Json {
    JObj(map[
      "id" := c.id,
      "name" := JStr(c.name),
      "scene" := SceneToJson(c.scene),
      "createdAt" := JNum(c.createdAt),
      "updatedAt" := JNum(c.updatedAt)])
  }

  /** A canvas in the shape the sanitiser produces: an id, a clean name and a clean scene. */
  predicate IsStoredCanvas(c: Canvas) {
    c.id != JNull && IsCleanTitle(c.name) && IsCleanScene(c.scene)
  }

  /**
   * What `sanitizeCanvas` promises: the name is the trimmed name when it is a non-blank
   * string and `'Untitled canvas'` otherwise; the scene is always the sanitised scene;
   * a present id and numeric timestamps are kept, and a missing or non-numeric timestamp
   * becomes `now`; the result is in the stored shape.
   */
  lemma SanitizeCanvasSpec(c: Json, freshId: string, now: real)
    ensures var r := SanitizeCanvas(c, freshId, now);
      && IsStoredCanvas(r)
      && (IsNonBlankString(Get(c, "name")) ==> r.name == Trim(Get(c, "name").value.s))
      && (!IsNonBlankString(Get(c, "name")) ==> r.name == "Untitled canvas")
      && r.scene == SanitizeCanvasScene(Get(c, "scene"))
      && (!IsNullish(Get(c, "id")) ==> Some(r.id) == Get(c, "id"))
      && r.createdAt == (if Get(c, "createdAt").Some? && Get(c, "createdAt").value.JNum? then Get(c, "createdAt").value.n else now)
      && r.updatedAt == (if Get(c, "updatedAt").Some? && Get(c, "updatedAt").value.JNum? then Get(c, "updatedAt").value.n else now)
  {
    UntitledCanvasClean();
    TitleOrSpec(Get(c, "name"), "Untitled canvas");
    SanitizeCanvasSceneSpec(Get(c, "scene"));
  }

  /** What each field of a written canvas reads back as. */
  lemma CanvasToJsonFields(c: Canvas)
    ensures var j := CanvasToJson(c);
      && Get(j, "id") == Some(c.id)
      && Get(j, "name") == Some(JStr(c.name))
      && Get(j, "scene") == Some(SceneToJson(c.scene))
      && Get(j, "createdAt") == Some(JNum(c.createdAt))
      && Get(j, "updatedAt") == Some(JNum(c.updatedAt))
  {
  }

  /** Saving and loading a canvas keeps it. */
  lemma CanvasRoundTrip(c: Canvas, freshId: string, now: real)
    requires IsStoredCanvas(c)
    ensures SanitizeCanvas(CanvasToJson(c), freshId, now) == c
  {
    CanvasToJsonFields(c);
    var r := SanitizeCanvas(CanvasToJson(c), freshId, now);
    assert r.name == c.name by { TitleOrClean(c.name, "Untitled canvas"); }
    assert r.scene == c.scene by { SceneRoundTrip(c.scene); }
  }

  /** `sanitizeCanvas` is idempotent: sanitising the JSON of a sanitised canvas changes nothing. */
  lemma SanitizeCanvasIdempotent(c: Json, freshId: string, now: real, freshId': string, now': real)
    ensures var once := SanitizeCanvas(c, freshId, now);
            SanitizeCanvas(CanvasToJson(once), freshId', now') == once
  {
    SanitizeCanvasSpec(c, freshId, now);
    CanvasRoundTrip(SanitizeCanvas(c, freshId, now), freshId', now');
  }

  /** The empty scene a new canvas starts from. */
  const EMPTY_SCENE: Json := JObj(map["elements" := JArr([]), "appState" := JObj(map[]), "files" := JObj(map[])])

  /** `defaultCanvas(name)`: the sanitised form of a new canvas object. */
  function DefaultCanvas(id: string, name: string, now: real): Canvas {
    SanitizeCanvas(JObj(map[
      "id" := JStr(id),
      "name" := JStr(name),
      "scene" := SceneToJson(SanitizeCanvasScene(Some(EMPTY_SCENE))),
      "createdAt" := JNum(now),
      "updatedAt" := JNum(now)]), id, now)
  }

  /**
   * A new canvas carries the given id, the trimmed name (or `'Untitled canvas'` for a
   * blank one), an empty scene and both timestamps `now`.
   */
  lemma DefaultCanvasSpec(id: string, name: string, now: real)
    ensures var c := DefaultCanvas(id, name, now);
      && c.id == JStr(id)
      && c.name == (if IsBlank(name) then "Untitled canvas" else Trim(name))
      && c.scene == Scene([], map[], map[])
      && c.createdAt == now && c.updatedAt == now
      && IsStoredCanvas(c)
  {
    var empty := SanitizeCanvasScene(Some(EMPTY_SCENE));
    assert GetOpt(Some(EMPTY_SCENE), "elements") == Some(JArr([]));
    assert GetOpt(Some(EMPTY_SCENE), "appState") == Some(JObj(map[]));
    assert GetOpt(Some(EMPTY_SCENE), "files") == Some(JObj(map[]));
    assert empty == Scene([], map[], map[]);
    var j := JObj(map[
      "id" := JStr(id),
      "name" := JStr(name),
      "scene" := SceneToJson(empty),
      "createdAt" := JNum(now),
      "updatedAt" := JNum(now)]);
    assert Get(j, "id") == Some(JStr(id));
    assert Get(j, "name") == Some(JStr(name));
    assert Get(j, "scene") == Some(SceneToJson(empty));
    assert Get(j, "createdAt") == Some(JNum(now));
    assert Get(j, "updatedAt") == Some(JNum(now));
    SceneRoundTrip(empty);
    SanitizeCanvasSpec(j, id, now);
  }

  // ---------------------------------------------------------------- label palette

  /** The labels of the cards, card after card (`Array.isArray(c?.labels) ? c.labels : []`). */
  function CardLabels(cards: seq<Json>): seq<Json> {
    if |cards| == 0 then []
    else CardLabels(cards[..|cards| - 1]) + ArrayOr(Get(cards[|cards| - 1], "labels"))
  }

  /** The labels of every card of the lists, list after list. */
  function ListLabels(lists: seq<CardList>): seq<Json> {
    if |lists| == 0 then []
    else ListLabels(lists[..|lists| - 1]) + CardLabels(lists[|lists| - 1].cards)
  }

  /** The colours `boardLabelColors` returns: each label of the board once, in first-occurrence order. */
  function LabelColors(b: Board): seq<Json> {
    Seqs.Dedup(ListLabels(b.lists))
  }

  /**
   * What `boardLabelColors` promises: every label of any card of any list appears exactly
   * once, nothing else does, and the colours come in the order of their first use.
   */
  lemma LabelColorsSpec(b: Board)
    ensures var r := LabelColors(b);
      && (forall x :: x in r <==> x in ListLabels(b.lists))
      && Seqs.NoDuplicates(r)
      && Seqs.InFirstOccurrenceOrder(r, ListLabels(b.lists))
  {
    forall x ensures x in LabelColors(b) <==> x in ListLabels(b.lists) {
      Seqs.DedupMembers(ListLabels(b.lists), x);
    }
    Seqs.DedupNoDuplicates(ListLabels(b.lists));
    Seqs.DedupFirstOccurrenceOrder(ListLabels(b.lists));
  }

  /** The innermost `forEach` of `boardLabelColors`: adds the labels of one card to the set. */
  method AddLabels(colors: seq<Json>, seen: set<Json>, ghost prior: seq<Json>, labels: seq<Json>)
    returns (colors': seq<Json>, seen': set<Json>)
    requires colors == Seqs.Dedup(prior)
    requires forall x :: x in seen <==> x in prior
    ensures colors' == Seqs.Dedup(prior + labels)
    ensures forall x :: x in seen' <==> x in prior + labels
  {
    colors', seen' := colors, seen;
    var k := 0;
    assert prior + labels[..0] == prior;
    while k < |labels|
      invariant 0 <= k <= |labels|
      invariant colors' == Seqs.Dedup(prior + labels[..k])
      invariant forall x :: x in seen' <==> x in prior + labels[..k]
    {
      var l := labels[k];
      Seqs.DedupSnoc(prior + labels[..k], l);
      assert prior + labels[..k + 1] == (prior + labels[..k]) + [l];
      if l !in seen' {
        colors' := colors' + [l];
        seen' := seen' + {l};
      }
      k := k + 1;
    }
    assert labels[..k] == labels;
  }

  /** The middle `forEach` of `boardLabelColors`: adds the labels of every card of one list. */
  method AddCardLabels(colors: seq<Json>, seen: set<Json>, ghost prior: seq<Json>, cards: seq<Json>)
    returns (colors': seq<Json>, seen': set<Json>)
    requires colors == Seqs.Dedup(prior)
    requires forall x :: x in seen <==> x in prior
    ensures colors' == Seqs.Dedup(prior + CardLabels(cards))
    ensures forall x :: x in seen' <==> x in prior + CardLabels(cards)
  {
    colors', seen' := colors, seen;
    var j := 0;
    assert prior + CardLabels(cards[..0]) == prior;
    while j < |cards|
      invariant 0 <= j <= |cards|
      invariant colors' == Seqs.Dedup(prior + CardLabels(cards[..j]))
      invariant forall x :: x in seen' <==> x in prior + CardLabels(cards[..j])
    {
      var labels := ArrayOr(Get(cards[j], "labels"));
      colors', seen' := AddLabels(colors', seen', prior + CardLabels(cards[..j]), labels);
      assert cards[..j + 1][..j] == cards[..j];
      assert (prior + CardLabels(cards[..j])) + labels == prior + CardLabels(cards[..j + 1]);
      j := j + 1;
    }
    assert cards[..j] == cards;
  }

  /** `boardLabelColors(board)`: the nested `forEach` over lists, cards and labels filling a `Set`. */
  method BoardLabelColors(board: Board) returns (colors: seq<Json>)
    ensures colors == LabelColors(board)
  {
    var seen: set<Json> := {};
    colors := [];
    var i := 0;
    while i < |board.lists|
      invariant 0 <= i <= |board.lists|
      invariant colors == Seqs.Dedup(ListLabels(board.lists[..i]))
      invariant forall x :: x in seen <==> x in ListLabels(board.lists[..i])
    {
      colors, seen := AddCardLabels(colors, seen, ListLabels(board.lists[..i]), board.lists[i].cards);
      assert board.lists[..i + 1][..i] == board.lists[..i];
      i := i + 1;
    }
    assert board.lists[..i] == board.lists;
  }
}
