/**
 * The application shell: the boards, notes and canvases it holds, the current route,
 * the selected note and canvas, and the status of the updater. Each handler replaces
 * some of these with a value computed from the old one.
 */
module AppState {
  import opened Wrappers
  import opened Text
  import opened Json
  import opened Records
  import opened Lib
  import Seqs

  // ---------------------------------------------------------------- collections

  /** `s.map(x => matches(x) ? f(x) : x)`. */
  function MapWhere<T>(s: seq<T>, matches: T -> bool, f: T -> T): seq<T> {
    if |s| == 0 then [] else [if matches(s[0]) then f(s[0]) else s[0]] + MapWhere(s[1..], matches, f)
  }

  /** Every matching element is transformed, every other one is kept where it was, and the length does not change. */
  lemma {:induction false} MapWhereSpec<T>(s: seq<T>, matches: T -> bool, f: T -> T)
    ensures var r := MapWhere(s, matches, f);
      && |r| == |s|
      && (forall i :: 0 <= i < |s| && matches(s[i]) ==> r[i] == f(s[i]))
      && (forall i :: 0 <= i < |s| && !matches(s[i]) ==> r[i] == s[i])
  {
    if |s| > 0 {
      MapWhereSpec(s[1..], matches, f);
    }
  }

  /** `s.filter(x => !matches(x))`. */
  function RemoveWhere<T>(s: seq<T>, matches: T -> bool): seq<T> {
    Seqs.Filter(s, (x: T) => !matches(x))
  }

  /** Removal drops exactly the matching elements and keeps the others in their order. */
  lemma RemoveWhereSpec<T>(s: seq<T>, matches: T -> bool)
    ensures var r := RemoveWhere(s, matches);
      && (forall i :: 0 <= i < |r| ==> !matches(r[i]))
      && (forall i :: 0 <= i < |s| && !matches(s[i]) ==> s[i] in r)
      && Seqs.IsSubseq(r, s)
      && |r| == |s| - Seqs.CountWhere(s, matches)
  {
    Seqs.FilterIsSubseq(s, (x: T) => !matches(x));
    Seqs.FilterDropsCount(s, (x: T) => !matches(x), matches);
  }

  // ---------------------------------------------------------------- boards

  /** `createBoard(name, wallpaper)`: a default board, with the wallpaper when one is given. */
  function CreatedBoard(id: string, name: string, wallpaper: Option<Json>, now: real): Board {
    var b := DefaultBoard(id, name, now);
    if Truthy(wallpaper) then b.(wallpaper := wallpaper.value) else b
  }

  lemma CreatedBoardSpec(id: string, name: string, wallpaper: Option<Json>, now: real)
    ensures var b := CreatedBoard(id, name, wallpaper, now);
      && b.id == JStr(id) && b.name == JStr(name) && b.lists == [] && b.createdAt == now
      && b.wallpaper == (if Truthy(wallpaper) then wallpaper.value else JStr(WALLPAPERS[0]))
  {
  }

  /** `updateBoard(board)`: every board with the same id is replaced by it. */
  function UpdatedBoards(boards: seq<Board>, board: Board): seq<Board> {
    MapWhere(boards, (b: Board) => b.id == board.id, (b: Board) => board)
  }

  lemma UpdatedBoardsSpec(boards: seq<Board>, board: Board)
    ensures var r := UpdatedBoards(boards, board);
      && |r| == |boards|
      && (forall i :: 0 <= i < |boards| && boards[i].id == board.id ==> r[i] == board)
      && (forall i :: 0 <= i < |boards| && boards[i].id != board.id ==> r[i] == boards[i])
  {
    MapWhereSpec(boards, (b: Board) => b.id == board.id, (b: Board) => board);
  }

  /** `deleteBoard(id)`: the boards without the ones with that id. */
  function DeletedBoards(boards: seq<Board>, id: Json): seq<Board> {
    RemoveWhere(boards, (b: Board) => b.id == id)
  }

  lemma DeletedBoardsSpec(boards: seq<Board>, id: Json)
    ensures var r := DeletedBoards(boards, id);
      && (forall i :: 0 <= i < |r| ==> r[i].id != id)
      && (forall i :: 0 <= i < |boards| && boards[i].id != id ==> boards[i] in r)
      && Seqs.IsSubseq(r, boards)
      && |r| == |boards| - Seqs.CountWhere(boards, (b: Board) => b.id == id)
  {
    RemoveWhereSpec(boards, (b: Board) => b.id == id);
  }

  // ---------------------------------------------------------------- notes

  /** The title `createNote(title)` passes on: the trimmed title when it has any visible character. */
  function NoteTitle(title: Option<string>): string {
    if title.Some? && |Trim(title.value)| > 0 then Trim(title.value) else "Untitled note"
  }

  /** `createNote(title)`: a new empty note with that title. */
  function CreatedNote(id: string, title: Option<string>, now: real): Note {
    DefaultNote(id, NoteTitle(title), "", now)
  }

  /** A created note has the trimmed title when it is not blank, `'Untitled note'` otherwise, and no content. */
  lemma CreatedNoteSpec(id: string, title: Option<string>, now: real)
    ensures var n := CreatedNote(id, title, now);
      && n.id == JStr(id)
      && n.title == (if title.Some? && !IsBlank(title.value) then Trim(title.value) else "Untitled note")
      && n.content == "" && n.tags == [] && n.createdAt == now && n.updatedAt == now
  {
    var t := NoteTitle(title);
    DefaultNoteSpec(id, t, "", now);
    if title.Some? {
      TrimBlank(title.value);
    }
    if title.Some? && |Trim(title.value)| > 0 {
      TrimIdempotent(title.value);
      TrimBlank(t);
    } else {
      UntitledNoteClean();
      TrimBlank(t);
    }
  }

  /**
   * The object `updateNote` receives, field by field: `None` for a property it does not
   * carry. `parentId` is `Some(None)` when it carries `null`.
   */
  datatype NotePatch = NotePatch(
    id: Option<Json>,
    title: Option<string>,
    content: Option<string>,
    parentId: Option<Option<string>>,
    tags: Option<seq<string>>,
    createdAt: Option<real>,
    updatedAt: Option<real>,
    isDaily: Option<bool>)

  /** `{ ...n, ...patch }`: a property the patch does not carry keeps the note's value. */
  function MergeNote(n: Note, p: NotePatch): (r: Note)
    ensures p.id.None? ==> r.id == n.id
    ensures p.title.None? ==> r.title == n.title
    ensures p.content.None? ==> r.content == n.content
    ensures p.parentId.None? ==> r.parentId == n.parentId
    ensures p.tags.None? ==> r.tags == n.tags
    ensures p.createdAt.None? ==> r.createdAt == n.createdAt
    ensures p.updatedAt.None? ==> r.updatedAt == n.updatedAt
    ensures p.isDaily.None? ==> r.isDaily == n.isDaily
  {
    Note(
      p.id.GetOr(n.id),
      p.title.GetOr(n.title),
      p.content.GetOr(n.content),
      p.parentId.GetOr(n.parentId),
      p.tags.GetOr(n.tags),
      p.createdAt.GetOr(n.createdAt),
      p.updatedAt.GetOr(n.updatedAt),
      p.isDaily.GetOr(n.isDaily))
  }

  /** The patch of a complete note, which is what the notes editor sends: merging it gives that note. */
  function FullPatch(n: Note): NotePatch {
    NotePatch(Some(n.id), Some(n.title), Some(n.content), Some(n.parentId), Some(n.tags), Some(n.createdAt), Some(n.updatedAt), Some(n.isDaily))
  }

  /** Carried properties overwrite the note's, the others are kept; a full patch gives its note and an empty one changes nothing. */
  lemma MergeNoteSpec(n: Note, p: NotePatch, full: Note)
    ensures var r := MergeNote(n, p);
      && (p.id.Some? ==> r.id == p.id.value) && (p.id.None? ==> r.id == n.id)
      && (p.title.Some? ==> r.title == p.title.value) && (p.title.None? ==> r.title == n.title)
      && (p.content.Some? ==> r.content == p.content.value) && (p.content.None? ==> r.content == n.content)
      && (p.parentId.Some? ==> r.parentId == p.parentId.value) && (p.parentId.None? ==> r.parentId == n.parentId)
      && (p.tags.Some? ==> r.tags == p.tags.value) && (p.tags.None? ==> r.tags == n.tags)
      && (p.createdAt.Some? ==> r.createdAt == p.createdAt.value) && (p.createdAt.None? ==> r.createdAt == n.createdAt)
      && (p.updatedAt.Some? ==> r.updatedAt == p.updatedAt.value) && (p.updatedAt.None? ==> r.updatedAt == n.updatedAt)
      && (p.isDaily.Some? ==> r.isDaily == p.isDaily.value) && (p.isDaily.None? ==> r.isDaily == n.isDaily)
      && MergeNote(n, FullPatch(full)) == full
      && MergeNote(n, NotePatch(None, None, None, None, None, None, None, None)) == n
  {
  }

  /** `updateNote(patch)`: nothing without a truthy id, else the notes with that id get the patch merged in. */
  function UpdatedNotes(notes: seq<Note>, p: NotePatch): seq<Note> {
    if !Truthy(p.id) then notes
    else MapWhere(notes, (n: Note) => n.id == p.id.value, (n: Note) => MergeNote(n, p))
  }

  lemma UpdatedNotesSpec(notes: seq<Note>, p: NotePatch)
    ensures var r := UpdatedNotes(notes, p);
      && (!Truthy(p.id) ==> r == notes)
      && |r| == |notes|
      && (Truthy(p.id) ==>
            && (forall i :: 0 <= i < |notes| && Some(notes[i].id) == p.id ==> r[i] == MergeNote(notes[i], p))
            && (forall i :: 0 <= i < |notes| && Some(notes[i].id) != p.id ==> r[i] == notes[i]))
  {
    if Truthy(p.id) {
      MapWhereSpec(notes, (n: Note) => n.id == p.id.value, (n: Note) => MergeNote(n, p));
    }
  }

  function DeletedNotes(notes: seq<Note>, id: Json): seq<Note> {
    RemoveWhere(notes, (n: Note) => n.id == id)
  }

  lemma DeletedNotesSpec(notes: seq<Note>, id: Json)
    ensures var r := DeletedNotes(notes, id);
      && (forall i :: 0 <= i < |r| ==> r[i].id != id)
      && (forall i :: 0 <= i < |notes| && notes[i].id != id ==> notes[i] in r)
      && Seqs.IsSubseq(r, notes)
      && |r| == |notes| - Seqs.CountWhere(notes, (n: Note) => n.id == id)
  {
    RemoveWhereSpec(notes, (n: Note) => n.id == id);
  }

  /** The selection after a deletion: cleared exactly when it was the deleted id. */
  function SelectionAfterDelete(current: Json, deleted: Json): (r: Json)
    ensures r == JNull <==> current == deleted || current == JNull
    ensures r != JNull ==> r == current
  {
    if current == deleted then JNull else current
  }

  // ---------------------------------------------------------------- canvases

  function CanvasName(name: Option<string>): string {
    if name.Some? && |Trim(name.value)| > 0 then Trim(name.value) else "Untitled canvas"
  }

  /** `createCanvas(name)`. */
  function CreatedCanvas(id: string, name: Option<string>, now: real): Canvas {
    DefaultCanvas(id, CanvasName(name), now)
  }

  lemma CreatedCanvasSpec(id: string, name: Option<string>, now: real)
    ensures var c := CreatedCanvas(id, name, now);
      && c.id == JStr(id)
      && c.name == (if name.Some? && !IsBlank(name.value) then Trim(name.value) else "Untitled canvas")
      && c.scene == Scene([], map[], map[]) && c.createdAt == now && c.updatedAt == now
  {
    var t := CanvasName(name);
    DefaultCanvasSpec(id, t, now);
    if name.Some? {
      TrimBlank(name.value);
    }
    if name.Some? && |Trim(name.value)| > 0 {
      TrimIdempotent(name.value);
      TrimBlank(t);
    } else {
      UntitledCanvasClean();
      TrimBlank(t);
    }
  }

  function DeletedCanvases(canvases: seq<Canvas>, id: Json): seq<Canvas> {
    RemoveWhere(canvases, (c: Canvas) => c.id == id)
  }

  lemma DeletedCanvasesSpec(canvases: seq<Canvas>, id: Json)
    ensures var r := DeletedCanvases(canvases, id);
      && (forall i :: 0 <= i < |r| ==> r[i].id != id)
      && (forall i :: 0 <= i < |canvases| && canvases[i].id != id ==> canvases[i] in r)
      && Seqs.IsSubseq(r, canvases)
      && |r| == |canvases| - Seqs.CountWhere(canvases, (c: Canvas) => c.id == id)
  {
    RemoveWhereSpec(canvases, (c: Canvas) => c.id == id);
  }

  /** `renameCanvas(id, name)`: the canvases with that id get the name and `updatedAt = now`. */
  function RenamedCanvases(canvases: seq<Canvas>, id: Json, name: string, now: real): seq<Canvas> {
    MapWhere(canvases, (c: Canvas) => c.id == id, (c: Canvas) => c.(name := name, updatedAt := now))
  }

  lemma RenamedCanvasesSpec(canvases: seq<Canvas>, id: Json, name: string, now: real)
    ensures var r := RenamedCanvases(canvases, id, name, now);
      && |r| == |canvases|
      && (forall i :: 0 <= i < |r| && canvases[i].id == id ==>
            r[i].name == name && r[i].updatedAt == now
            && r[i].id == canvases[i].id && r[i].scene == canvases[i].scene && r[i].createdAt == canvases[i].createdAt)
      && (forall i :: 0 <= i < |r| && canvases[i].id != id ==> r[i] == canvases[i])
  {
    MapWhereSpec(canvases, (c: Canvas) => c.id == id, (c: Canvas) => c.(name := name, updatedAt := now));
  }

  /** `updateCanvasScene(id, scene)`: the canvases with that id get the sanitised scene and `updatedAt = now`. */
  function ScenedCanvases(canvases: seq<Canvas>, id: Json, scene: Option<Json>, now: real): seq<Canvas> {
    var safe := SanitizeCanvasScene(scene);
    MapWhere(canvases, (c: Canvas) => c.id == id, (c: Canvas) => c.(scene := safe, updatedAt := now))
  }

  lemma ScenedCanvasesSpec(canvases: seq<Canvas>, id: Json, scene: Option<Json>, now: real)
    ensures var r := ScenedCanvases(canvases, id, scene, now);
      && |r| == |canvases|
      && (forall i :: 0 <= i < |r| && canvases[i].id == id ==>
            r[i].scene == SanitizeCanvasScene(scene) && IsCleanScene(r[i].scene) && r[i].updatedAt == now
            && r[i].id == canvases[i].id && r[i].name == canvases[i].name && r[i].createdAt == canvases[i].createdAt)
      && (forall i :: 0 <= i < |r| && canvases[i].id != id ==> r[i] == canvases[i])
  {
    var safe := SanitizeCanvasScene(scene);
    SanitizeCanvasSceneSpec(scene);
    MapWhereSpec(canvases, (c: Canvas) => c.id == id, (c: Canvas) => c.(scene := safe, updatedAt := now));
  }

  // ---------------------------------------------------------------- routes

  /** `{ name, id }`; only board routes carry an id. */
  datatype Route = Route(name: string, id: Option<Json>)

  /** The sidebar section a route belongs to. */
  function ActiveCategory(route: Route): string {
    if route.name == "board" || route.name == "boards" then "boards"
    else if route.name == "notes" || route.name == "notes-dashboard" then "notes"
    else if route.name == "canvas" then "canvas"
    else "overview"
  }

  /** The routes the application navigates to. */
  const ROUTE_NAMES: set<string> := {"overview", "board", "boards", "notes-dashboard", "notes", "canvas"}

  /**
   * Every route lies in one of the four sidebar sections; the board screens are under
   * boards, both note screens under notes, and any unknown route is the overview.
   */
  lemma ActiveCategorySpec(route: Route)
    ensures var c := ActiveCategory(route);
      && c in {"boards", "notes", "canvas", "overview"}
      && (c == "boards" <==> route.name in {"board", "boards"})
      && (c == "notes" <==> route.name in {"notes", "notes-dashboard"})
      && (c == "canvas" <==> route.name == "canvas")
      && (route.name !in ROUTE_NAMES ==> c == "overview")
  {
  }

  /** `boards.find(b => b.id === id)`: the first board with the id. */
  function FindBoard(boards: seq<Board>, id: Option<Json>): (r: Option<Board>)
    ensures r.Some? ==> Some(r.value.id) == id
    ensures r.Some? ==> exists k :: 0 <= k < |boards| && boards[k] == r.value && forall m :: 0 <= m < k ==> Some(boards[m].id) != id
    ensures r.None? ==> forall i :: 0 <= i < |boards| ==> Some(boards[i].id) != id
  {
    match Seqs.FindIndex(boards, (b: Board) => Some(b.id) == id)
    case None => None
    case Some(k) => Some(boards[k])
  }

  /** The heading of the current screen. */
  function ActiveLabel(route: Route, boards: seq<Board>): Json {
    if route.name == "board" then
      var b := FindBoard(boards, route.id);
      Coalesce(if b.Some? then Some(b.value.name) else None, JStr("Board"))
    else if route.name == "overview" then JStr("Overview")
    else if route.name == "boards" then JStr("Boards")
    else if route.name == "notes-dashboard" then JStr("Notes")
    else if route.name == "notes" then JStr("Notes workspace")
    else if route.name == "canvas" then JStr("Canvas workspace")
    else JStr("Workspace")
  }

  /** On a board route the heading is the name of the first board with that id, or `'Board'` when it has none. */
  lemma ActiveLabelSpec(route: Route, boards: seq<Board>)
    ensures var l := ActiveLabel(route, boards);
      && l != JNull
      && (route.name == "board" && FindBoard(boards, route.id).Some? && FindBoard(boards, route.id).value.name != JNull ==>
            l == FindBoard(boards, route.id).value.name)
      && (forall k :: 0 <= k < |boards| && route.name == "board" && Some(boards[k].id) == route.id
                      && (forall m :: 0 <= m < k ==> Some(boards[m].id) != route.id) ==>
            l == (if boards[k].name != JNull then boards[k].name else JStr("Board")))
      && (route.name == "board" && (forall b :: b in boards ==> Some(b.id) != route.id) ==> l == JStr("Board"))
      && (route.name !in ROUTE_NAMES ==> l == JStr("Workspace"))
  {
    if route.name == "board" && (forall b :: b in boards ==> Some(b.id) != route.id) {
      assert FindBoard(boards, route.id).None?;
    }
  }

  // ---------------------------------------------------------------- updater status

  datatype Progress = Progress(percent: int, bytesPerSecond: real)

  /** The updater status record; `None` is `null`. */
  datatype UpdateStatus = UpdateStatus(status: string, version: Option<string>, progress: Option<Progress>, message: Option<string>)

  const INITIAL_STATUS: UpdateStatus := UpdateStatus("idle", None, None, None)

  /** A partial status: `None` for a key it does not carry, `Some(None)` for one it sets to `null`. */
  datatype StatusPatch = StatusPatch(status: Option<string>, version: Option<Option<string>>, progress: Option<Option<Progress>>, message: Option<Option<string>>)

  /** `{ ...prev, ...partial }`. */
  function ApplyStatus(prev: UpdateStatus, p: StatusPatch): UpdateStatus {
    UpdateStatus(p.status.GetOr(prev.status), p.version.GetOr(prev.version), p.progress.GetOr(prev.progress), p.message.GetOr(prev.message))
  }

  /** Every key the partial carries is overwritten, every other key is kept, and applying the same partial twice is applying it once. */
  lemma ApplyStatusSpec(prev: UpdateStatus, p: StatusPatch)
    ensures var r := ApplyStatus(prev, p);
      && (if p.status.Some? then r.status == p.status.value else r.status == prev.status)
      && (if p.version.Some? then r.version == p.version.value else r.version == prev.version)
      && (if p.progress.Some? then r.progress == p.progress.value else r.progress == prev.progress)
      && (if p.message.Some? then r.message == p.message.value else r.message == prev.message)
      && ApplyStatus(r, p) == r
  {
  }

  /** `Math.round(x)`: the nearest integer, halves rounded up. */
  function Round(x: real): (n: int)
    ensures x - 0.5 < n as real <= x + 0.5
  {
    (x + 0.5).Floor
  }

  /** The partial sent on a download-progress event. */
  function ProgressPatch(percent: Option<real>, bytesPerSecond: Option<real>): StatusPatch {
    StatusPatch(Some("downloading"), None, Some(Some(Progress(Round(percent.GetOr(0.0)), bytesPerSecond.GetOr(0.0)))), Some(None))
  }

  /** The text at the foot of the sidebar for each updater status. */
  function FooterStatus(u: UpdateStatus): string {
    if u.status == "checking" then "Checking for updates..."
    else if u.status == "available" then
      (if u.version.Some? && u.version.value != "" then "v" + u.version.value + " ready" else "Update available")
    else if u.status == "downloading" then
      "Downloading... " + IntToString(if u.progress.Some? then u.progress.value.percent else 0) + "%"
    else if u.status == "downloaded" then "Ready to install"
    else if u.status == "error" then "Update unavailable"
    else "You are up to date"
  }

  /** Every status has a text, and a status the footer does not know reads as up to date. */
  lemma FooterStatusSpec(u: UpdateStatus)
    ensures |FooterStatus(u)| > 0
    ensures u.status !in {"checking", "available", "downloading", "downloaded", "error"} ==> FooterStatus(u) == "You are up to date"
  {
  }

  /** After a download-progress event the footer shows the event's rounded percentage. */
  lemma FooterProgressSpec(u: UpdateStatus, percent: real, bytesPerSecond: real)
    ensures FooterStatus(ApplyStatus(u, ProgressPatch(Some(percent), Some(bytesPerSecond))))
            == "Downloading... " + IntToString(Round(percent)) + "%"
  {
    var a := ApplyStatus(u, ProgressPatch(Some(percent), Some(bytesPerSecond)));
    assert a.status == "downloading" && |a.status| == 11;
    assert a.progress == Some(Progress(Round(percent), bytesPerSecond));
  }

  // ---------------------------------------------------------------- the shell

  /** The starter note's content, one line per element joined by `\n`. */
  const WELCOME: string := "# Welcome!\n\nStart capturing ideas in the editor below.\n\n- Use the + tab to create more notes.\n- Rename a tab by changing the title field.\n- Everything saves automatically."

  /** The note added when there is no stored note. */
  function StarterNote(id: string, now: real): Note {
    DefaultNote(id, "Welcome to Notes", WELCOME, now)
  }

  class App {
    var route: Route
    var boards: seq<Board>
    var notes: seq<Note>
    var canvases: seq<Canvas>
    /** The selected note and canvas ids, `JNull` for none. */
    var currentNoteId: Json
    var currentCanvasId: Json
    var updateStatus: UpdateStatus

    constructor()
      ensures route == Route("overview", None) && boards == [] && notes == [] && canvases == []
      ensures currentNoteId == JNull && currentCanvasId == JNull && updateStatus == INITIAL_STATUS
    {
      route := Route("overview", None);
      boards := [];
      notes := [];
      canvases := [];
      currentNoteId := JNull;
      currentCanvasId := JNull;
      updateStatus := INITIAL_STATUS;
    }

    /**
     * The load on start: the stored collections are taken as loaded, except that with no
     * stored note a starter note (id `starterId`, created at `now`) is added and selected.
     */
    method Load(storedBoards: seq<Board>, storedNotes: seq<Note>, storedCanvases: seq<Canvas>, starterId: string, now: real)
      modifies this
      ensures boards == storedBoards && canvases == storedCanvases
      ensures |storedNotes| > 0 ==> notes == storedNotes && currentNoteId == old(currentNoteId)
      ensures |storedNotes| == 0 ==> notes == [StarterNote(starterId, now)] && currentNoteId == notes[0].id
      ensures route == old(route) && currentCanvasId == old(currentCanvasId) && updateStatus == old(updateStatus)
    {
      boards := storedBoards;
      if |storedNotes| > 0 {
        notes := storedNotes;
      } else {
        var starter := StarterNote(starterId, now);
        notes := [starter];
        currentNoteId := starter.id;
      }
      canvases := storedCanvases;
    }

    method ApplyUpdateStatus(p: StatusPatch)
      modifies this`updateStatus
      ensures updateStatus == ApplyStatus(old(updateStatus), p)
    {
      updateStatus := ApplyStatus(updateStatus, p);
    }

    method OpenBoard(id: Json)
      modifies this`route
      ensures route == Route("board", Some(id))
    {
      route := Route("board", Some(id));
    }

    method ShowBoards()
      modifies this`route
      ensures route == Route("boards", None)
    {
      route := Route("boards", None);
    }

    method ShowNotesDashboard()
      modifies this`route
      ensures route == Route("notes-dashboard", None)
    {
      route := Route("notes-dashboard", None);
    }

    /** The canvas dashboard link leads to the overview. */
    method ShowCanvasDashboard()
      modifies this`route
      ensures route == Route("overview", None)
    {
      route := Route("overview", None);
    }

    /** `createBoard(name, wallpaper)`: the new board goes first and is opened. */
    method CreateBoard(id: string, name: string, wallpaper: Option<Json>, now: real)
      modifies this`boards, this`route
      ensures boards == [CreatedBoard(id, name, wallpaper, now)] + old(boards)
      ensures |boards| == |old(boards)| + 1 && boards[1..] == old(boards)
      ensures route == Route("board", Some(JStr(id)))
    {
      var b := CreatedBoard(id, name, wallpaper, now);
      boards := [b] + boards;
      route := Route("board", Some(b.id));
    }

    method UpdateBoard(board: Board)
      modifies this`boards
      ensures boards == UpdatedBoards(old(boards), board)
    {
      boards := UpdatedBoards(boards, board);
    }

    /** `deleteBoard(id)`: the board is removed and the board list shown. */
    method DeleteBoard(id: Json)
      modifies this`boards, this`route
      ensures boards == DeletedBoards(old(boards), id)
      ensures route == Route("boards", None)
    {
      boards := DeletedBoards(boards, id);
      ShowBoards();
    }

    /** `createNote(title)`: the new note goes first, is selected and opened. */
    method CreateNote(id: string, title: Option<string>, now: real)
      modifies this`notes, this`currentNoteId, this`route
      ensures notes == [CreatedNote(id, title, now)] + old(notes)
      ensures currentNoteId == JStr(id) && route == Route("notes", None)
    {
      currentNoteId := JStr(id);
      route := Route("notes", None);
      notes := [CreatedNote(id, title, now)] + notes;
    }

    method UpdateNote(p: NotePatch)
      modifies this`notes
      ensures notes == UpdatedNotes(old(notes), p)
    {
      notes := UpdatedNotes(notes, p);
    }

    /** `deleteNote(id)`: the note is removed, and the selection cleared when it was that note. */
    method DeleteNote(id: Json)
      modifies this`notes, this`currentNoteId
      ensures notes == DeletedNotes(old(notes), id)
      ensures currentNoteId == SelectionAfterDelete(old(currentNoteId), id)
    {
      notes := DeletedNotes(notes, id);
      if currentNoteId == id {
        currentNoteId := JNull;
      }
    }

    method SelectNote(id: Json)
      modifies this`currentNoteId, this`route
      ensures currentNoteId == id && route == Route("notes", None)
    {
      currentNoteId := id;
      route := Route("notes", None);
    }

    /** `createCanvas(name)`: the new canvas goes first, is selected and opened. */
    method CreateCanvas(id: string, name: Option<string>, now: real)
      modifies this`canvases, this`currentCanvasId, this`route
      ensures canvases == [CreatedCanvas(id, name, now)] + old(canvases)
      ensures currentCanvasId == JStr(id) && route == Route("canvas", None)
    {
      currentCanvasId := JStr(id);
      route := Route("canvas", None);
      canvases := [CreatedCanvas(id, name, now)] + canvases;
    }

    method SelectCanvas(id: Json)
      modifies this`currentCanvasId, this`route
      ensures currentCanvasId == id && route == Route("canvas", None)
    {
      currentCanvasId := id;
      route := Route("canvas", None);
    }

    method DeleteCanvas(id: Json)
      modifies this`canvases, this`currentCanvasId
      ensures canvases == DeletedCanvases(old(canvases), id)
      ensures currentCanvasId == SelectionAfterDelete(old(currentCanvasId), id)
    {
      canvases := DeletedCanvases(canvases, id);
      if currentCanvasId == id {
        currentCanvasId := JNull;
      }
    }

    method RenameCanvas(id: Json, name: string, now: real)
      modifies this`canvases
      ensures canvases == RenamedCanvases(old(canvases), id, name, now)
    {
      canvases := RenamedCanvases(canvases, id, name, now);
    }

    method UpdateCanvasScene(id: Json, scene: Option<Json>, now: real)
      modifies this`canvases
      ensures canvases == ScenedCanvases(old(canvases), id, scene, now)
    {
      canvases := ScenedCanvases(canvases, id, scene, now);
    }

    /** The effect that selects the first note when the notes screen opens with none selected. */
    method SyncNoteSelection()
      modifies this`currentNoteId
      ensures if route.name == "notes" && !Truthy(Some(old(currentNoteId))) && |notes| > 0
              then currentNoteId == notes[0].id else currentNoteId == old(currentNoteId)
    {
      if route.name == "notes" && !Truthy(Some(currentNoteId)) && |notes| > 0 {
        currentNoteId := notes[0].id;
      }
    }

    /** The same effect for the canvas screen. */
    method SyncCanvasSelection()
      modifies this`currentCanvasId
      ensures if route.name == "canvas" && !Truthy(Some(old(currentCanvasId))) && |canvases| > 0
              then currentCanvasId == canvases[0].id else currentCanvasId == old(currentCanvasId)
    {
      if route.name == "canvas" && !Truthy(Some(currentCanvasId)) && |canvases| > 0 {
        currentCanvasId := canvases[0].id;
      }
    }
  }
}
