# tacky — a Dafny model of the workspace core

tacky is a desktop workspace with kanban boards, Markdown notes and drawing canvases.
This project models its core in Dafny and proves properties of the model:

- the storage sanitisers and the default records (`src/lib.js`);
- the board view: list and card updates, drag and drop, and edge auto-scroll (`src/views/Board.jsx`);
- the card editor dialog (`src/components/CardModal.jsx`);
- the application shell's state handlers (`src/App.jsx`);
- the dashboards and the overview (`src/views/Dashboard.jsx`, `src/views/NotesDashboard.jsx`, `src/views/CanvasDashboard.jsx`, `src/views/Overview.jsx`);
- the notes editor logic (`src/views/NotesWorkspace.jsx`).

Modules, one per file:

| module | file | what it holds |
|---|---|---|
| `Wrappers` | `wrappers.dfy` | `Option` (the source's `null`/`undefined`) and `Result` (a value, or the error the source throws) |
| `Json` | `json.dfy` | the untyped JavaScript values the sanitisers read: property access and `?.`, `??`, truthiness, object spread |
| `Text` | `text.dfy` | `trim`, `toLowerCase`, `includes`, `split(/\r?\n/)`, `split(/\s+/)`, `String(n)` |
| `Seqs` | `seqs.dfy` | `filter`, `map`, `slice(0, n)`, and the first-occurrence order a `Set` keeps |
| `Sorting` | `sorting.dfy` | `Array.prototype.sort`, as a stable insertion sort by comparator |
| `Records` | `records.dfy` | the stored shapes of a board, list, note, canvas and scene |
| `Lib` | `lib.dfy` | sanitisers, the `*ToJson` encoders, default records, `boardLabelColors` |
| `Hierarchy` | `hierarchy.dfy` | the board updaters, the drag-end move, the JSON import |
| `AutoScroll` | `autoscroll.dfy` | the edge auto-scroll deltas |
| `BoardView` | `board_view.dfy` | the board view as a class (working copy, drag flag, frame queue, scroll offsets, card being edited), and `buildDragStyle` |
| `CardModal` | `card_modal.dfy` | the card editor dialog |
| `AppState` | `app_state.dfy` | the shell's collections, route and selection as a class, with pure updaters beside it |
| `Dashboard`, `NotesDashboard`, `CanvasDashboard`, `Overview` | `dashboard.dfy`, `notes_dashboard.dfy`, `canvas_dashboard.dfy`, `overview.dfy` | the listings these views derive from their props |
| `NotesWorkspace` | `notes_workspace.dfy` | the notes editor's derived values and its handlers as a class |

## How the model is organised

- **Sanitisers produce typed records; fields the source leaves untyped stay `Json`.**
  - Each sanitiser has an encoder (`BoardToJson`, `NoteToJson`, `CanvasToJson`, `SceneToJson`).
  - Each has a round-trip lemma: reading back the JSON of a stored record gives the record.
  - Each has an idempotence lemma: sanitising the JSON of a sanitised value changes nothing. This is what saving and then loading does.
- **The board updaters are pure functions** (`Hierarchy`).
  - Each updater in Board.jsx computes a new board from `prev` (most of them on a `deepClone` of it, `deleteList` by spreading it), so a function from the old board to the new one is faithful.
  - The class `BoardView.View` holds what the view does change in place: its working copy, the `is-dragging` flag, the pending animation frame and the scroll offsets.
- **The shell's handlers are methods of `AppState.App`.**
  - Each is tied to a pure function of the old state, for example `UpdatedNotes`.
  - Lemmas about that function state what the handler promises.
- **The listings are functions.**
  - Each has lemmas for which items it holds, in what multiplicity and in what order.
  - `ComputeStats` of the canvas dashboard loops over the canvases, so it is a method with loop invariants.
- **Sorting.**
  - JavaScript's sort is stable; `Sorting.SortBy` is an insertion sort by comparator, proved stable for key comparators (`SortByStable`).
  - Sorts by a numeric key are proved to be permutations in key order.
  - Sorts by `localeCompare` take the collation as a parameter `collate`, and are proved to be permutations.
- **Parameters stand in for what the source gets from outside:**
  - random ids (`uid`, `Math.random`);
  - the clock (`Date.now()`, the start of today);
  - the browser's DOM rectangles;
  - the collation.

## Model

| member | source | states |
|---|---|---|
| `Lib.TitleOrSpec` | src/lib.js:34 | a non-blank string title is kept trimmed (and is then clean); anything else becomes the default |
| `Lib.SanitizeBoardSpec` | src/lib.js:16-25 | nullish name, wallpaper, list title and ids get their defaults and present ones are kept; a numeric `createdAt` is kept and any other becomes `now`; one list per input list with its cards unchanged; the result is in stored shape |
| `Lib.ListRoundTrip` | src/lib.js:22-23 | sanitising the JSON of a stored list gives the list back |
| `Lib.BoardRoundTrip` | src/lib.js:16-25 | sanitising the JSON of a stored board gives the board back, the round trip of `saveBoards`/`loadBoards` |
| `Lib.SanitizeBoardIdempotent` | src/lib.js:16-27 | `sanitizeBoard` is idempotent on the JSON of its own output |
| `Lib.DefaultBoardSpec` | src/lib.js:148 | a new board has no lists, the first wallpaper and the given name, and survives save and load unchanged |
| `Lib.CleanTagsClean` | src/lib.js:37 | every kept tag is non-empty and trimmed |
| `Lib.CleanTagsSpec` | src/lib.js:37 | one tag per non-blank string tag, and each of them appears trimmed |
| `Lib.CleanTagsOrder` | src/lib.js:37 | the tags are the trimmed forms of a subsequence of the input made only of non-blank strings, in order |
| `Lib.CleanTagsOfClean` | src/lib.js:37 | cleaning a list of clean tags gives it back |
| `Lib.SanitizeNoteSpec` | src/lib.js:31-43 | title, content, `parentId`, `isDaily`, tags and both timestamps field by field, as the typeof guards decide, a non-numeric timestamp becoming `now`; the result is in stored shape |
| `Lib.NoteToJsonFields` | src/lib.js:31-43 | each field of a written note reads back as the note's field |
| `Lib.NoteRoundTrip` | src/lib.js:31-43 | sanitising the JSON of a stored note gives the note back |
| `Lib.SanitizeNoteIdempotent` | src/lib.js:31-60 | `sanitizeNote` is idempotent on the JSON of its own output |
| `Lib.DefaultNoteSpec` | src/lib.js:62-64 | a new note has the given id and content, the trimmed title or `'Untitled note'`, no parent, no tags, both times `now`, and is not daily |
| `Lib.SanitizeCanvasSceneSpec` | src/lib.js:66-99 | elements are copied one for one, and only object elements are replaced by copies; `appState` keeps every property except `collaborators`, or is `{}`; `files` keeps its keys, or is `{}`; the scene is clean |
| `Lib.SceneRoundTrip` | src/lib.js:66-99 | sanitising the JSON of a clean scene gives the scene back |
| `Lib.SanitizeCanvasSceneIdempotent` | src/lib.js:66-99 | `sanitizeCanvasScene` is idempotent on the JSON of its own output |
| `Lib.SanitizeCanvasSpec` | src/lib.js:101-110 | the name is trimmed or becomes `'Untitled canvas'`; the scene is the sanitised scene; a present id and numeric `createdAt` and `updatedAt` are kept, and a non-numeric one becomes `now`; the result is in stored shape |
| `Lib.CanvasToJsonFields` | src/lib.js:101-110 | each field of a written canvas reads back as the canvas's field |
| `Lib.CanvasRoundTrip` | src/lib.js:101-110 | sanitising the JSON of a stored canvas gives the canvas back |
| `Lib.SanitizeCanvasIdempotent` | src/lib.js:101-127 | `sanitizeCanvas` is idempotent on the JSON of its own output |
| `Lib.DefaultCanvasSpec` | src/lib.js:129-137 | a new canvas has the given id, the trimmed name or `'Untitled canvas'`, an empty scene and both times `now` |
| `Lib.LabelColorsSpec` | src/lib.js:139-147 | every label of every card appears, nothing else does, none twice, in the order of first use |
| `Lib.AddLabels` | src/lib.js:144 | adding one card's labels to the set extends the first-occurrence list and the set by exactly those labels |
| `Lib.AddCardLabels` | src/lib.js:143-144 | the loop over a list's cards extends them by the labels of every card in order |
| `Lib.BoardLabelColors` | src/lib.js:139-147 | the loops return exactly `LabelColors(board)` |
| `Json.ShallowCopyIdempotent` | src/lib.js:68 | copying an object copy changes nothing |
| `Text.TrimBlank` | src/lib.js:34 | a string trims to `''` exactly when it is all white space |
| `Text.TrimIdempotent` | src/lib.js:34 | trimming twice is trimming once |
| `Text.SplitLinesCount` | src/views/NotesWorkspace.jsx:37 | `split(/\r?\n/)` gives one piece per line feed, plus one |
| `Text.SplitLinesLast` | src/views/NotesWorkspace.jsx:58-60 | the last piece is the text after the last line feed |
| `Text.SplitOnSpacesRuns` | src/views/NotesWorkspace.jsx:42 | splitting on white-space runs gives one non-empty piece per run of visible characters |
| `Seqs.FindIndex` | src/views/Board.jsx:178-179 | `findIndex` gives the first position whose element matches, or none exactly when no element matches (also the lookups of Board.jsx:56 and 59 and NotesWorkspace.jsx:26) |
| `Seqs.FilterNoDuplicates` | src/components/CardModal.jsx:15 | filtering a list without duplicates keeps it without duplicates |
| `Seqs.DedupNoDuplicates` | src/lib.js:140-146 | a first-occurrence list has no duplicates |
| `Seqs.DedupFirstOccurrenceOrder` | src/lib.js:146 | a first-occurrence list orders the values by their first occurrence |
| `Sorting.SortByPermutes` | src/views/Dashboard.jsx:42-46 | sorting by any comparator is a permutation |
| `Sorting.SortAscendingSpec` | src/views/NotesWorkspace.jsx:19-23 | an ascending numeric sort is a permutation in ascending key order |
| `Sorting.SortDescendingSpec` | src/views/Overview.jsx:65-68 | a descending numeric sort is a permutation in descending key order |
| `Sorting.SortByStable` | src/views/Overview.jsx:65-68 | with a key comparator, the elements that tie at any key come out in their input order, with their multiplicities |
| `Sorting.SortAscendingStable` | src/views/NotesWorkspace.jsx:19-23 | the ascending sort keeps the input order among equal keys |
| `Sorting.SortDescendingStable` | src/views/Overview.jsx:65-68 | the descending sort keeps the input order among equal keys |
| `Hierarchy.DragEndNoMove` | src/views/Board.jsx:165-166 | with no destination, or a drop where the drag started, the board is unchanged |
| `Hierarchy.MoveColumnSpec` | src/views/Board.jsx:171-176 | the list at `from` is removed and reinserted at `to` of the rest, or at its end; the lists are a permutation; the rest of the board is kept; a missing `from` changes nothing |
| `Hierarchy.ColumnMoveExample` | src/views/Board.jsx:171-176 | `[X, Y, Z]` with the list at 2 dropped at 0 gives `[Z, X, Y]` |
| `Hierarchy.MovePermutes` | src/views/Board.jsx:172-174 | splicing out and splicing back in is a permutation |
| `Hierarchy.MoveCardRejected` | src/views/Board.jsx:178-187 | a missing source or destination list, a source index past the cards, or a falsy card there leaves the board as it was |
| `Hierarchy.MoveCardSpec` | src/views/Board.jsx:178-190 | the board's own fields and the list ids and titles are kept; lists other than source and destination are unchanged; the card leaves the source at its index and enters the destination at the drop index (or the end), also within one list |
| `Hierarchy.MoveCardKeepsCards` | src/views/Board.jsx:178-190 | every card move, done or rejected, keeps the multiset of the board's cards |
| `Hierarchy.CardMoveExample` | src/views/Board.jsx:186-189 | A = [1,2,3], B = [4,5]: moving A's first card to position 1 of B gives A = [2,3] and B = [4,1,5] |
| `Hierarchy.AddListSpec` | src/views/Board.jsx:52 | exactly one list is appended, empty and with the title, after the old lists; the board's own fields and the cards are unchanged |
| `Hierarchy.DeleteListSpec` | src/views/Board.jsx:53 | exactly the lists with that id are removed, the others kept in order; the count drops by the number removed; the board's own fields are unchanged |
| `Hierarchy.AddCardSpec` | src/views/Board.jsx:54-58 | an error exactly when no list has the id; otherwise the new card is appended to the first such list, whose id and title stay, and the board's own fields and the other lists are unchanged |
| `Hierarchy.NewCardSpec` | src/views/Board.jsx:55 | the new card has the id, the title `'New Card'`, an empty description and due date, and no labels |
| `Hierarchy.UpdateCardSpec` | src/views/Board.jsx:59 | an error exactly for a missing list; the first card with the same id is replaced and no other card, list field, list or board field changes; with no such card the board is unchanged |
| `Hierarchy.DeleteCardSpec` | src/views/Board.jsx:60 | a missing list is a no-op; otherwise only that list's cards change: those with that id are removed, the others kept in order, and the count drops by the number removed; the board's own fields and the list's id and title stay |
| `Hierarchy.ImportBoard` | src/views/Board.jsx:201 | a valid import is an object |
| `Hierarchy.ImportBoardSpec` | src/views/Board.jsx:201 | it fails with `'Invalid board file'` exactly on a falsy file, a falsy id or non-array lists; otherwise it keeps the board's id and creation time, takes the file's lists, and takes name and wallpaper only when truthy |
| `Hierarchy.ExportImport` | src/views/Board.jsx:197-201 | importing the exported file of a board into that board gives the board's JSON back; a board with a falsy id exports a file the import rejects |
| `AutoScroll.IntensityBounds` | src/views/Board.jsx:95-98 | inside the threshold the intensity is in (0, 1], and 1 at or past the edge |
| `AutoScroll.EdgeDeltaSpec` | src/views/Board.jsx:91-111 | the delta is within ±step; zero exactly outside both thresholds; negative near the left/top edge, which wins; positive near only the right/bottom edge; the full step on or past an edge |
| `AutoScroll.ApplyAutoScrollSpec` | src/views/Board.jsx:80-137 | every delta is within its container's step; with no update or pointer nothing scrolls; a list scrolls only in a card drag, and it is the destination list, else the source |
| `AutoScroll.RightEdgeExample` | src/views/Board.jsx:97-99 | 10px from the right edge the board scrolls right by 19.25px |
| `BoardView.ScrollLists` | src/views/Board.jsx:134 | only the scrolled list's offset changes, by its delta |
| `BoardView.View.constructor` | src/views/Board.jsx:41-49 | the view starts on the board, not dragging, with no frame queued |
| `BoardView.View.Cancel` | src/views/Board.jsx:62-67 | the pending frame is removed from the queue and forgotten; nothing else changes |
| `BoardView.View.Schedule` | src/views/Board.jsx:139-148 | the old frame is cancelled and exactly one new frame, carrying the update, is queued |
| `BoardView.View.RunFrame` | src/views/Board.jsx:144-147 | the frame run is the pending one; the scroll offsets move by `ApplyAutoScroll` of its update; the queue is then empty |
| `BoardView.LatestWins` | src/views/Board.jsx:139-148 | after two schedules only the second update is queued |
| `BoardView.View.DragStart` | src/views/Board.jsx:152-156 | the pending frame is cancelled and the body marked as dragging |
| `BoardView.View.DragEnd` | src/views/Board.jsx:158-192 | the flag is cleared and the frame cancelled whatever the drop; the board becomes `Hierarchy.DragEnd` of it |
| `BoardView.View.AddList` | src/views/Board.jsx:52 | the board becomes `Hierarchy.AddList` of it, and the view stays valid |
| `BoardView.View.DeleteList` | src/views/Board.jsx:53 | the board becomes `Hierarchy.DeleteList` of it, and the view stays valid |
| `BoardView.View.AddCard` | src/views/Board.jsx:54-58 | the card is added to the first list with the id; `ok` is false exactly when no list has it, where the source's updater throws and the model stops; the editor target is set to the new card |
| `BoardView.View.UpdateCard` | src/views/Board.jsx:59 | the board becomes the updated board; `ok` is false exactly when no list has the id, where the source's updater throws and the model stops |
| `BoardView.View.DeleteCard` | src/views/Board.jsx:60 | the board becomes `Hierarchy.DeleteCard` of it, and the view stays valid |
| `BoardView.BuildDragStyleSpec` | src/views/Board.jsx:21-38 | the given properties are kept; `zIndex` and `opacity` are overridden only while dragging and only when given; `transition` is set exactly while the drop animates, to the given value or the default; at rest the style is the one given |
| `CardModal.InitialForm` | src/components/CardModal.jsx:6-9 | no card gives an empty form; a string title, description or due date is kept and anything else gives `''`; an array of labels is kept and anything else gives `[]` |
| `CardModal.ToggleLabelSpec` | src/components/CardModal.jsx:13-17 | a present colour is removed everywhere, the rest kept in order with their multiplicity (the length drops by the colour's occurrences); an absent one is appended |
| `CardModal.ToggleLabelTwice` | src/components/CardModal.jsx:13-17 | toggling an absent colour twice restores the labels |
| `CardModal.ToggleLabelNoDuplicates` | src/components/CardModal.jsx:13-17 | toggling keeps the labels free of duplicates |
| `CardModal.SubmitSpec` | src/components/CardModal.jsx:19-27 | nothing is submitted exactly for a blank title; otherwise the trimmed title and the other fields as they are |
| `CardModal.EditedCardSpec` | src/views/Board.jsx:59 | the edited card keeps the card's id and other properties, so `updateCard` replaces the card that was edited |
| `AppState.MapWhereSpec` | src/App.jsx:241 | `map` with a condition changes exactly the matching elements and keeps the length |
| `AppState.RemoveWhereSpec` | src/App.jsx:243 | `filter` on `!==` drops exactly the matching elements, keeps the others in order, and shortens by their number |
| `AppState.CreatedBoardSpec` | src/App.jsx:234-236 | a created board has the id, the name, no lists, the time, and the wallpaper when given, else the first one |
| `AppState.UpdatedBoardsSpec` | src/App.jsx:241 | every board with the id is replaced and every other board kept |
| `AppState.DeletedBoardsSpec` | src/App.jsx:242-245 | no board with the id remains; every other board does, in order; the length drops by the number removed |
| `AppState.CreatedNoteSpec` | src/App.jsx:247-248 | a created note has the trimmed title when it is not blank, `'Untitled note'` otherwise, and no content |
| `AppState.MergeNote` | src/App.jsx:256 | each of the eight properties the patch does not carry keeps the note's value |
| `AppState.MergeNoteSpec` | src/App.jsx:256 | each of the eight properties is the patch's when carried and the note's otherwise; a full patch gives the patched note; an empty one changes nothing |
| `AppState.UpdatedNotesSpec` | src/App.jsx:254-257 | nothing changes without a truthy id; otherwise the notes with that id get the patch merged in and the others are kept |
| `AppState.DeletedNotesSpec` | src/App.jsx:259-260 | no note with the id remains; every other note does, in order; the length drops by the number removed |
| `AppState.SelectionAfterDelete` | src/App.jsx:261 | the selection is cleared exactly when it was the deleted id |
| `AppState.CreatedCanvasSpec` | src/App.jsx:269-270 | a created canvas has the trimmed name when it is not blank, `'Untitled canvas'` otherwise, and an empty scene |
| `AppState.DeletedCanvasesSpec` | src/App.jsx:281-282 | no canvas with the id remains; every other canvas does, in order; the length drops by the number removed |
| `AppState.RenamedCanvasesSpec` | src/App.jsx:286-288 | the canvases with the id get the name and `updatedAt = now`, and keep id, scene and creation time; others are unchanged |
| `AppState.ScenedCanvasesSpec` | src/App.jsx:290-293 | the canvases with the id get the sanitised (clean) scene and `updatedAt = now`, and keep their id, name and `createdAt`; others are unchanged |
| `AppState.ActiveCategorySpec` | src/App.jsx:311-316 | each route lies in one of four sections: the board screens under boards, both note screens under notes, and unknown routes under overview |
| `AppState.FindBoard` | src/App.jsx:319 | the board found is the first with the id; none found means no board has it |
| `AppState.ActiveLabelSpec` | src/App.jsx:317-335 | on a board route the label is the name of the first board with the id, or `'Board'` when that name is null or no board matches; an unknown route is `'Workspace'` |
| `AppState.ApplyStatusSpec` | src/App.jsx:97-99 | carried keys are overwritten and the others kept; applying a partial twice is applying it once |
| `AppState.Round` | src/App.jsx:172 | `Math.round` gives the integer within half of its argument, halves rounded up |
| `AppState.FooterStatusSpec` | src/App.jsx:372-387 | every status has a text; an unknown status reads `'You are up to date'` |
| `AppState.FooterProgressSpec` | src/App.jsx:168-177 | after a progress event the footer shows the event's rounded percentage |
| `AppState.App.constructor` | src/App.jsx:84-94 | the initial state: the overview, no data, nothing selected, status idle |
| `AppState.App.Load` | src/App.jsx:119-140 | the stored collections are taken; with no stored note a starter note is added and selected |
| `AppState.App.ApplyUpdateStatus` | src/App.jsx:97-99 | the status becomes `ApplyStatus` of the old one |
| `AppState.App.OpenBoard` | src/App.jsx:228 | the route becomes the board |
| `AppState.App.ShowBoards` | src/App.jsx:229 | the route becomes the board list |
| `AppState.App.ShowNotesDashboard` | src/App.jsx:230 | the route becomes the notes dashboard |
| `AppState.App.ShowCanvasDashboard` | src/App.jsx:231 | the route becomes the overview |
| `AppState.App.CreateBoard` | src/App.jsx:234-239 | the new board goes first, the others after it unchanged, and it is opened |
| `AppState.App.UpdateBoard` | src/App.jsx:241 | the boards become `UpdatedBoards` of them |
| `AppState.App.DeleteBoard` | src/App.jsx:242-245 | the boards become `DeletedBoards` of them and the board list is shown |
| `AppState.App.CreateNote` | src/App.jsx:247-252 | the new note goes first, is selected, and the editor opens |
| `AppState.App.UpdateNote` | src/App.jsx:254-257 | the notes become `UpdatedNotes` of them |
| `AppState.App.DeleteNote` | src/App.jsx:259-262 | the note is removed and the selection cleared when it was that note |
| `AppState.App.SelectNote` | src/App.jsx:264-267 | the note is selected and the editor opens |
| `AppState.App.CreateCanvas` | src/App.jsx:269-274 | the new canvas goes first, is selected, and the workspace opens |
| `AppState.App.SelectCanvas` | src/App.jsx:276-279 | the canvas is selected and the workspace opens |
| `AppState.App.DeleteCanvas` | src/App.jsx:281-284 | the canvas is removed and the selection cleared when it was that canvas |
| `AppState.App.RenameCanvas` | src/App.jsx:286-288 | the canvases become `RenamedCanvases` of them |
| `AppState.App.UpdateCanvasScene` | src/App.jsx:290-293 | the canvases become `ScenedCanvases` of them |
| `AppState.App.SyncNoteSelection` | src/App.jsx:295-299 | on the notes screen with nothing selected, the first note is selected; otherwise nothing changes |
| `AppState.App.SyncCanvasSelection` | src/App.jsx:301-305 | the same for the canvas screen |
| `Dashboard.SortItemsPermutes` | src/views/Dashboard.jsx:42-46 | every sort choice only rearranges the items |
| `Dashboard.SortItemsMembers` | src/views/Dashboard.jsx:42-46 | sorting neither adds nor drops an item |
| `Dashboard.ItemsMembers` | src/views/Dashboard.jsx:32-36 | a board's item is in the mapped list exactly when the board is |
| `Dashboard.FilteredBoardsMembers` | src/views/Dashboard.jsx:30-49 | a board is listed exactly when it is one of the boards and its lowercased name contains the trimmed lowercased query, or the query is blank |
| `Dashboard.FilteredBoardsItems` | src/views/Dashboard.jsx:32-36 | each listed item is built from one of the boards, with its label colours and searchable name |
| `Dashboard.BlankQueryKeepsAll` | src/views/Dashboard.jsx:31-40 | with a blank query every board is listed, as often as it occurs |
| `Dashboard.FilteredBoardsOrder` | src/views/Dashboard.jsx:42-46 | for `'newest'` and any other non-name sort, the newest board comes first |
| `Dashboard.EmptyMessage` | src/views/Dashboard.jsx:51-55 | the invitation shows exactly when there are no boards |
| `Dashboard.EmptyMessageDependsOnCount` | src/views/Dashboard.jsx:51-55 | the message depends on the boards only through whether there are any |
| `NotesDashboard.ItemsSpec` | src/views/NotesDashboard.jsx:7-21 | the list rearranges the kept notes: every note for a blank query, else exactly those whose lowercased title and content contain the lowercased untrimmed query; unless sorted by title, the most recently updated come first |
| `CanvasDashboard.CodeUnit` | src/views/CanvasDashboard.jsx:26 | `charCodeAt(0)` is a UTF-16 code unit |
| `CanvasDashboard.PickCoverSpec` | src/views/CanvasDashboard.jsx:24-28 | the cover is one of the gradients; with an id it does not depend on the position; without one it is chosen by position |
| `CanvasDashboard.CodeSumAppend` | src/views/CanvasDashboard.jsx:26 | the code sum of a concatenation is the sum of the code sums |
| `CanvasDashboard.CodeSumPermutation` | src/views/CanvasDashboard.jsx:26 | strings holding the same characters with the same multiplicities, in any order, have the same code sum |
| `CanvasDashboard.ReorderedIdSameCover` | src/views/CanvasDashboard.jsx:24-28 | ids with the same characters in any order share a cover, at every position |
| `CanvasDashboard.CoverExample` | src/views/CanvasDashboard.jsx:24-28 | the id `"a"` gets the second gradient |
| `CanvasDashboard.SortItemsMembers` | src/views/CanvasDashboard.jsx:54-60 | sorting neither adds nor drops an item |
| `CanvasDashboard.FilteredCanvasesSpec` | src/views/CanvasDashboard.jsx:42-63 | a canvas is listed, with its position, exactly when its lowercased name contains the trimmed lowercased query, or the query is blank; every item comes from its position; non-name sorts put the latest edit first |
| `CanvasDashboard.PrimaryCanvasIdSpec` | src/views/CanvasDashboard.jsx:97 | the id is the first listed canvas's when it has one, else the first canvas's; it is always some canvas's id or `null`, and `null` with no canvases |
| `CanvasDashboard.CountEditedToday` | src/views/CanvasDashboard.jsx:82-84 | the count is at most the number of canvases |
| `CanvasDashboard.CountEditedTodaySpec` | src/views/CanvasDashboard.jsx:80-84 | the count is the number of canvases edited since the start of today |
| `CanvasDashboard.LastEditedSpec` | src/views/CanvasDashboard.jsx:78-88 | `lastEdited` is `null` only for no canvases, and otherwise one of the edit times |
| `CanvasDashboard.LastEditedIsLatest` | src/views/CanvasDashboard.jsx:85-87 | with non-negative edit times, `lastEdited` is the latest of them |
| `CanvasDashboard.ComputeStats` | src/views/CanvasDashboard.jsx:65-95 | the loop's total, today's count and latest edit time equal `|canvases|`, `CountEditedToday` and `LastEdited` |
| `CanvasDashboard.CommitRequestSpec` | src/views/CanvasDashboard.jsx:106-113 | a rename is requested exactly for a non-blank value, trimmed, for the canvas being edited |
| `CanvasDashboard.Renamer.constructor` | src/views/CanvasDashboard.jsx:39 | nothing is being edited |
| `CanvasDashboard.Renamer.StartEditing` | src/views/CanvasDashboard.jsx:99-104 | editing that canvas, starting from its name |
| `CanvasDashboard.Renamer.ChangeValue` | src/views/CanvasDashboard.jsx:222 | the typed value replaces the old one, and the canvas stays the same |
| `CanvasDashboard.Renamer.CommitEditing` | src/views/CanvasDashboard.jsx:106-113 | it requests `CommitRequest` of the editing state, and editing stops |
| `CanvasDashboard.Renamer.CancelEditing` | src/views/CanvasDashboard.jsx:115-117 | editing stops |
| `Overview.RecentBoardsSpec` | src/views/Overview.jsx:64 | the first four boards in order, or all when fewer |
| `Overview.TopSpec` | src/views/Overview.jsx:65-68 | the first `n` of a newest-first copy: at most `n` long, newest first, drawn from the input |
| `Overview.TopKeepsNewest` | src/views/Overview.jsx:65-68 | nothing left out is newer than anything kept |
| `Overview.OrderedNotesSpec` | src/views/Overview.jsx:65-68 | at most six notes, six when there are enough, newest first, all from the notes, none newer left out |
| `Overview.OrderedCanvasesSpec` | src/views/Overview.jsx:69-72 | the same for the canvases |
| `NotesWorkspace.OrderedNotesSpec` | src/views/NotesWorkspace.jsx:19-23 | the tabs are the notes, each as often as it occurs, oldest first |
| `NotesWorkspace.SelectedNote` | src/views/NotesWorkspace.jsx:25-27 | there is a note on screen exactly when there are tabs |
| `NotesWorkspace.SelectedNoteSpec` | src/views/NotesWorkspace.jsx:25-27 | the note on screen is the first tab with the selected id, else the first tab, else none |
| `NotesWorkspace.AutoSelect` | src/views/NotesWorkspace.jsx:29-33 | the first tab is selected exactly when nothing is selected and there are tabs |
| `NotesWorkspace.LineNumbersSpec` | src/views/NotesWorkspace.jsx:35-38 | one number per line break plus one, counting up from 1; `['1']` with no note |
| `NotesWorkspace.WordCountSpec` | src/views/NotesWorkspace.jsx:40-44 | the count is the number of maximal runs of visible characters, and 0 exactly for blank content |
| `NotesWorkspace.SliceTo` | src/views/NotesWorkspace.jsx:57 | `slice(0, i)` is a prefix of the clamped length |
| `NotesWorkspace.CaretAtSpec` | src/views/NotesWorkspace.jsx:52-62 | the line is one more than the line feeds before the caret; the column is one more than the characters since the last one |
| `NotesWorkspace.TabInsertSpec` | src/views/NotesWorkspace.jsx:94-98 | the selection is replaced by one tab |
| `NotesWorkspace.TabCaretSpec` | src/views/NotesWorkspace.jsx:101-105 | the caret after the tab is on the line of the selection start, one column further |
| `NotesWorkspace.Editor.constructor` | src/views/NotesWorkspace.jsx:15-17 | no suppressed change, caret at 1:1 |
| `NotesWorkspace.Editor.ContentChange` | src/views/NotesWorkspace.jsx:78-86 | with a note, a suppressed change clears the flag and is dropped, and any other change is sent |
| `NotesWorkspace.Editor.Tab` | src/views/NotesWorkspace.jsx:88-107 | with a note and a text area, the tab is inserted and sent, the flag set, and the caret put after the tab |
| `NotesWorkspace.Editor.Rename` | src/views/NotesWorkspace.jsx:73-76 | the note is sent with the new title and time and every other field kept; nothing without a note |
| `NotesWorkspace.Editor.UpdateCaret` | src/views/NotesWorkspace.jsx:52-62 | the caret becomes `CaretAt` of the text area |
| `NotesWorkspace.TabThenType` | src/views/NotesWorkspace.jsx:78-103 | the next content change after a Tab, whatever was typed, is dropped and clears the flag; the one after it is sent |
| `NotesWorkspace.TabKeepingEdits` | src/views/NotesWorkspace.jsx:88-107 | the Tab handler without the flag: the same inserted tab, sent note and caret |
| `NotesWorkspace.TabKeepsNextEdit` | src/views/NotesWorkspace.jsx:78-86 | with the flag-free Tab, the first content change after a Tab is sent |

## Left out

- Persistence: `localStorage`, `JSON.parse`/`JSON.stringify` and the load/save effects are not modelled as I/O. Each sanitiser's round trip and idempotence stand for them. A JSON parse failure (the `catch` that returns `[]`) is not modelled.
- `deepClone` is the identity on the records. JSON loses `undefined`, functions and non-finite numbers, and the records hold none of these.
- Random ids (`uid`, `Math.random`) and the clock (`Date.now()`, the start of today) are parameters.
- `localeCompare` is an abstract collation parameter. The name and title sorts are proved to be permutations only, since their order depends on the collation.
- `toLowerCase` is ASCII-only. `trim` and `\s` use a fixed set of white-space characters. The model has no Unicode case mapping.
- Strings are sequences of code points, where JavaScript uses UTF-16 code units. For the canvas cover the two agree: `Array.from(String(id))` iterates code points and `charCodeAt(0)` of one of them is its high surrogate above U+FFFF, which is what `CanvasDashboard.CodeUnit` computes.
- `CanvasDashboard.IdText`: `String(id)` is only approximated. It is exact for strings, booleans, objects and integers below 2^53 in magnitude. Larger integers are printed with all their digits, where JavaScript prints the shortest digits that read back as the same double and switches to exponent form at 1e21. Fractional numbers, arrays and `null` give `''`.
- JavaScript numbers are IEEE doubles; the model takes them as exact `real`s. This covers `Json.JNum`, the timestamps, the progress percentage, and the auto-scroll intensity and delta arithmetic, so rounding and overflow to infinity are not modelled.
- Board names that are not strings make `toLowerCase` throw in the dashboard. The model gives them the searchable text `''`.
- `CardModal.InitialForm` and the source's `initial?.x ?? ''` differ: the source keeps a non-string value, and the model replaces it with the default. The same holds for labels that are not an array.
- A card that is `null` in `updateCard`/`deleteCard` makes `x.id` throw. The model reads its id as missing.
- `BoardView.View.AddCard` and `BoardView.View.UpdateCard`: when no list has the id the source's updater throws inside `setLocal`, and with no error boundary around `<App/>` (src/index.jsx:11-12) React then unmounts the app. The model reports the error in `ok` and stops there; what React does after the throw is not modelled.
- Equality: JavaScript's `===`, `!==` and `Set` compare objects and arrays by reference (SameValueZero), while the model compares `Json` values structurally (`Seqs.Dedup`, `Lib.LabelColors`, `Hierarchy.FindList`, `Hierarchy.FindCard`, `AppState.RemoveWhere`). The two agree on the string and number ids and the string labels the app produces.
- `BoardView.View` has no counterpart for the persist effect `onUpdate(local)` (src/views/Board.jsx:50), the re-clone of `board` when `board.id` changes (:49), or the frame cancelled on unmount. `ScrollLists` adds the raw delta to a list's offset, where the browser clamps `scrollLeft`/`scrollTop` to the scrollable range.
- The import's merged board is not stored into `BoardView.View.local`. It is an object whose lists are not sanitised, so it does not fit the `Board` record. `Hierarchy.ImportBoardSpec` states what the merge holds. `FileReader`, `alert` and the export download are left out.
- The `typeof document/window/requestAnimationFrame` guards (server rendering) are left out. The model assumes a browser.
- `getBoundingClientRect` and the DOM lookup of a list's element are parameters of `RunFrame`.
- React effects that only move the sidebar, the window `resize` listener, the quick-actions sheet, and the Excalidraw, graph and settings views are not part of this model.
- The updater events other than download progress (`checking`, `available`, `downloaded`, `error`) are `StatusPatch` values passed to `ApplyUpdateStatus`. Only the progress patch `ProgressPatch` is written out, because it is the one that computes.
- `Math.round` is modelled only where the progress percentage uses it. It promises `x - 0.5 < n <= x + 0.5`, and is exact for the reals the model uses.
- `files instanceof Map` in `sanitizeCanvasScene` cannot arise from JSON and is not modelled.
- `CleanTagsSpec`: does not say that nothing else is kept. That half is `CleanTagsOrder`.
- `LastEditedIsLatest`: proves the maximum only for edit times that are never negative. The source treats a held `0` as no time at all and replaces it by whatever comes next, so a negative time after a `0` wins.
- `Overview.TopSpec`: among elements with equal keys, does not say which ones are kept. The sort keeps their input order (`Sorting.SortDescendingStable`), so the earlier ones are kept; the lemma states only that the result is a sub-multiset of the input and that nothing newer is left out (`TopKeepsNewest`).

## Findings

| source | as written | input that shows it | evidently intended | confidence | as-written member | corrected member |
|---|---|---|---|---|---|---|
| src/views/NotesWorkspace.jsx:88-100 | the Tab handler prevents the key's default, sends the new content itself and sets `suppressChangeRef`; since the text area is controlled, updating its value from props raises no change event, so the flag drops the next change the user makes | in a note, press Tab and then type one character: that character's change is dropped | the flag was meant for a change event of the Tab's own edit, which never comes, so every user edit after a Tab should be sent | medium, not executed | `NotesWorkspace.TabThenType` | `NotesWorkspace.TabKeepsNextEdit` |
