/**
 * The records the app keeps in memory, in the shape the persistence sanitisers produce.
 * Where JavaScript leaves a field untyped (an id or a name read back from storage is kept
 * as it is as long as it is not null), the field is a `Json` value; where the sanitiser
 * forces a type, the field has that type. Cards are kept as the stored JSON objects: the
 * sanitiser passes them through unchanged.
 */
module Records {
  import opened Wrappers
  import opened Json

  /** A list of a board: `{ id, title, cards }`. */
  datatype CardList = CardList(id: Json, title: Json, cards: seq<Json>)

  /** A kanban board: `{ id, name, wallpaper, createdAt, lists }`. */
  datatype Board = Board(id: Json, name: Json, wallpaper: Json, createdAt: real, lists: seq<CardList>)

  /** A note: `{ id, title, content, parentId, tags, createdAt, updatedAt, isDaily }`. */
  datatype Note = Note(id: Json, title: string, content: string, parentId: Option<string>,
                       tags: seq<string>, createdAt: real, updatedAt: real, isDaily: bool)

  /** A drawing scene: `{ elements, appState, files }`. */
  datatype Scene = Scene(elements: seq<Json>, appState: map<string, Json>, files: map<string, Json>)

  /** A canvas: `{ id, name, scene, createdAt, updatedAt }`. */
  datatype Canvas = Canvas(id: Json, name: string, scene: Scene, createdAt: real, updatedAt: real)

  /** `n.updatedAt || n.createdAt || 0`: the recency the note lists sort by. */
  function NoteRecency(n: Note): real {
    if n.updatedAt != 0.0 then n.updatedAt else n.createdAt
  }

  /** `c.updatedAt || c.createdAt || 0`: the recency the canvas lists sort by. */
  function CanvasRecency(c: Canvas): real {
    if c.updatedAt != 0.0 then c.updatedAt else c.createdAt
  }
}
