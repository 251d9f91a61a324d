/**
 * The board view's own state: the working copy of the board it edits, the
 * `is-dragging` flag on the document body, the auto-scroll frame it has requested from
 * the browser, the scroll offsets of its containers, and the card being edited.
 */
module BoardView {
  import opened Wrappers
  import opened Json
  import opened Records
  import opened Hierarchy
  import opened AutoScroll

  /** The card the editor dialog is open on (`setEditCard({ listId, cardId })`). */
  datatype EditTarget = EditTarget(listId: Json, cardId: string)

  /** The list offsets after a frame: the scrolled list moves by its delta, starting from 0 when it was never scrolled. */
  function ScrollLists(offsets: map<string, real>, s: Scroll): (r: map<string, real>)
    ensures s.list.None? || s.listDy == 0.0 ==> r == offsets
    ensures s.list.Some? && s.listDy != 0.0 ==> var id := s.list.value;
      id in r && r[id] == (if id in offsets then offsets[id] else 0.0) + s.listDy
    ensures forall k :: k in offsets && Some(k) != s.list ==> k in r && r[k] == offsets[k]
    ensures r.Keys <= offsets.Keys + (if s.list.Some? then {s.list.value} else {})
  {
    if s.list.Some? && s.listDy != 0.0 then
      var id := s.list.value;
      offsets[id := (if id in offsets then offsets[id] else 0.0) + s.listDy]
    else offsets
  }

  class View {
    /** The working copy of the board every edit applies to. */
    var local: Board
    /** Whether the document body carries the `is-dragging` class. */
    var dragging: bool
    /** `autoScrollFrame.current`: the handle of the frame this view is waiting for. */
    var pending: Option<nat>
    /** The browser's animation-frame queue as far as this view is concerned: handle to the update its callback applies. */
    var queue: map<nat, Option<DragUpdate>>
    /** The handle the browser gives the next requested frame; handles are never 0. */
    var nextHandle: nat
    var scrollLeft: real
    var scrollTop: real
    /** `scrollTop` of each list element that has been scrolled, by droppable id. */
    var listScrollTop: map<string, real>
    var editCard: Option<EditTarget>

    /** At most one frame is queued, and it is the pending one. */
    ghost predicate Valid()
      reads this
    {
      && nextHandle >= 1
      && (pending.None? ==> queue == map[])
      && (pending.Some? ==> 1 <= pending.value < nextHandle && queue.Keys == {pending.value})
    }

    /** The view opened on `board`, on a clone of it. */
    constructor(board: Board)
      ensures Valid()
      ensures local == board && !dragging && pending == None && queue == map[]
      ensures scrollLeft == 0.0 && scrollTop == 0.0 && listScrollTop == map[] && editCard == None
    {
      local := board;
      dragging := false;
      pending := None;
      queue := map[];
      nextHandle := 1;
      scrollLeft := 0.0;
      scrollTop := 0.0;
      listScrollTop := map[];
      editCard := None;
    }

    /** `cancelAutoScroll`: cancel the pending frame, if any, and forget it. */
    method Cancel()
      requires Valid()
      modifies this
      ensures Valid()
      ensures pending == None && queue == map[]
      ensures queue == (if old(pending).Some? then old(queue) - {old(pending).value} else old(queue))
      ensures local == old(local) && dragging == old(dragging) && nextHandle == old(nextHandle)
      ensures scrollLeft == old(scrollLeft) && scrollTop == old(scrollTop) && listScrollTop == old(listScrollTop)
      ensures editCard == old(editCard)
    {
      if pending.Some? && pending.value != 0 {
        queue := queue - {pending.value};
      }
      pending := None;
    }

    /**
     * `scheduleAutoScroll(update)`: cancel the pending frame and request a new one that
     * will apply `update`; only the latest update remains queued.
     */
    method Schedule(update: Option<DragUpdate>) returns (h: nat)
      requires Valid()
      modifies this
      ensures Valid()
      ensures h == old(nextHandle) && pending == Some(h) && queue == map[h := update]
      ensures nextHandle == old(nextHandle) + 1
      ensures local == old(local) && dragging == old(dragging)
      ensures scrollLeft == old(scrollLeft) && scrollTop == old(scrollTop) && listScrollTop == old(listScrollTop)
      ensures editCard == old(editCard)
    {
      Cancel();
      h := nextHandle;
      queue := queue[h := update];
      nextHandle := nextHandle + 1;
      pending := Some(h);
    }

    /**
     * The browser runs queued frame `h`: its update is applied to the containers, whose
     * rectangles the page reports as `boardRect` and `listRect`, and the pending handle
     * is cleared. The frame run is the one scheduled last.
     */
    method RunFrame(h: nat, boardRect: Option<Rect>, listRect: string -> Option<Rect>)
      requires Valid() && h in queue
      modifies this
      ensures Valid()
      ensures old(pending) == Some(h)
      ensures pending == None && queue == map[]
      ensures var s := ApplyAutoScroll(old(queue)[h], boardRect, listRect);
        && scrollLeft == old(scrollLeft) + s.boardDx
        && scrollTop == old(scrollTop) + s.boardDy
        && listScrollTop == ScrollLists(old(listScrollTop), s)
      ensures local == old(local) && dragging == old(dragging) && nextHandle == old(nextHandle)
      ensures editCard == old(editCard)
    {
      var s := ApplyAutoScroll(queue[h], boardRect, listRect);
      if s.boardDx != 0.0 {
        scrollLeft := scrollLeft + s.boardDx;
      }
      if s.boardDy != 0.0 {
        scrollTop := scrollTop + s.boardDy;
      }
      if s.list.Some? && s.listDy != 0.0 {
        listScrollTop := ScrollLists(listScrollTop, s);
      }
      queue := queue - {h};
      pending := None;
    }

    /** `handleDragStart`: cancel any pending frame and mark the body as dragging. */
    method DragStart()
      requires Valid()
      modifies this
      ensures Valid()
      ensures dragging && pending == None && queue == map[]
      ensures local == old(local) && nextHandle == old(nextHandle)
      ensures scrollLeft == old(scrollLeft) && scrollTop == old(scrollTop) && listScrollTop == old(listScrollTop)
      ensures editCard == old(editCard)
    {
      Cancel();
      dragging := true;
    }

    /**
     * `handleDragEnd(result)`: the flag is cleared and the pending frame cancelled before
     * anything else, whether or not the drop moves anything; then the board is updated.
     */
    method DragEnd(result: DropResult)
      requires Valid()
      modifies this
      ensures Valid()
      ensures !dragging && pending == None && queue == map[]
      ensures local == Hierarchy.DragEnd(old(local), result)
      ensures nextHandle == old(nextHandle)
      ensures scrollLeft == old(scrollLeft) && scrollTop == old(scrollTop) && listScrollTop == old(listScrollTop)
      ensures editCard == old(editCard)
    {
      dragging := false;
      Cancel();
      local := Hierarchy.DragEnd(local, result);
    }

    /** `addList(title)`, `id` being the fresh list id. */
    method AddList(id: string, title: string)
      requires Valid()
      modifies this`local
      ensures local == Hierarchy.AddList(old(local), id, title)
      ensures Valid()
    {
      local := Hierarchy.AddList(local, id, title);
    }

    method DeleteList(listId: Json)
      requires Valid()
      modifies this`local
      ensures local == Hierarchy.DeleteList(old(local), listId)
      ensures Valid()
    {
      local := Hierarchy.DeleteList(local, listId);
    }

    /**
     * `addCard(listId)`, `cardId` being the fresh card id: the card is added and the
     * editor opened on it. When no list has that id the updater throws; `ok` reports
     * that error and the model stops there (what React then does is not modelled).
     */
    method AddCard(listId: Json, cardId: string) returns (ok: bool)
      requires Valid()
      modifies this`local, this`editCard
      ensures var r := Hierarchy.AddCard(old(local), listId, cardId);
        ok == r.Ok? && local == (if r.Ok? then r.value else old(local))
      ensures editCard == Some(EditTarget(listId, cardId))
      ensures Valid()
    {
      var r := Hierarchy.AddCard(local, listId, cardId);
      if r.Ok? {
        local := r.value;
      }
      ok := r.Ok?;
      editCard := Some(EditTarget(listId, cardId));
    }

    /**
     * `updateCard(listId, card)`. A missing list makes the updater throw; `ok` reports
     * that error and the model stops there (what React then does is not modelled).
     */
    method UpdateCard(listId: Json, card: Json) returns (ok: bool)
      requires Valid()
      modifies this`local
      ensures var r := Hierarchy.UpdateCard(old(local), listId, card);
        ok == r.Ok? && local == (if r.Ok? then r.value else old(local))
      ensures Valid()
    {
      var r := Hierarchy.UpdateCard(local, listId, card);
      if r.Ok? {
        local := r.value;
      }
      ok := r.Ok?;
    }

    method DeleteCard(listId: Json, cardId: Option<Json>)
      requires Valid()
      modifies this`local
      ensures local == Hierarchy.DeleteCard(old(local), listId, cardId)
      ensures Valid()
    {
      local := Hierarchy.DeleteCard(local, listId, cardId);
    }
  }

  /** Two successive schedules leave only the second update queued: the latest wins. */
  method LatestWins(v: View, u1: Option<DragUpdate>, u2: Option<DragUpdate>) returns (h2: nat)
    requires v.Valid()
    modifies v
    ensures v.Valid() && v.pending == Some(h2) && v.queue == map[h2 := u2]
  {
    var h1 := v.Schedule(u1);
    h2 := v.Schedule(u2);
  }

  // ---------------------------------------------------------------- drag styles

  /** The two flags of the library's drag snapshot that the style depends on. */
  datatype DragSnapshot = DragSnapshot(isDragging: bool, isDropAnimating: bool)

  const DROP_TRANSITION: string := "transform 180ms cubic-bezier(.2,1,.2,1)"

  /** `options.key`, `undefined` when absent. */
  function Lookup(m: map<string, Json>, key: string): Option<Json> {
    if key in m then Some(m[key]) else None
  }

  /**
   * `buildDragStyle(style, snapshot, options)`: a copy of the library's style, with the
   * z-index and opacity overrides while dragging and the drop transition while the drop
   * animates.
   */
  function BuildDragStyle(style: map<string, Json>, snapshot: DragSnapshot, options: map<string, Json>): map<string, Json> {
    var copy := if "transform" in style && Truthy(Some(style["transform"])) then style["transform" := style["transform"]] else style;
    var withZ := if snapshot.isDragging && "dragZIndex" in options then copy["zIndex" := options["dragZIndex"]] else copy;
    var withOpacity := if snapshot.isDragging && "dragOpacity" in options then withZ["opacity" := options["dragOpacity"]] else withZ;
    if snapshot.isDropAnimating then withOpacity["transition" := Coalesce(Lookup(options, "dropTransition"), JStr(DROP_TRANSITION))]
    else withOpacity
  }

  /**
   * The style keeps every property it was given other than the three it may set; it sets
   * `zIndex` and `opacity` only while dragging and only when an override is given, and
   * `transition` exactly while the drop animates, to the given transition or the
   * default; at rest it is the given style.
   */
  lemma BuildDragStyleSpec(style: map<string, Json>, snapshot: DragSnapshot, options: map<string, Json>)
    ensures var r := BuildDragStyle(style, snapshot, options);
      && (forall k :: k in style && k != "zIndex" && k != "opacity" && k != "transition" ==> k in r && r[k] == style[k])
      && (forall k :: k in r ==> k in style || k == "zIndex" || k == "opacity" || k == "transition")
      && (Lookup(r, "zIndex") == if snapshot.isDragging && "dragZIndex" in options then Some(options["dragZIndex"]) else Lookup(style, "zIndex"))
      && (Lookup(r, "opacity") == if snapshot.isDragging && "dragOpacity" in options then Some(options["dragOpacity"]) else Lookup(style, "opacity"))
      && (Lookup(r, "transition") == if snapshot.isDropAnimating then Some(Coalesce(Lookup(options, "dropTransition"), JStr(DROP_TRANSITION))) else Lookup(style, "transition"))
      && (!snapshot.isDragging && !snapshot.isDropAnimating ==> r == style)
  {
  }
}
