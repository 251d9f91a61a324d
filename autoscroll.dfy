/**
 * The edge auto-scroll of the board view: while a drag is in progress, a pointer close
 * to an edge of the board container (or, for a card drag, of the list it is over)
 * scrolls that container towards the edge, faster the closer the pointer is.
 * Geometry is over `real`: every fact here is an exact inequality.
 */
module AutoScroll {
  import opened Wrappers
  import opened Hierarchy

  /** Board container: scrolling starts 80px from an edge, at most 22px per frame. */
  const BOARD_THRESHOLD: real := 80.0
  const BOARD_MAX_STEP: real := 22.0
  /** List container (card drags only): 60px and 18px per frame, vertically. */
  const LIST_THRESHOLD: real := 60.0
  const LIST_MAX_STEP: real := 18.0

  datatype Point = Point(x: real, y: real)

  /** What `getBoundingClientRect` reports. */
  datatype Rect = Rect(left: real, top: real, right: real, bottom: real)

  /** The drag update the library reports on every pointer move; `selection` is `client?.selection`. */
  datatype DragUpdate = DragUpdate(kind: string, source: Location, destination: Option<Location>, selection: Option<Point>)

  function Min(a: real, b: real): real {
    if a <= b then a else b
  }

  /** How strongly to scroll at `offset` from an edge: `Math.min(1, (threshold - offset) / threshold)`. */
  function Intensity(offset: real, threshold: real): real
    requires threshold > 0.0
  {
    Min(1.0, (threshold - offset) / threshold)
  }

  /**
   * The scroll delta along one axis, given the pointer's distance `near` from the
   * left/top edge and `far` from the right/bottom edge: negative towards the near
   * edge, which is tested first, positive towards the far one, zero otherwise.
   */
  function EdgeDelta(near: real, far: real, threshold: real, maxStep: real): real
    requires threshold > 0.0
  {
    if near < threshold then -Intensity(near, threshold) * maxStep
    else if far < threshold then Intensity(far, threshold) * maxStep
    else 0.0
  }

  lemma QuotientPositive(a: real, t: real)
    requires a > 0.0 && t > 0.0
    ensures a / t > 0.0
  {
  }

  lemma QuotientAtLeastOne(a: real, t: real)
    requires a >= t > 0.0
    ensures a / t >= 1.0
  {
  }

  /** Inside the threshold the intensity is in (0, 1], and exactly 1 at the edge or beyond it. */
  lemma IntensityBounds(offset: real, threshold: real)
    requires threshold > 0.0 && offset < threshold
    ensures 0.0 < Intensity(offset, threshold) <= 1.0
    ensures offset <= 0.0 ==> Intensity(offset, threshold) == 1.0
  {
    QuotientPositive(threshold - offset, threshold);
    if offset <= 0.0 {
      QuotientAtLeastOne(threshold - offset, threshold);
    }
  }

  /**
   * The delta lies in `[-maxStep, maxStep]`; it is zero when the pointer is at least the
   * threshold away from both edges; near the left/top edge it is negative whatever
   * the other edge says; near only the right/bottom edge it is positive; on or past an
   * edge it is the full step.
   */
  lemma EdgeDeltaSpec(near: real, far: real, threshold: real, maxStep: real)
    requires threshold > 0.0 && maxStep > 0.0
    ensures var d := EdgeDelta(near, far, threshold, maxStep);
      && -maxStep <= d <= maxStep
      && (d == 0.0 <==> near >= threshold && far >= threshold)
      && (near < threshold ==> d < 0.0)
      && (near >= threshold && far < threshold ==> d > 0.0)
      && (near <= 0.0 ==> d == -maxStep)
      && (near >= threshold && far <= 0.0 ==> d == maxStep)
  {
    if near < threshold {
      IntensityBounds(near, threshold);
    } else if far < threshold {
      IntensityBounds(far, threshold);
    }
  }

  /** What one frame scrolls: the board container on both axes, and a list vertically. */
  datatype Scroll = Scroll(boardDx: real, boardDy: real, list: Option<string>, listDy: real)

  const NO_SCROLL: Scroll := Scroll(0.0, 0.0, None, 0.0)

  /**
   * `applyAutoScroll(update)`: nothing without an update or a pointer; the board
   * container's deltas when it is mounted; for a card drag only, the vertical delta of
   * the list under the destination (else the source), when that list's element is
   * found. `boardRect` and `listRect` stand for the DOM lookups; an empty id finds
   * no element.
   */
  function ApplyAutoScroll(update: Option<DragUpdate>, boardRect: Option<Rect>, listRect: string -> Option<Rect>): Scroll {
    if update.None? || update.value.selection.None? then NO_SCROLL
    else
      var u := update.value;
      var p := u.selection.value;
      var dx := if boardRect.Some? then EdgeDelta(p.x - boardRect.value.left, boardRect.value.right - p.x, BOARD_THRESHOLD, BOARD_MAX_STEP) else 0.0;
      var dy := if boardRect.Some? then EdgeDelta(p.y - boardRect.value.top, boardRect.value.bottom - p.y, BOARD_THRESHOLD, BOARD_MAX_STEP) else 0.0;
      if u.kind != "CARD" then Scroll(dx, dy, None, 0.0)
      else
        var id := if u.destination.Some? then u.destination.value.droppableId else u.source.droppableId;
        var el := if id == "" then None else listRect(id);
        if el.None? then Scroll(dx, dy, None, 0.0)
        else Scroll(dx, dy, Some(id), EdgeDelta(p.y - el.value.top, el.value.bottom - p.y, LIST_THRESHOLD, LIST_MAX_STEP))
  }

  /**
   * Every delta of a frame is bounded by its container's step; a list is scrolled only
   * in a card drag, and it is the destination list when there is one.
   */
  lemma ApplyAutoScrollSpec(update: Option<DragUpdate>, boardRect: Option<Rect>, listRect: string -> Option<Rect>)
    ensures var s := ApplyAutoScroll(update, boardRect, listRect);
      && -BOARD_MAX_STEP <= s.boardDx <= BOARD_MAX_STEP
      && -BOARD_MAX_STEP <= s.boardDy <= BOARD_MAX_STEP
      && -LIST_MAX_STEP <= s.listDy <= LIST_MAX_STEP
      && (boardRect.None? ==> s.boardDx == 0.0 && s.boardDy == 0.0)
      && (update.None? || update.value.selection.None? ==> s == NO_SCROLL)
      && (s.list.Some? ==> update.Some? && update.value.kind == "CARD" && s.list.value != ""
                           && s.list.value == (if update.value.destination.Some? then update.value.destination.value.droppableId
                                               else update.value.source.droppableId))
      && (s.list.None? ==> s.listDy == 0.0)
  {
    if update.Some? && update.value.selection.Some? {
      var u := update.value;
      var p := u.selection.value;
      if boardRect.Some? {
        var r := boardRect.value;
        EdgeDeltaSpec(p.x - r.left, r.right - p.x, BOARD_THRESHOLD, BOARD_MAX_STEP);
        EdgeDeltaSpec(p.y - r.top, r.bottom - p.y, BOARD_THRESHOLD, BOARD_MAX_STEP);
      }
      var id := if u.destination.Some? then u.destination.value.droppableId else u.source.droppableId;
      if u.kind == "CARD" && id != "" && listRect(id).Some? {
        var el := listRect(id).value;
        EdgeDeltaSpec(p.y - el.top, el.bottom - p.y, LIST_THRESHOLD, LIST_MAX_STEP);
      }
    }
  }

  /** A pointer 10px from the right edge of a 400px-wide container scrolls it right by 22 * 70/80 = 19.25px. */
  lemma RightEdgeExample()
    ensures EdgeDelta(390.0, 10.0, BOARD_THRESHOLD, BOARD_MAX_STEP) == 19.25
  {
    assert Intensity(10.0, BOARD_THRESHOLD) == 70.0 / 80.0;
  }
}
