/** Gesture geometry: turning a drag into the annotated rectangle, and placing the
    comment input panel next to it. Coordinates are whole CSS pixels. */
module Geometry {

  datatype Point = Point(x: int, y: int)

  /** A box by its top-left corner and size. */
  datatype Rect = Rect(x: int, y: int, width: int, height: int)

  /** The browser window's inner size (`innerWidth`, `innerHeight`). */
  datatype Viewport = Viewport(innerWidth: int, innerHeight: int)

  /** A drag shorter than this on either axis counts as a click. */
  const MinDragSize: int := 10
  /** Side of the box a click produces. */
  const DefaultBoxSize: int := 100
  /** Horizontal gap between the box and the input panel. */
  const PanelGap: int := 10
  /** Room kept free at the right edge for the 320px-wide panel. */
  const PanelWidthReserve: int := 340
  /** Room kept free at the bottom edge for the panel. */
  const PanelHeightReserve: int := 250

  function Min(a: int, b: int): int {
    if a <= b then a else b
  }

  function Abs(a: int): int {
    if a < 0 then -a else a
  }

  /** `p` lies in `r`, borders included. */
  predicate Contains(r: Rect, p: Point) {
    r.x <= p.x <= r.x + r.width && r.y <= p.y <= r.y + r.height
  }

  /** `inner` lies within `outer`. */
  predicate Encloses(outer: Rect, inner: Rect) {
    && outer.x <= inner.x && inner.x + inner.width <= outer.x + outer.width
    && outer.y <= inner.y && inner.y + inner.height <= outer.y + outer.height
  }

  /** The box spanned by a drag from `a` to `b`: origin the component-wise
      minimum, size the absolute difference. It is the smallest box holding both
      points. */
  function SpanRect(a: Point, b: Point): (r: Rect)
    ensures r.width >= 0 && r.height >= 0
    ensures Contains(r, a) && Contains(r, b)
    ensures forall q :: Contains(q, a) && Contains(q, b) ==> Encloses(q, r)
  {
    Rect(Min(a.x, b.x), Min(a.y, b.y), Abs(b.x - a.x), Abs(b.y - a.y))
  }

  /** Both sides of the drag reach the minimum size. */
  predicate IsDrag(start: Point, end: Point) {
    Abs(end.x - start.x) >= MinDragSize && Abs(end.y - start.y) >= MinDragSize
  }

  /** The rectangle `finishDrawing` hands to the input panel. A real drag gives
      the spanned box; anything shorter on either axis is a click and gives a
      100x100 box whose top-left corner is the start point. */
  function DrawnRect(start: Point, end: Point): (r: Rect)
    ensures r.width >= MinDragSize && r.height >= MinDragSize
    ensures Contains(r, start)
    ensures IsDrag(start, end) ==>
              && Contains(r, end)
              && r.x == Min(start.x, end.x) && r.y == Min(start.y, end.y)
              && r.x + r.width == start.x + end.x - r.x
              && r.y + r.height == start.y + end.y - r.y
    ensures !IsDrag(start, end) ==>
              r.x == start.x && r.y == start.y
              && r.width == DefaultBoxSize && r.height == DefaultBoxSize
  {
    var span := SpanRect(start, end);
    if span.width < MinDragSize || span.height < MinDragSize then
      Rect(start.x, start.y, DefaultBoxSize, DefaultBoxSize)
    else
      span
  }

  /** Where the input panel's top-left corner goes: to the right of the box,
      top-aligned with it, the left capped at innerWidth - 340 and the top at
      innerHeight - 250. There is no lower cap. */
  function PanelOrigin(box: Rect, view: Viewport): (p: Point)
    ensures p.x <= view.innerWidth - PanelWidthReserve
    ensures p.y <= view.innerHeight - PanelHeightReserve
    ensures p.x <= box.x + box.width + PanelGap && p.y <= box.y
    ensures p.x == box.x + box.width + PanelGap || p.x == view.innerWidth - PanelWidthReserve
    ensures p.y == box.y || p.y == view.innerHeight - PanelHeightReserve
  {
    Point(Min(box.x + box.width + PanelGap, view.innerWidth - PanelWidthReserve),
          Min(box.y, view.innerHeight - PanelHeightReserve))
  }

  /** When there is room, the panel sits clear of the box on its right, a gap
      away, with its top level with the box's top. */
  lemma PanelBesideBoxWhenRoom(box: Rect, view: Viewport)
    requires box.x + box.width + PanelGap + PanelWidthReserve <= view.innerWidth
    requires box.y + PanelHeightReserve <= view.innerHeight
    requires box.width >= 0
    ensures PanelOrigin(box, view) == Point(box.x + box.width + PanelGap, box.y)
    ensures PanelOrigin(box, view).x > box.x + box.width
  {
  }

  /** There is no lower clamp: in a window narrower than the reserve, the
      panel's left coordinate is negative wherever the box is, and in a 300px
      window a box at the left edge puts it at -40. */
  lemma PanelCanLeaveLeftEdge(box: Rect, view: Viewport)
    requires view.innerWidth < PanelWidthReserve
    ensures PanelOrigin(box, view).x < 0
    ensures PanelOrigin(Rect(0, 0, 10, 10), Viewport(300, 800)).x == -40
  {
  }

  /** A click never yields a box centred on the click point: the start point is
      its top-left corner. */
  lemma ClickBoxAnchoredAtStart(start: Point, end: Point)
    requires !IsDrag(start, end)
    ensures DrawnRect(start, end) == Rect(start.x, start.y, DefaultBoxSize, DefaultBoxSize)
    ensures !Contains(DrawnRect(start, end), Point(start.x - 1, start.y))
  {
  }

  /** Normalisation does not depend on the drag direction. */
  lemma DrawnRectDirectionFree(a: Point, b: Point)
    requires IsDrag(a, b)
    ensures IsDrag(b, a) && DrawnRect(a, b) == DrawnRect(b, a)
  {
  }
}
