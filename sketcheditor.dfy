/**
 * The 3D editor's sketch helpers (main-fixed.js): the distance from a point
 * to a line segment, whether a point is inside a sketched shape, the
 * snapping fallback, resizing a rectangle from one of its handles, and the
 * cursor shown over each handle.
 *
 * Sketched shapes lie in the ground plane; their `y` coordinates are the
 * world `z` the source passes around.
 */
module SketchEditor {
  import opened Wrappers
  import opened JsNum
  import opened Geometry
  import Tools
  import Grid
  import Drawing

  // ---------------------------------------------------------------------
  // Distance to a segment
  // ---------------------------------------------------------------------

  /**
   * `distanceToLineSegment`, squared (the source takes the square root of
   * this value last): the distance to the nearest point of the segment, the
   * projection parameter clamped to [0, 1]; for a zero-length segment the
   * distance to its one point.
   */
  function SegmentDistance2(p: Vec2, a: Vec2, b: Vec2): (d2: real)
    ensures d2 >= 0.0
    ensures Drawing.Dist2(a, b) == 0.0 ==> d2 == Drawing.Dist2(p, a)
  {
    if Drawing.Dist2(a, b) == 0.0 then
      Dist2NonNegative(p, a);
      Drawing.Dist2(p, a)
    else
      var c := Drawing.ClosestOnSegment(p, a, b);
      Dist2NonNegative(p, c);
      Drawing.Dist2(p, c)
  }

  lemma Dist2NonNegative(a: Vec2, b: Vec2)
    ensures Drawing.Dist2(a, b) >= 0.0
  {
    var dx, dy := a.x - b.x, a.y - b.y;
    assert dx * dx >= 0.0 && dy * dy >= 0.0;
  }

  /** The point a fraction `u` of the way from `a` to `b`. */
  function PointAlong(a: Vec2, b: Vec2, u: real): Vec2
  {
    Vec2(a.x + u * (b.x - a.x), a.y + u * (b.y - a.y))
  }

  /** `d0 - 2*u*dot + u*u*l2`, a quadratic in `u`. */
  function Quadratic(d0: real, dot: real, l2: real, u: real): real
  {
    d0 - 2.0 * u * dot + u * u * l2
  }

  /** The squared distance from `p` to `PointAlong(a, b, u)`, as a quadratic in `u`. */
  lemma DistanceAlong(p: Vec2, a: Vec2, b: Vec2, u: real)
    ensures Drawing.Dist2(p, PointAlong(a, b, u))
            == Quadratic(Drawing.Dist2(p, a), Drawing.Dot(p, a, b), Drawing.Dist2(a, b), u)
  {
    ExpandedDistanceAlong(p, a, b, u);
    assert Drawing.Dot(p, a, b) == (p.x - a.x) * (b.x - a.x) + (p.y - a.y) * (b.y - a.y);
  }

  lemma ExpandedDistanceAlong(p: Vec2, a: Vec2, b: Vec2, u: real)
    ensures var dot := (p.x - a.x) * (b.x - a.x) + (p.y - a.y) * (b.y - a.y);
            Drawing.Dist2(p, PointAlong(a, b, u)) == Drawing.Dist2(p, a) - 2.0 * u * dot + u * u * Drawing.Dist2(a, b)
  {
    var q := PointAlong(a, b, u);
    assert p.x - q.x == (p.x - a.x) - u * (b.x - a.x);
    assert p.y - q.y == (p.y - a.y) - u * (b.y - a.y);
    ExpandSquare(p.x - a.x, b.x - a.x, u);
    ExpandSquare(p.y - a.y, b.y - a.y, u);
  }

  lemma ExpandSquare(d: real, c: real, u: real)
    ensures (d - u * c) * (d - u * c) == d * d - 2.0 * u * (d * c) + u * u * (c * c)
  {
  }

  /**
   * The clamped projection is the nearest point of the segment: no point of
   * it is closer. A zero-length segment is taken to be one point (`a == b`):
   * in floating point a squared length can underflow to 0 for distinct
   * ends, so the model does not derive `a == b` from a zero length.
   */
  lemma SegmentDistanceIsLeast(p: Vec2, a: Vec2, b: Vec2, u: real)
    requires 0.0 <= u <= 1.0
    requires Drawing.Dist2(a, b) != 0.0 || a == b
    ensures SegmentDistance2(p, a, b) <= Drawing.Dist2(p, PointAlong(a, b, u))
  {
    if Drawing.Dist2(a, b) == 0.0 {
      assert PointAlong(a, b, u) == a;
    } else {
      ProjectionIsLeast(p, a, b, u);
    }
  }

  lemma ProjectionIsLeast(p: Vec2, a: Vec2, b: Vec2, u: real)
    requires 0.0 <= u <= 1.0 && Drawing.Dist2(a, b) != 0.0
    ensures Drawing.Dist2(p, Drawing.ClosestOnSegment(p, a, b)) <= Drawing.Dist2(p, PointAlong(a, b, u))
  {
    var t := Drawing.SegmentParameter(p, a, b);
    ClosestIsAlong(p, a, b);
    DistanceAlong(p, a, b, u);
    DistanceAlong(p, a, b, t);
    ParameterIsLeast(p, a, b, u);
  }

  lemma ClosestIsAlong(p: Vec2, a: Vec2, b: Vec2)
    requires Drawing.Dist2(a, b) != 0.0
    ensures Drawing.ClosestOnSegment(p, a, b) == PointAlong(a, b, Drawing.SegmentParameter(p, a, b))
  {
  }

  /** The projection parameter minimises the quadratic part of `DistanceAlong`. */
  lemma ParameterIsLeast(p: Vec2, a: Vec2, b: Vec2, u: real)
    requires 0.0 <= u <= 1.0 && Drawing.Dist2(a, b) != 0.0
    ensures var d0, dot, l2 := Drawing.Dist2(p, a), Drawing.Dot(p, a, b), Drawing.Dist2(a, b);
            Quadratic(d0, dot, l2, Drawing.SegmentParameter(p, a, b)) <= Quadratic(d0, dot, l2, u)
  {
    var l2 := Drawing.Dist2(a, b);
    var dot := Drawing.Dot(p, a, b);
    var raw := dot / l2;
    var t := Drawing.SegmentParameter(p, a, b);
    assert t == (if raw < 0.0 then 0.0 else if raw > 1.0 then 1.0 else raw);
    LengthIsPositive(a, b);
    QuadraticLeast(u, t, raw, l2, dot);
  }

  /** A squared length that is not 0 is positive. */
  lemma LengthIsPositive(a: Vec2, b: Vec2)
    requires Drawing.Dist2(a, b) != 0.0
    ensures Drawing.Dist2(a, b) > 0.0
  {
    Square(a.x - b.x);
    Square(a.y - b.y);
  }

  lemma Square(x: real)
    ensures x * x >= 0.0
    ensures x != 0.0 ==> x * x > 0.0
  {
    if x < 0.0 {
      assert x * x == (-x) * (-x);
    }
  }

  /** On [0, 1] the quadratic `u*u*l2 - 2*u*dot` is least at `raw = dot / l2` clamped to [0, 1]. */
  lemma QuadraticLeast(u: real, t: real, raw: real, l2: real, dot: real)
    requires 0.0 <= u <= 1.0 && l2 > 0.0 && raw == dot / l2
    requires t == (if raw < 0.0 then 0.0 else if raw > 1.0 then 1.0 else raw)
    ensures t * t * l2 - 2.0 * t * dot <= u * u * l2 - 2.0 * u * dot
  {
    assert dot == raw * l2;
    assert t * t * l2 - 2.0 * t * dot == l2 * (t * t - 2.0 * t * raw);
    assert u * u * l2 - 2.0 * u * dot == l2 * (u * u - 2.0 * u * raw);
    UnitQuadraticLeast(u, t, raw);
    ScaleKeepsOrder(l2, t * t - 2.0 * t * raw, u * u - 2.0 * u * raw);
  }

  lemma ScaleKeepsOrder(k: real, a: real, b: real)
    requires k >= 0.0 && a <= b
    ensures k * a <= k * b
  {
    assert k * b - k * a == k * (b - a);
  }

  /** `x*x - 2*x*raw` on [0, 1] is least at `raw` clamped to [0, 1]. */
  lemma UnitQuadraticLeast(u: real, t: real, raw: real)
    requires 0.0 <= u <= 1.0
    requires t == (if raw < 0.0 then 0.0 else if raw > 1.0 then 1.0 else raw)
    ensures t * t - 2.0 * t * raw <= u * u - 2.0 * u * raw
  {
    if raw < 0.0 {
      Square(u);
      assert u * raw <= 0.0;
    } else if raw > 1.0 {
      assert u * u - 2.0 * u * raw - (1.0 - 2.0 * raw) == (1.0 - u) * (2.0 * raw - 1.0 - u);
      ScaleKeepsOrder(2.0 * raw - 1.0 - u, 0.0, 1.0 - u);
    } else {
      assert u * u - 2.0 * u * raw - (t * t - 2.0 * t * raw) == (u - t) * (u - t);
      Square(u - t);
    }
  }

  /** Both ends of a segment are at distance 0 from it, and no point is farther from it than from either end. */
  lemma SegmentEnds(p: Vec2, a: Vec2, b: Vec2)
    requires Drawing.Dist2(a, b) != 0.0 || a == b
    ensures SegmentDistance2(p, a, b) <= Drawing.Dist2(p, a)
    ensures SegmentDistance2(p, a, b) <= Drawing.Dist2(p, b)
    ensures SegmentDistance2(a, a, b) == 0.0 && SegmentDistance2(b, a, b) == 0.0
  {
    SegmentDistanceIsLeast(p, a, b, 0.0);
    assert PointAlong(a, b, 0.0) == a;
    SegmentDistanceIsLeast(p, a, b, 1.0);
    assert PointAlong(a, b, 1.0) == b;
    SegmentDistanceIsLeast(a, a, b, 0.0);
    SegmentDistanceIsLeast(b, a, b, 1.0);
  }

  // ---------------------------------------------------------------------
  // Point in shape
  // ---------------------------------------------------------------------

  /** The `userData.type` of a sketched shape. */
  datatype ShapeType = LineType | RectangleType | CircleType | OtherType(name: string)

  /**
   * `isPointInsideShape`: false without both corner points; within the
   * tolerance of a line; inside a rectangle's bounds, edges included; not
   * farther than the radius from a circle's centre (`startPoint`, the
   * radius reaching `endPoint`); false for any other type. The square
   * roots are compared as squares.
   */
  function PointInsideShape(p: Vec2, kind: ShapeType, start: Option<Vec2>, end: Option<Vec2>, tolerance: real): (inside: bool)
    ensures start.None? || end.None? ==> !inside
    ensures kind.OtherType? ==> !inside
    ensures start.Some? && end.Some? && kind == RectangleType ==>
      (inside <==> Min(start.value.x, end.value.x) <= p.x <= Max(start.value.x, end.value.x)
                   && Min(start.value.y, end.value.y) <= p.y <= Max(start.value.y, end.value.y))
    ensures start.Some? && end.Some? && kind == CircleType ==>
      (inside <==> Drawing.Dist2(p, start.value) <= Drawing.Dist2(end.value, start.value))
  {
    if start.None? || end.None? then false
    else
      var s, e := start.value, end.value;
      match kind
      case LineType => Drawing.WithinDistance(SegmentDistance2(p, s, e), tolerance)
      case RectangleType =>
        var minX, maxX := Min(s.x, e.x), Max(s.x, e.x);
        var minZ, maxZ := Min(s.y, e.y), Max(s.y, e.y);
        p.x >= minX && p.x <= maxX && p.y >= minZ && p.y <= maxZ
      case CircleType => SqrtAtMost(Drawing.Dist2(p, s), Drawing.Dist2(e, s))
      case OtherType(_) => false
  }

  /** `Math.sqrt(a) <= Math.sqrt(b)` for non-negative `a` and `b`: the square root keeps order. */
  predicate SqrtAtMost(a: real, b: real)
  {
    a <= b
  }

  /** Every point of a line lies on it, whatever the (non-negative) tolerance. */
  lemma PointsOfLineAreInside(a: Vec2, b: Vec2, u: real, tolerance: real)
    requires 0.0 <= u <= 1.0 && tolerance >= 0.0
    requires Drawing.Dist2(a, b) != 0.0 || a == b
    ensures PointInsideShape(PointAlong(a, b, u), LineType, Some(a), Some(b), tolerance)
  {
    var p := PointAlong(a, b, u);
    SegmentDistanceIsLeast(p, a, b, u);
    assert Drawing.Dist2(p, p) == 0.0;
  }

  /** A rectangle holds both of its defining corners, and a circle its centre and its rim point. */
  lemma CornersAndCentreAreInside(s: Vec2, e: Vec2, tolerance: real)
    ensures PointInsideShape(s, RectangleType, Some(s), Some(e), tolerance)
    ensures PointInsideShape(e, RectangleType, Some(s), Some(e), tolerance)
    ensures PointInsideShape(s, CircleType, Some(s), Some(e), tolerance)
    ensures PointInsideShape(e, CircleType, Some(s), Some(e), tolerance)
  {
    assert Drawing.Dist2(s, s) == 0.0;
  }

  // ---------------------------------------------------------------------
  // Snapping fallback
  // ---------------------------------------------------------------------

  /** The grid the editor snaps to when no dynamic grid exists: a foot. */
  const FallbackGridSize: real := 12.0

  /** `snapToGrid`: the dynamic grid's snapping when there is one (its minor spacing given), else the nearest foot. */
  function SnapToGrid(p: Vec2, dynamicGridSpacing: Option<real>): (r: Vec2)
    ensures dynamicGridSpacing.Some? ==> r == Grid.SnapToGrid(p, dynamicGridSpacing.value)
  {
    match dynamicGridSpacing
    case Some(s) => Grid.SnapToGrid(p, s)
    case None => Vec2(Grid.SnapCoordinate(p.x, FallbackGridSize), Grid.SnapCoordinate(p.y, FallbackGridSize))
  }

  /** Without a dynamic grid both coordinates become the nearest multiples of 12, at most 6 away. */
  lemma FallbackSnapsToFeet(p: Vec2)
    ensures var r := SnapToGrid(p, None);
            Grid.IsMultipleOf(r.x, 12.0) && Grid.IsMultipleOf(r.y, 12.0)
            && Abs(r.x - p.x) <= 6.0 && Abs(r.y - p.y) <= 6.0
  {
    Grid.SnapIsNearestMultiple(p.x, FallbackGridSize);
    Grid.SnapIsNearestMultiple(p.y, FallbackGridSize);
  }

  // ---------------------------------------------------------------------
  // Handles
  // ---------------------------------------------------------------------

  /** The handle types the editor puts on rectangles, circles and lines. */
  datatype EditorHandle =
    | CornerTL | CornerTR | CornerBR | CornerBL
    | EdgeTop | EdgeRight | EdgeBottom | EdgeLeft
    | CircleRight | CircleLeft | CircleTop | CircleBottom
    | LineStart | LineEnd | LineMove
    | UnknownHandle(name: string)

  /** `getHandleCursor`. */
  function HandleCursor(h: EditorHandle): (c: string)
    ensures h.UnknownHandle? <==> c == "default"
    ensures (h == CornerTL || h == CornerBR) <==> c == "nw-resize"
    ensures (h == CornerTR || h == CornerBL) <==> c == "ne-resize"
  {
    match h
    case CornerTL => "nw-resize"
    case CornerBR => "nw-resize"
    case CornerTR => "ne-resize"
    case CornerBL => "ne-resize"
    case EdgeTop => "n-resize"
    case EdgeBottom => "n-resize"
    case EdgeLeft => "e-resize"
    case EdgeRight => "e-resize"
    case CircleRight => "e-resize"
    case CircleLeft => "e-resize"
    case CircleTop => "n-resize"
    case CircleBottom => "n-resize"
    case LineStart => "move"
    case LineEnd => "move"
    case LineMove => "move"
    case UnknownHandle(_) => "default"
  }

  /** The direction a resize cursor shows, whichever of the two cursor vocabularies names it. */
  function CursorDirection(c: string): string
  {
    if c == "nw-resize" || c == "nwse-resize" then "nw-se"
    else if c == "ne-resize" || c == "nesw-resize" then "ne-sw"
    else if c == "n-resize" || c == "ns-resize" then "n-s"
    else if c == "e-resize" || c == "ew-resize" then "e-w"
    else c
  }

  /** The 2D tool's handle at the same place on a rectangle. */
  function ToolsHandle(h: EditorHandle): Option<Tools.HandleType>
  {
    match h
    case CornerTL => Some(Tools.ResizeTL)
    case CornerTR => Some(Tools.ResizeTR)
    case CornerBR => Some(Tools.ResizeBR)
    case CornerBL => Some(Tools.ResizeBL)
    case EdgeTop => Some(Tools.ResizeT)
    case EdgeRight => Some(Tools.ResizeR)
    case EdgeBottom => Some(Tools.ResizeB)
    case EdgeLeft => Some(Tools.ResizeL)
    case _ => None
  }

  /**
   * The editor's cursor for each rectangle handle points the same way as
   * the 2D tool's corrected cursor for the same handle: corners diagonally,
   * opposite corners alike, edges across the edge.
   */
  lemma CursorsAgreeWithTools(h: EditorHandle)
    requires ToolsHandle(h).Some?
    ensures CursorDirection(HandleCursor(h)) == CursorDirection(Tools.CursorFor(ToolsHandle(h).value))
  {
  }

  // ---------------------------------------------------------------------
  // Resizing a rectangle from a handle
  // ---------------------------------------------------------------------

  /** A rectangle's bounds: `start` is the top-left corner once ordered. */
  datatype Box = Box(startX: real, startY: real, endX: real, endY: real)

  predicate MovesStartX(h: EditorHandle) { h == CornerTL || h == CornerBL || h == EdgeLeft }
  predicate MovesEndX(h: EditorHandle) { h == CornerTR || h == CornerBR || h == EdgeRight }
  predicate MovesStartY(h: EditorHandle) { h == CornerTL || h == CornerTR || h == EdgeTop }
  predicate MovesEndY(h: EditorHandle) { h == CornerBR || h == CornerBL || h == EdgeBottom }

  /**
   * The bounds after dragging handle `h` by `delta`, before reordering:
   * each edge the handle holds moves with the drag (screen `y` inverted),
   * every other edge stays.
   */
  function DraggedBox(b: Box, h: EditorHandle, delta: Vec2): (r: Box)
    ensures r.startX == (if MovesStartX(h) then b.startX + delta.x else b.startX)
    ensures r.endX == (if MovesEndX(h) then b.endX + delta.x else b.endX)
    ensures r.startY == (if MovesStartY(h) then b.startY - delta.y else b.startY)
    ensures r.endY == (if MovesEndY(h) then b.endY - delta.y else b.endY)
  {
    match h
    case CornerTL => b.(startX := b.startX + delta.x, startY := b.startY + -delta.y)
    case CornerTR => b.(endX := b.endX + delta.x, startY := b.startY + -delta.y)
    case CornerBR => b.(endX := b.endX + delta.x, endY := b.endY + -delta.y)
    case CornerBL => b.(startX := b.startX + delta.x, endY := b.endY + -delta.y)
    case EdgeTop => b.(startY := b.startY + -delta.y)
    case EdgeRight => b.(endX := b.endX + delta.x)
    case EdgeBottom => b.(endY := b.endY + -delta.y)
    case EdgeLeft => b.(startX := b.startX + delta.x)
    case _ => b
  }

  /** The bounds with each axis's two values put in order. */
  function OrderedBox(b: Box): (r: Box)
    ensures r.startX == Min(b.startX, b.endX) && r.endX == Max(b.startX, b.endX)
    ensures r.startY == Min(b.startY, b.endY) && r.endY == Max(b.startY, b.endY)
  {
    var ys := if b.startY > b.endY then b.(startY := b.endY, endY := b.startY) else b;
    if ys.startX > ys.endX then ys.(startX := ys.endX, endX := ys.startX) else ys
  }

  /** Ordering is idempotent: ordered bounds are left alone. */
  lemma OrderedBoxIdempotent(b: Box)
    ensures OrderedBox(OrderedBox(b)) == OrderedBox(b)
    ensures b.startX <= b.endX && b.startY <= b.endY ==> OrderedBox(b) == b
  {
  }

  /** A handle dragged less than the rectangle's size keeps the opposite edges where they were. */
  lemma SmallDragKeepsOppositeEdges(b: Box, h: EditorHandle, delta: Vec2)
    requires b.startX <= b.endX && b.startY <= b.endY
    requires MovesEndX(h) ==> b.startX <= b.endX + delta.x
    requires MovesStartX(h) ==> b.startX + delta.x <= b.endX
    requires MovesEndY(h) ==> b.startY <= b.endY - delta.y
    requires MovesStartY(h) ==> b.startY - delta.y <= b.endY
    ensures var r := OrderedBox(DraggedBox(b, h, delta));
            (!MovesStartX(h) ==> r.startX == b.startX) && (!MovesEndX(h) ==> r.endX == b.endX)
            && (!MovesStartY(h) ==> r.startY == b.startY) && (!MovesEndY(h) ==> r.endY == b.endY)
  {
  }

  /** The bounds object the editor updates in place. */
  class RectBounds {
    var startX: real
    var startY: real
    var endX: real
    var endY: real

    function Value(): Box
      reads this
    {
      Box(startX, startY, endX, endY)
    }

    constructor(b: Box)
      ensures Value() == b
    {
      startX, startY, endX, endY := b.startX, b.startY, b.endX, b.endY;
    }
  }

  /**
   * `updateRectangleFromHandle`: move the edges the handle holds, then swap
   * each axis's values if they are out of order.
   */
  method UpdateRectangleFromHandle(bounds: RectBounds, h: EditorHandle, delta: Vec2)
    modifies bounds
    ensures bounds.Value() == OrderedBox(DraggedBox(old(bounds.Value()), h, delta))
    ensures bounds.startX <= bounds.endX && bounds.startY <= bounds.endY
  {
    match h {
      case CornerTL =>
        bounds.startX := bounds.startX + delta.x;
        bounds.startY := bounds.startY + -delta.y;
      case CornerTR =>
        bounds.endX := bounds.endX + delta.x;
        bounds.startY := bounds.startY + -delta.y;
      case CornerBR =>
        bounds.endX := bounds.endX + delta.x;
        bounds.endY := bounds.endY + -delta.y;
      case CornerBL =>
        bounds.startX := bounds.startX + delta.x;
        bounds.endY := bounds.endY + -delta.y;
      case EdgeTop =>
        bounds.startY := bounds.startY + -delta.y;
      case EdgeRight =>
        bounds.endX := bounds.endX + delta.x;
      case EdgeBottom =>
        bounds.endY := bounds.endY + -delta.y;
      case EdgeLeft =>
        bounds.startX := bounds.startX + delta.x;
      case _ =>
    }
    if bounds.startY > bounds.endY {
      var temp := bounds.startY;
      bounds.startY := bounds.endY;
      bounds.endY := temp;
    }
    if bounds.startX > bounds.endX {
      var temp := bounds.startX;
      bounds.startX := bounds.endX;
      bounds.endX := temp;
    }
  }
}
