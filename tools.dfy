/**
 * The 2D drawing tools (tools.js): the select tool's move and resize drags
 * on rectangles, circles and lines, the line, rectangle and circle tools'
 * press-drag-release creation with their minimum sizes, the cursor shown
 * over a handle, and deleting the selection.
 *
 * Points handed to the tools are world coordinates after the optional grid
 * snap; hit tests and handle hit tests are parameters.
 */
module Tools {
  import opened Wrappers
  import opened Text
  import opened Geometry
  import opened JsNum

  // ---------------------------------------------------------------------
  // Shapes and handles
  // ---------------------------------------------------------------------

  /** A drawn object's geometry; `x`, `y` of a rectangle is its top-left corner. */
  datatype Shape =
    | Rect(x: real, y: real, width: real, height: real)
    | Circle(center: Vec2, radius: real)
    | Line(start: Vec2, end: Vec2)

  datatype HandleType =
    | Move
    | ResizeTL | ResizeTR | ResizeBR | ResizeBL
    | ResizeT | ResizeB | ResizeL | ResizeR
    | ResizeStart | ResizeEnd
    | ResizeE | ResizeW | ResizeS | ResizeN

  /** The handle's `type` string. */
  function HandleName(h: HandleType): (s: string)
    ensures h != Move ==> StartsWith(s, "resize-")
  {
    match h
    case Move => "move"
    case ResizeTL => "resize-tl"
    case ResizeTR => "resize-tr"
    case ResizeBR => "resize-br"
    case ResizeBL => "resize-bl"
    case ResizeT => "resize-t"
    case ResizeB => "resize-b"
    case ResizeL => "resize-l"
    case ResizeR => "resize-r"
    case ResizeStart => "resize-start"
    case ResizeEnd => "resize-end"
    case ResizeE => "resize-e"
    case ResizeW => "resize-w"
    case ResizeS => "resize-s"
    case ResizeN => "resize-n"
  }

  /** A rectangle handle on the left side: the only rectangle handle names containing `l`. */
  predicate FromLeft(h: HandleType)
  {
    h == ResizeTL || h == ResizeBL || h == ResizeL
  }

  /** A rectangle handle on the top side: the only rectangle handle names containing `t`. */
  predicate FromTop(h: HandleType)
  {
    h == ResizeTL || h == ResizeTR || h == ResizeT
  }

  // ---------------------------------------------------------------------
  // Move and resize drags
  // ---------------------------------------------------------------------

  /** A move drag: every coordinate of the original shifted by the total mouse delta. */
  function Moved(o: Shape, dx: real, dy: real): (r: Shape)
    ensures r.Rect? == o.Rect? && r.Circle? == o.Circle? && r.Line? == o.Line?
    ensures o.Rect? ==> r.width == o.width && r.height == o.height
    ensures o.Circle? ==> r.radius == o.radius
  {
    match o
    case Rect(x, y, w, h) => Rect(x + dx, y + dy, w, h)
    case Circle(c, rad) => Circle(Vec2(c.x + dx, c.y + dy), rad)
    case Line(s, e) => Line(Vec2(s.x + dx, s.y + dy), Vec2(e.x + dx, e.y + dy))
  }

  /** Dragging back by the opposite delta restores the shape. */
  lemma MovedBack(o: Shape, dx: real, dy: real)
    ensures Moved(Moved(o, dx, dy), -dx, -dy) == o
  {
  }

  /** Two moves make one move by the summed delta. */
  lemma MovedComposes(o: Shape, dx1: real, dy1: real, dx2: real, dy2: real)
    ensures Moved(Moved(o, dx1, dy1), dx2, dy2) == Moved(o, dx1 + dx2, dy1 + dy2)
  {
  }

  /** Smallest width, height (and twice the smallest radius or length) a resize leaves. */
  const MinDimension: real := 0.1

  /**
   * A rectangle resize: the dragged sides follow the mouse, then a width
   * or height below the minimum is set to it, keeping the opposite side
   * where it was.
   */
  function ResizedRect(o: Shape, h: HandleType, dx: real, dy: real): (r: Shape)
    requires o.Rect?
    ensures r.Rect?
    ensures r.width >= MinDimension && r.height >= MinDimension
    ensures FromLeft(h) ==> r.x + r.width == o.x + o.width
    ensures !FromLeft(h) ==> r.x == o.x
    ensures FromTop(h) ==> r.y + r.height == o.y + o.height
    ensures !FromTop(h) ==> r.y == o.y
  {
    var x := if FromLeft(h) then o.x + dx else o.x;
    var y := if FromTop(h) then o.y + dy else o.y;
    var w :=
      if FromLeft(h) then o.width - dx
      else if h == ResizeTR || h == ResizeBR || h == ResizeR then o.width + dx
      else o.width;
    var ht :=
      if FromTop(h) then o.height - dy
      else if h == ResizeBR || h == ResizeBL || h == ResizeB then o.height + dy
      else o.height;
    var (x', w') := if w < MinDimension then (if FromLeft(h) then (o.x + o.width - MinDimension, MinDimension) else (x, MinDimension)) else (x, w);
    var (y', h') := if ht < MinDimension then (if FromTop(h) then (o.y + o.height - MinDimension, MinDimension) else (y, MinDimension)) else (y, ht);
    Rect(x', y', w', h')
  }

  /** Until the minimum is reached, a corner drag moves the corner with the mouse. */
  lemma BottomRightFollowsMouse(o: Shape, dx: real, dy: real)
    requires o.Rect? && o.width + dx >= MinDimension && o.height + dy >= MinDimension
    ensures var r := ResizedRect(o, ResizeBR, dx, dy);
            r.x + r.width == o.x + o.width + dx && r.y + r.height == o.y + o.height + dy
  {
  }

  /**
   * A circle resize: the centre stays and the radius is the mouse's
   * distance from it along the handle's axis, at least half the minimum.
   */
  function ResizedCircle(o: Shape, h: HandleType, mouse: Vec2): (r: Shape)
    requires o.Circle?
    ensures r.Circle? && r.center == o.center
    ensures r.radius >= MinDimension / 2.0
    ensures h == ResizeE ==> r.radius >= mouse.x - o.center.x
    ensures h == ResizeW ==> r.radius >= o.center.x - mouse.x
    ensures h == ResizeS ==> r.radius >= mouse.y - o.center.y
    ensures h == ResizeN ==> r.radius >= o.center.y - mouse.y
  {
    var newRadius :=
      match h
      case ResizeE => mouse.x - o.center.x
      case ResizeW => o.center.x - mouse.x
      case ResizeS => mouse.y - o.center.y
      case ResizeN => o.center.y - mouse.y
      case _ => o.radius;
    Circle(o.center, if MinDimension / 2.0 >= newRadius then MinDimension / 2.0 else newRadius)
  }

  function LengthSquared(a: Vec2, b: Vec2): real
  {
    (b.x - a.x) * (b.x - a.x) + (b.y - a.y) * (b.y - a.y)
  }

  /**
   * A line resize: the dragged end follows the mouse; if that makes the
   * line shorter than the minimum, the dragged end is put at the minimum
   * distance from the other end, in the original line's direction.
   * `dir` is `(cos θ, sin θ)` of that direction's angle, which the caller
   * computes (for the end handle, the angle from the end towards the start).
   */
  function ResizedLine(o: Shape, h: HandleType, dx: real, dy: real, dir: Vec2): (r: Shape)
    requires o.Line?
    ensures r.Line?
    ensures h == ResizeStart ==> r.end == o.end
    ensures h != ResizeStart && h != ResizeEnd ==> r.start == o.start
    ensures h == ResizeEnd ==> r.start == o.start
    ensures dir.x * dir.x + dir.y * dir.y == 1.0 ==> LengthSquared(r.start, r.end) >= MinDimension * MinDimension
  {
    var s := if h == ResizeStart then Vec2(o.start.x + dx, o.start.y + dy) else o.start;
    var e := if h == ResizeEnd then Vec2(o.end.x + dx, o.end.y + dy) else o.end;
    if LengthSquared(s, e) < MinDimension * MinDimension then
      if h == ResizeStart then
        var s' := Vec2(e.x - MinDimension * dir.x, e.y - MinDimension * dir.y);
        UnitStep(e, s', dir);
        Line(s', e)
      else
        var e' := Vec2(s.x - MinDimension * dir.x, s.y - MinDimension * dir.y);
        UnitStep(s, e', dir);
        Line(s, e')
    else Line(s, e)
  }

  /** A point the minimum distance along a unit direction is exactly that far away. */
  lemma UnitStep(a: Vec2, b: Vec2, dir: Vec2)
    requires b == Vec2(a.x - MinDimension * dir.x, a.y - MinDimension * dir.y)
    ensures dir.x * dir.x + dir.y * dir.y == 1.0 ==> LengthSquared(a, b) == MinDimension * MinDimension
    ensures LengthSquared(a, b) == LengthSquared(b, a)
  {
    assert b.x - a.x == -(MinDimension * dir.x) && b.y - a.y == -(MinDimension * dir.y);
  }

  /** Until the minimum is reached the dragged end is where the mouse moved it. */
  lemma LineEndFollowsMouse(o: Shape, dx: real, dy: real, dir: Vec2)
    requires o.Line?
    requires LengthSquared(o.start, Vec2(o.end.x + dx, o.end.y + dy)) >= MinDimension * MinDimension
    ensures ResizedLine(o, ResizeEnd, dx, dy, dir) == Line(o.start, Vec2(o.end.x + dx, o.end.y + dy))
  {
  }

  /** The shape a drag makes of the original, for the handle held. */
  function Dragged(o: Shape, h: HandleType, dx: real, dy: real, mouse: Vec2, dir: Vec2): Shape
  {
    if h == Move then Moved(o, dx, dy)
    else
      match o
      case Rect(_, _, _, _) => ResizedRect(o, h, dx, dy)
      case Line(_, _) => ResizedLine(o, h, dx, dy, dir)
      case Circle(_, _) => ResizedCircle(o, h, mouse)
  }

  // ---------------------------------------------------------------------
  // Creating shapes
  // ---------------------------------------------------------------------

  const MinRectSize: real := 0.01
  const MinLineLength: real := 0.01
  const MinRadius: real := 0.005


  /**
   * `handleRectangleUp`: the rectangle spanned by the press and release
   * points, stored by its top-left corner and a non-negative size; nothing
   * when either side is under the minimum.
   */
  function RectFromCorners(a: Vec2, b: Vec2): (r: Option<Shape>)
    ensures r.None? <==> Abs(b.x - a.x) < MinRectSize || Abs(b.y - a.y) < MinRectSize
    ensures r.Some? ==> r.value.Rect? && r.value.width >= MinRectSize && r.value.height >= MinRectSize
    ensures r.Some? ==> (r.value.x == a.x && r.value.x + r.value.width == b.x) || (r.value.x == b.x && r.value.x + r.value.width == a.x)
    ensures r.Some? ==> (r.value.y == a.y && r.value.y + r.value.height == b.y) || (r.value.y == b.y && r.value.y + r.value.height == a.y)
  {
    var width := Abs(b.x - a.x);
    var height := Abs(b.y - a.y);
    if width < MinRectSize || height < MinRectSize then None
    else Some(Rect(Min(a.x, b.x), Min(a.y, b.y), width, height))
  }

  /** The rectangle does not depend on which corner the drag started from. */
  lemma RectFromCornersSymmetric(a: Vec2, b: Vec2)
    ensures RectFromCorners(a, b) == RectFromCorners(b, a)
  {
  }

  /** `handleLineUp`: a line strictly longer than the minimum, compared on squares. */
  function LineFromPoints(a: Vec2, b: Vec2): (r: Option<Shape>)
    ensures r.Some? <==> LengthSquared(a, b) > MinLineLength * MinLineLength
    ensures r.Some? ==> r.value == Line(a, b)
  {
    if LengthSquared(a, b) > MinLineLength * MinLineLength then Some(Line(a, b)) else None
  }

  /**
   * `handleCircleUp`: the circle about the press point through the release
   * point, unless its radius is under the minimum. `radius` is the distance
   * between the points (`Math.sqrt`), computed by the caller.
   */
  function CircleFromPoints(center: Vec2, edge: Vec2, radius: real): (r: Option<Shape>)
    ensures r.Some? <==> radius >= MinRadius
    ensures r.Some? ==> r.value == Circle(center, radius)
  {
    if radius < MinRadius then None else Some(Circle(center, radius))
  }

  // ---------------------------------------------------------------------
  // Cursors
  // ---------------------------------------------------------------------

  /**
   * `getCursorForHandle` as written: its single-letter tests run on the
   * whole type string, and the prefix `resize` itself contains an `r`.
   */
  function CursorAsWritten(t: string): string
  {
    if StartsWith(t, "resize") then
      if 't' in t && 'l' in t then "nwse-resize"
      else if 'b' in t && 'r' in t then "nwse-resize"
      else if 't' in t && 'r' in t then "nesw-resize"
      else if 'b' in t && 'l' in t then "nesw-resize"
      else if Includes(t, "-t") || Includes(t, "-b") || Includes(t, "-n") || Includes(t, "-s") then "ns-resize"
      else if Includes(t, "-l") || Includes(t, "-r") || Includes(t, "-e") || Includes(t, "-w") then "ew-resize"
      else "crosshair"
    else if t == "move" then "move"
    else "default"
  }

  /** Every resize handle name contains an `r`, so the `r` tests are always met. */
  lemma ResizeNamesContainR(t: string)
    requires StartsWith(t, "resize")
    ensures 'r' in t
  {
    assert t[0] == 'r';
  }

  /**
   * As written, the bottom and top side handles get diagonal cursors and
   * the bottom-left corner gets the cursor of the other diagonal.
   */
  lemma SideHandlesGetDiagonalCursors()
    ensures CursorAsWritten(HandleName(ResizeB)) == "nwse-resize"
    ensures CursorAsWritten(HandleName(ResizeT)) == "nesw-resize"
    ensures CursorAsWritten(HandleName(ResizeBL)) == "nwse-resize"
  {
    DiagonalCursorAsWritten(HandleName(ResizeB), 'b', "nwse-resize");
    DiagonalCursorAsWritten(HandleName(ResizeT), 't', "nesw-resize");
    DiagonalCursorAsWritten(HandleName(ResizeBL), 'b', "nwse-resize");
  }

  /** A resize name with the letter `c` and no `t` (for `b`) or no `l` (for `t`) falls into a diagonal test. */
  lemma DiagonalCursorAsWritten(t: string, c: char, cursor: string)
    requires t == "resize-b" || t == "resize-t" || t == "resize-bl"
    requires c == t[7] && cursor == (if c == 'b' then "nwse-resize" else "nesw-resize")
    ensures CursorAsWritten(t) == cursor
  {
    assert t[..6] == "resize" && t[0] == 'r' && t[7] == c;
    assert 'l' !in "resize-b" && 'l' !in "resize-t" && 't' !in "resize-b" && 't' !in "resize-bl";
  }

  /**
   * The intended cursor: corners drag along a diagonal (top-left with
   * bottom-right, top-right with bottom-left, as the 3D editor's handle
   * cursors pair them), sides and circle handles along an axis. The line
   * end handles keep the cursors the tests above give them.
   */
  function CursorFor(h: HandleType): (c: string)
    ensures (h == ResizeT || h == ResizeB || h == ResizeN || h == ResizeS) <==> c == "ns-resize"
    ensures (h == ResizeL || h == ResizeR || h == ResizeE || h == ResizeW || h == ResizeEnd) <==> c == "ew-resize"
    ensures (h == ResizeTL || h == ResizeBR) <==> c == "nwse-resize"
    ensures (h == ResizeTR || h == ResizeBL || h == ResizeStart) <==> c == "nesw-resize"
    ensures h == Move <==> c == "move"
  {
    match h
    case Move => "move"
    case ResizeTL => "nwse-resize"
    case ResizeBR => "nwse-resize"
    case ResizeTR => "nesw-resize"
    case ResizeBL => "nesw-resize"
    case ResizeT => "ns-resize"
    case ResizeB => "ns-resize"
    case ResizeN => "ns-resize"
    case ResizeS => "ns-resize"
    case ResizeL => "ew-resize"
    case ResizeR => "ew-resize"
    case ResizeE => "ew-resize"
    case ResizeW => "ew-resize"
    case ResizeStart => "nesw-resize"
    case ResizeEnd => "ew-resize"
  }

  /** In a `resize-…` name the only dash is the seventh character, so `-c` occurs only if `c` follows it. */
  lemma NotAfterDash(s: string, c: char)
    requires |s| >= 8 && s[6] == '-' && s[7] != c
    requires '-' !in s[..6] && '-' !in s[7..]
    ensures !Includes(s, ['-', c])
  {
    forall i | 0 <= i <= |s| - 2
      ensures !OccursAt(s, ['-', c], i)
    {
      assert s[i..i + 2][0] == s[i] && s[i..i + 2][1] == s[i + 1];
      if i < 6 {
        assert s[..6][i] == s[i];
      } else if i > 6 {
        assert s[7..][i - 7] == s[i];
      }
    }
  }

  /** A `resize-` name with one side letter other than `t`, `b` or `l` gets an axis cursor. */
  lemma SideCursor(t: string, c: char)
    requires t == "resize-" + [c] && (c == 'n' || c == 's' || c == 'r' || c == 'e' || c == 'w')
    ensures c == 'n' || c == 's' ==> CursorAsWritten(t) == "ns-resize"
    ensures c == 'r' || c == 'e' || c == 'w' ==> CursorAsWritten(t) == "ew-resize"
  {
    assert t[..6] == "resize" && t[6] == '-' && t[7] == c && t[7..] == [c];
    assert 't' !in t && 'b' !in t;
    NotAfterDash(t, 't'); NotAfterDash(t, 'b');
    if c != 'n' && c != 's' {
      NotAfterDash(t, 'n'); NotAfterDash(t, 's');
    }
    assert OccursAt(t, ['-', c], 6);
  }

  /** Apart from the three handles of the finding, the written tests give the intended cursor. */
  lemma CursorAsWrittenElsewhere(h: HandleType)
    requires h != ResizeT && h != ResizeB && h != ResizeBL
    ensures CursorAsWritten(HandleName(h)) == CursorFor(h)
  {
    if h == Move || h == ResizeTL || h == ResizeTR || h == ResizeBR || h == ResizeStart {
      CornerCursorAsWritten(h, HandleName(h));
    } else {
      SideCursorAsWritten(h, HandleName(h));
    }
  }

  lemma CornerCursorAsWritten(h: HandleType, t: string)
    requires h == Move || h == ResizeTL || h == ResizeTR || h == ResizeBR || h == ResizeStart
    requires t == HandleName(h)
    ensures CursorAsWritten(t) == CursorFor(h)
  {
    match h
    case Move =>
    case ResizeTL => assert t[..6] == "resize" && t[7] == 't' && t[8] == 'l';
    case ResizeTR => assert t[..6] == "resize" && t[7] == 't' && t[0] == 'r' && 'l' !in t;
    case ResizeBR => assert t[..6] == "resize" && t[7] == 'b' && t[0] == 'r' && 't' !in t && 'l' !in t;
    case ResizeStart => assert t[..6] == "resize" && t[8] == 't' && t[0] == 'r' && 'l' !in t && 'b' !in t;
  }

  lemma SideCursorAsWritten(h: HandleType, t: string)
    requires h == ResizeL || h == ResizeEnd || h == ResizeR || h == ResizeE || h == ResizeW || h == ResizeN || h == ResizeS
    requires t == HandleName(h)
    ensures CursorAsWritten(t) == CursorFor(h)
  {
    match h
    case ResizeL =>
      assert t[..6] == "resize" && 't' !in t && 'b' !in t;
      NotAfterDash(t, 't'); NotAfterDash(t, 'b'); NotAfterDash(t, 'n'); NotAfterDash(t, 's');
      assert OccursAt(t, "-l", 6);
    case ResizeEnd =>
      assert t[..6] == "resize" && 't' !in t && 'b' !in t && 'l' !in t;
      NotAfterDash(t, 't'); NotAfterDash(t, 'b'); NotAfterDash(t, 'n'); NotAfterDash(t, 's');
      assert OccursAt(t, "-e", 6);
    case ResizeR => SideCursor(t, 'r');
    case ResizeE => SideCursor(t, 'e');
    case ResizeW => SideCursor(t, 'w');
    case ResizeN => SideCursor(t, 'n');
    case ResizeS => SideCursor(t, 's');
  }

  /**
   * The select tool's hover cursor: a handle of the single selected object
   * wins, then an object under the mouse, else the default arrow.
   */
  function HoverCursor(handleHit: Option<HandleType>, overObject: bool): (c: string)
    ensures handleHit.Some? ==> c == CursorFor(handleHit.value) && c != HandCursor && c != "default"
    ensures handleHit.None? ==> (c == HandCursor <==> overObject) && (c == "default" <==> !overObject)
  {
    if handleHit.Some? then CursorFor(handleHit.value)
    else if overObject then HandCursor else "default"
  }

  /** The CSS name of the hand cursor shown over an object. */
  const HandCursor: string := "pointer"

  // ---------------------------------------------------------------------
  // The tool manager
  // ---------------------------------------------------------------------

  /** A drawn object: its geometry and selection flag are updated in place. */
  class DrawingObject {
    var shape: Shape
    var selected: bool

    constructor(s: Shape)
      ensures shape == s && !selected
    {
      shape := s;
      selected := false;
    }
  }

  datatype Tool = SelectTool | LineTool | RectangleTool | CircleTool | ExtrudeTool | RotateTool

  /** A handle being dragged and the object it belongs to. */
  datatype Handle = Handle(kind: HandleType, obj: DrawingObject)

  predicate Distinct(os: seq<DrawingObject>)
  {
    forall i, j :: 0 <= i < j < |os| ==> os[i] != os[j]
  }

  /** The objects not in `gone`, in their order. */
  function Without(os: seq<DrawingObject>, gone: seq<DrawingObject>): (r: seq<DrawingObject>)
    ensures forall i :: 0 <= i < |r| ==> r[i] in os && r[i] !in gone
    ensures forall i :: 0 <= i < |os| && os[i] !in gone ==> os[i] in r
    ensures |r| <= |os|
    decreases |os|
  {
    if os == [] then []
    else if os[0] in gone then Without(os[1..], gone) else [os[0]] + Without(os[1..], gone)
  }

  lemma {:induction false} WithoutKeepsDistinct(os: seq<DrawingObject>, gone: seq<DrawingObject>)
    requires Distinct(os)
    ensures Distinct(Without(os, gone))
    decreases |os|
  {
    if os != [] {
      WithoutKeepsDistinct(os[1..], gone);
    }
  }

  /** `indexOf` on the object list: the first position of `o`, or the length. */
  function IndexOfObject(os: seq<DrawingObject>, o: DrawingObject): (k: nat)
    ensures k <= |os|
    ensures k < |os| ==> os[k] == o
    ensures forall j :: 0 <= j < k ==> os[j] != o
  {
    if os == [] then 0 else if os[0] == o then 0 else 1 + IndexOfObject(os[1..], o)
  }

  /** The list without the first occurrence of `o`. */
  function Remove(w: seq<DrawingObject>, o: DrawingObject): seq<DrawingObject>
  {
    if w == [] then [] else if w[0] == o then w[1..] else [w[0]] + Remove(w[1..], o)
  }

  /** `splice(k, 1)` for a found index, nothing otherwise. */
  function Spliced(w: seq<DrawingObject>, k: nat): seq<DrawingObject>
  {
    if k < |w| then w[..k] + w[k + 1..] else w
  }

  /** Splicing out the `indexOf` position removes the first occurrence. */
  lemma {:induction false} SpliceIsRemove(w: seq<DrawingObject>, o: DrawingObject)
    decreases |w|
    ensures Spliced(w, IndexOfObject(w, o)) == Remove(w, o)
  {
    if w != [] && w[0] != o {
      SpliceIsRemove(w[1..], o);
      SpliceStep(w, o);
    }
  }

  lemma SpliceStep(w: seq<DrawingObject>, o: DrawingObject)
    requires w != [] && w[0] != o
    ensures Spliced(w, IndexOfObject(w, o)) == [w[0]] + Spliced(w[1..], IndexOfObject(w[1..], o))
  {
    var k1 := IndexOfObject(w[1..], o);
    assert IndexOfObject(w, o) == k1 + 1;
    SplicedCons(w, k1);
  }

  /** Splicing past the head keeps the head. */
  lemma SplicedCons(w: seq<DrawingObject>, k: nat)
    requires w != []
    ensures Spliced(w, k + 1) == [w[0]] + Spliced(w[1..], k)
  {
    if k + 1 < |w| {
      var w1 := w[1..];
      assert w[..k + 1] == [w[0]] + w1[..k];
      assert w[k + 2..] == w1[k + 1..];
    }
  }

  /** Removing one more object from a list without repeats is filtering it out too. */
  lemma {:induction false} RemoveIsWithout(os: seq<DrawingObject>, gone: seq<DrawingObject>, o: DrawingObject)
    requires Distinct(os)
    ensures Remove(Without(os, gone), o) == Without(os, gone + [o])
    decreases |os|
  {
    if os != [] {
      assert Distinct(os[1..]);
      if os[0] in gone {
        RemoveIsWithout(os[1..], gone, o);
      } else if os[0] == o {
        assert os[0] !in os[1..];
        NotInWithout(os[1..], gone, o);
      } else {
        RemoveIsWithout(os[1..], gone, o);
      }
    }
  }

  lemma NotInWithout(os: seq<DrawingObject>, gone: seq<DrawingObject>, o: DrawingObject)
    requires o !in os
    ensures Without(os, gone) == Without(os, gone + [o])
    decreases |os|
  {
    if os != [] {
      NotInWithout(os[1..], gone, o);
    }
  }

  /** The objects of `objs` whose flag is set are exactly those in the selection. */
  predicate FlagsMatch(objs: seq<DrawingObject>, selection: seq<DrawingObject>, flagged: set<DrawingObject>)
  {
    forall i :: 0 <= i < |objs| ==> (objs[i] in flagged <==> objs[i] in selection)
  }

  /**
   * The flags after a click selects `hit` in `handleSelectDown` (and
   * `handleCircleDown`) as written: the clearing call sits inside a
   * comment line, so `hit` is flagged and no flag is cleared.
   */
  function SelectionFlagsAsWritten(flagged: set<DrawingObject>, hit: DrawingObject): set<DrawingObject>
  {
    flagged + {hit}
  }

  /** The flags after clearing the selection and selecting `hit`, as `handleLineDown` does. */
  function SelectionFlags(flagged: set<DrawingObject>, hit: DrawingObject): (r: set<DrawingObject>)
    ensures hit in r && |r| == 1
  {
    {hit}
  }

  /**
   * As written, clicking another object while one is selected leaves the
   * old one flagged though the selection is now only the new one.
   */
  lemma StaleFlagAsWritten(objs: seq<DrawingObject>, selection: seq<DrawingObject>, flagged: set<DrawingObject>,
                           hit: DrawingObject, other: DrawingObject)
    requires FlagsMatch(objs, selection, flagged)
    requires other in objs && other in selection && other != hit
    ensures !FlagsMatch(objs, [hit], SelectionFlagsAsWritten(flagged, hit))
    ensures FlagsMatch(objs, [hit], SelectionFlags(flagged, hit))
  {
    var i :| 0 <= i < |objs| && objs[i] == other;
    assert other in flagged;
  }

  class ToolManager {
    var activeTool: Tool
    var isDrawing: bool
    var startPoint: Option<Vec2>
    var tempObject: Option<Shape>
    var activeHandle: Option<Handle>
    var dragStartPoint: Option<Vec2>
    var originalObjectState: Option<Shape>
    var cursor: string
    /** The drawing's objects and the current selection (kept by the app). */
    var objects: seq<DrawingObject>
    var selectedObjects: seq<DrawingObject>

    /**
     * The selection flags are set on exactly the selected objects, and the
     * object list has no repeats.
     */
    ghost predicate Valid()
      reads this, objects, selectedObjects
    {
      && Distinct(objects)
      && Distinct(selectedObjects)
      && (forall i :: 0 <= i < |selectedObjects| ==> selectedObjects[i].selected)
      && (forall i :: 0 <= i < |objects| && objects[i] !in selectedObjects ==> !objects[i].selected)
    }

    constructor(objs: seq<DrawingObject>)
      requires Distinct(objs) && forall o :: o in objs ==> !o.selected
      ensures Valid()
      ensures activeTool == SelectTool && !isDrawing && startPoint == None && tempObject == None
      ensures activeHandle == None && dragStartPoint == None && originalObjectState == None
      ensures objects == objs && selectedObjects == []
    {
      activeTool := SelectTool;
      isDrawing := false;
      startPoint := None;
      tempObject := None;
      activeHandle := None;
      dragStartPoint := None;
      originalObjectState := None;
      cursor := "default";
      objects := objs;
      selectedObjects := [];
    }

    /** `cancelCurrentOperation`: no drawing, no temporary shape, no drag in progress. */
    method CancelCurrentOperation()
      modifies this
      ensures !isDrawing && startPoint == None && tempObject == None
      ensures activeHandle == None && dragStartPoint == None && originalObjectState == None
      ensures activeTool == old(activeTool) && objects == old(objects) && selectedObjects == old(selectedObjects)
      ensures cursor == old(cursor)
    {
      isDrawing := false;
      startPoint := None;
      tempObject := None;
      activeHandle := None;
      dragStartPoint := None;
      originalObjectState := None;
    }

    /** `setActiveTool`: switching tools abandons any operation in progress. */
    method SetActiveTool(tool: Tool)
      modifies this
      ensures activeTool == tool
      ensures !isDrawing && startPoint == None && tempObject == None
      ensures activeHandle == None && dragStartPoint == None && originalObjectState == None
      ensures objects == old(objects) && selectedObjects == old(selectedObjects)
    {
      activeTool := tool;
      CancelCurrentOperation();
    }

    /** `clearSelection`: every selected object loses its flag and the selection empties. */
    method ClearSelection()
      requires Valid()
      modifies this, set o | o in selectedObjects
      ensures Valid() && selectedObjects == []
      ensures objects == old(objects)
      ensures forall o :: o in old(selectedObjects) ==> !o.selected
      ensures forall o: DrawingObject :: o in old(selectedObjects) ==> o.shape == old(o.shape)
      ensures activeTool == old(activeTool) && isDrawing == old(isDrawing) && activeHandle == old(activeHandle)
      ensures startPoint == old(startPoint) && tempObject == old(tempObject) && cursor == old(cursor)
      ensures dragStartPoint == old(dragStartPoint) && originalObjectState == old(originalObjectState)
    {
      var sel := selectedObjects;
      for i := 0 to |sel|
        invariant forall j :: 0 <= j < i ==> !sel[j].selected
        invariant forall j :: i <= j < |sel| ==> sel[j].selected
        invariant forall o :: o in objects && o !in sel ==> !o.selected
        invariant forall o: DrawingObject :: o in sel ==> o.shape == old(o.shape)
        invariant selectedObjects == sel && objects == old(objects)
        invariant activeTool == old(activeTool) && isDrawing == old(isDrawing) && activeHandle == old(activeHandle)
        invariant startPoint == old(startPoint) && tempObject == old(tempObject) && cursor == old(cursor)
        invariant dragStartPoint == old(dragStartPoint) && originalObjectState == old(originalObjectState)
      {
        sel[i].selected := false;
      }
      selectedObjects := [];
    }

    /** Selecting the object under the mouse: it alone is selected. */
    method SelectOnly(hit: DrawingObject)
      requires Valid() && hit in objects
      modifies this, hit, set o | o in selectedObjects
      ensures Valid() && selectedObjects == [hit] && hit.selected
      ensures objects == old(objects)
      ensures activeTool == old(activeTool) && isDrawing == old(isDrawing) && activeHandle == old(activeHandle)
      ensures cursor == old(cursor) && dragStartPoint == old(dragStartPoint) && originalObjectState == old(originalObjectState)
    {
      ClearSelection();
      hit.selected := true;
      selectedObjects := [hit];
    }

    /**
     * `handleSelectDown`: with one object selected, the handle under the
     * mouse (or none) becomes the active handle; a hit handle starts a drag
     * from a snapshot of the object. Otherwise the object under the mouse
     * becomes the selection, or a click on empty space clears it.
     */
    method HandleSelectDown(worldPos: Vec2, handleHit: Option<HandleType>, hit: DrawingObject?)
      requires Valid() && (hit != null ==> hit in objects)
      modifies this, hit, set o | o in selectedObjects
      ensures Valid() && objects == old(objects)
      ensures |old(selectedObjects)| == 1 && handleHit.Some? ==>
        && isDrawing && dragStartPoint == Some(worldPos)
        && activeHandle == Some(Handle(handleHit.value, old(selectedObjects)[0]))
        && originalObjectState == Some(old(selectedObjects)[0].shape)
        && selectedObjects == old(selectedObjects)
        && cursor == CursorFor(handleHit.value)
      ensures !(|old(selectedObjects)| == 1 && handleHit.Some?) ==>
        && selectedObjects == (if hit != null then [hit] else [])
        && activeHandle == (if |old(selectedObjects)| == 1 then None else old(activeHandle))
        && isDrawing == old(isDrawing) && cursor == old(cursor)
        && dragStartPoint == old(dragStartPoint) && originalObjectState == old(originalObjectState)
      ensures activeTool == old(activeTool)
    {
      if |selectedObjects| == 1 {
        var selectedObject := selectedObjects[0];
        if handleHit.Some? {
          activeHandle := Some(Handle(handleHit.value, selectedObject));
          isDrawing := true;
          dragStartPoint := Some(worldPos);
          originalObjectState := Some(selectedObject.shape);
          cursor := CursorFor(handleHit.value);
          return;
        }
        activeHandle := None;
      }
      if hit != null {
        SelectOnly(hit);
      } else {
        ClearSelection();
      }
    }

    /**
     * The drag part of `handleSelectMove`: the held object's shape becomes
     * the snapshot taken at the press, dragged by the total mouse delta
     * since then (`dir` as for `ResizedLine`).
     */
    method HandleSelectMove(worldPos: Vec2, dir: Vec2)
      requires isDrawing && activeHandle.Some? && dragStartPoint.Some? && originalObjectState.Some?
      modifies activeHandle.value.obj
      ensures var d := dragStartPoint.value;
              activeHandle.value.obj.shape ==
                Dragged(originalObjectState.value, activeHandle.value.kind, worldPos.x - d.x, worldPos.y - d.y, worldPos, dir)
      ensures activeHandle.value.obj.selected == old(activeHandle.value.obj.selected)
    {
      var totalDeltaX := worldPos.x - dragStartPoint.value.x;
      var totalDeltaY := worldPos.y - dragStartPoint.value.y;
      var o := originalObjectState.value;
      var s := activeHandle.value.obj;
      s.shape := Dragged(o, activeHandle.value.kind, totalDeltaX, totalDeltaY, worldPos, dir);
    }

    /**
     * `handleSelectUp`: the drag ends and the cursor is the hover cursor
     * (`handleHit` is the handle under the mouse, looked for only when
     * one object is selected).
     */
    method HandleSelectUp(handleHit: Option<HandleType>, overObject: bool)
      modifies this
      ensures !isDrawing && activeHandle == None && dragStartPoint == None && originalObjectState == None
      ensures cursor == HoverCursor(if |selectedObjects| == 1 then handleHit else None, overObject)
      ensures objects == old(objects) && selectedObjects == old(selectedObjects) && activeTool == old(activeTool)
    {
      isDrawing := false;
      activeHandle := None;
      dragStartPoint := None;
      originalObjectState := None;
      cursor := HoverCursor(if |selectedObjects| == 1 then handleHit else None, overObject);
    }

    /** The hover part of `handleSelectMove`, when no drag is in progress. */
    method HandleSelectHover(handleHit: Option<HandleType>, overObject: bool)
      requires !isDrawing
      modifies this
      ensures cursor == HoverCursor(if |selectedObjects| == 1 then handleHit else None, overObject)
      ensures objects == old(objects) && selectedObjects == old(selectedObjects) && activeTool == old(activeTool)
      ensures isDrawing == old(isDrawing) && activeHandle == old(activeHandle)
    {
      cursor := HoverCursor(if |selectedObjects| == 1 then handleHit else None, overObject);
    }

    /** `handleLineDown` / `handleCircleDown` without a hit: drawing starts at the point. */
    method StartShape(p: Vec2, shape: Shape)
      modifies this
      ensures isDrawing && startPoint == Some(p) && tempObject == Some(shape)
      ensures objects == old(objects) && selectedObjects == old(selectedObjects) && activeTool == old(activeTool)
    {
      isDrawing := true;
      startPoint := Some(p);
      tempObject := Some(shape);
    }

    /**
     * `handleLineDown`: a click on an existing object selects it and
     * switches to the select tool; otherwise a zero-length line starts.
     */
    method HandleLineDown(p: Vec2, hit: DrawingObject?)
      requires Valid() && (hit != null ==> hit in objects)
      modifies this, hit, set o | o in selectedObjects
      ensures Valid() && objects == old(objects)
      ensures hit != null ==> selectedObjects == [hit] && activeTool == SelectTool && !isDrawing
      ensures hit == null ==> isDrawing && startPoint == Some(p) && tempObject == Some(Line(p, p))
                              && selectedObjects == old(selectedObjects) && activeTool == old(activeTool)
    {
      if hit != null {
        SelectOnly(hit);
        SetActiveTool(SelectTool);
        return;
      }
      StartShape(p, Line(p, p));
    }

    /**
     * `handleCircleDown`: a click on an existing object selects it and
     * switches to the select tool; otherwise a zero-radius circle starts.
     * The source sets the new flag without clearing the old ones
     * (`SelectionFlagsAsWritten`); this is the corrected step, which clears
     * them first as `handleLineDown` does (`SelectionFlags`).
     */
    method HandleCircleDown(p: Vec2, hit: DrawingObject?)
      requires Valid() && (hit != null ==> hit in objects)
      modifies this, hit, set o | o in selectedObjects
      ensures Valid() && objects == old(objects)
      ensures hit != null ==> selectedObjects == [hit] && activeTool == SelectTool && !isDrawing
      ensures hit == null ==> isDrawing && startPoint == Some(p) && tempObject == Some(Circle(p, 0.0))
                              && selectedObjects == old(selectedObjects) && activeTool == old(activeTool)
    {
      if hit != null {
        SelectOnly(hit);
        SetActiveTool(SelectTool);
        return;
      }
      StartShape(p, Circle(p, 0.0));
    }

    /** `handleRectangleDown`: an empty rectangle starts at the point. */
    method HandleRectangleDown(p: Vec2)
      modifies this
      ensures isDrawing && startPoint == Some(p) && tempObject == Some(Rect(p.x, p.y, 0.0, 0.0))
      ensures objects == old(objects) && selectedObjects == old(selectedObjects)
    {
      StartShape(p, Rect(p.x, p.y, 0.0, 0.0));
    }

    /** `handleRectangleMove`: the preview spans the start and the mouse. */
    method HandleRectangleMove(p: Vec2)
      requires isDrawing ==> startPoint.Some? && tempObject.Some?
      modifies this
      ensures isDrawing == old(isDrawing) && startPoint == old(startPoint) && objects == old(objects)
      ensures isDrawing ==> tempObject == Some(Rect(Min(startPoint.value.x, p.x), Min(startPoint.value.y, p.y),
                                                   Abs(p.x - startPoint.value.x), Abs(p.y - startPoint.value.y)))
      ensures !isDrawing ==> tempObject == old(tempObject)
    {
      if !isDrawing {
        return;
      }
      var a := startPoint.value;
      tempObject := Some(Rect(Min(a.x, p.x), Min(a.y, p.y), Abs(p.x - a.x), Abs(p.y - a.y)));
    }

    /** `handleLineMove`: the preview line ends at the mouse. */
    method HandleLineMove(p: Vec2)
      requires isDrawing ==> startPoint.Some? && tempObject.Some? && tempObject.value.Line?
      modifies this
      ensures isDrawing == old(isDrawing) && startPoint == old(startPoint) && objects == old(objects)
      ensures isDrawing ==> tempObject == Some(old(tempObject).value.(end := p))
      ensures !isDrawing ==> tempObject == old(tempObject)
    {
      if !isDrawing {
        return;
      }
      tempObject := Some(tempObject.value.(end := p));
    }

    /** `handleCircleMove`: the preview radius is the mouse's distance from the centre (given). */
    method HandleCircleMove(p: Vec2, distance: real)
      requires isDrawing ==> startPoint.Some? && tempObject.Some? && tempObject.value.Circle?
      modifies this
      ensures isDrawing == old(isDrawing) && startPoint == old(startPoint) && objects == old(objects)
      ensures isDrawing ==> tempObject == Some(old(tempObject).value.(radius := distance))
      ensures !isDrawing ==> tempObject == old(tempObject)
    {
      if !isDrawing {
        return;
      }
      tempObject := Some(tempObject.value.(radius := distance));
    }

    /**
     * The host's `addObject`: the selection is cleared, and the finished
     * shape is appended as a new object that alone is selected and flagged.
     */
    method AddObject(s: Shape)
      requires Valid()
      modifies this, set o | o in selectedObjects
      ensures Valid()
      ensures |objects| == |old(objects)| + 1 && objects[..|old(objects)|] == old(objects)
      ensures fresh(objects[|objects| - 1]) && objects[|objects| - 1].shape == s
      ensures selectedObjects == [objects[|objects| - 1]] && objects[|objects| - 1].selected
      ensures forall o :: o in old(objects) ==> !o.selected
      ensures activeTool == old(activeTool)
      ensures isDrawing == old(isDrawing) && startPoint == old(startPoint) && tempObject == old(tempObject)
      ensures activeHandle == old(activeHandle)
    {
      ClearSelection();
      var obj := new DrawingObject(s);
      obj.selected := true;
      objects := objects + [obj];
      selectedObjects := [obj];
    }

    /**
     * `handleLineUp`, `handleRectangleUp`, `handleCircleUp` once the shape
     * is decided: the operation ends, and a shape of at least the minimum
     * size is added and becomes the selection.
     */
    method FinishShape(made: Option<Shape>)
      requires Valid()
      modifies this, set o | o in selectedObjects
      ensures Valid()
      ensures !isDrawing && startPoint == None && tempObject == None && activeHandle == None
      ensures made.None? ==> objects == old(objects) && selectedObjects == old(selectedObjects)
      ensures made.Some? ==> |objects| == |old(objects)| + 1 && objects[..|old(objects)|] == old(objects)
                             && objects[|objects| - 1].shape == made.value
                             && selectedObjects == [objects[|objects| - 1]]
    {
      CancelCurrentOperation();
      if made.Some? {
        AddObject(made.value);
      }
    }

    method HandleLineUp(p: Vec2)
      requires Valid() && (isDrawing ==> startPoint.Some?)
      modifies this, set o | o in selectedObjects
      ensures Valid()
      ensures !old(isDrawing) ==> objects == old(objects) && selectedObjects == old(selectedObjects) && isDrawing == old(isDrawing)
      ensures old(isDrawing) ==>
        !isDrawing &&
        match LineFromPoints(old(startPoint).value, p)
        case None => objects == old(objects) && selectedObjects == old(selectedObjects)
        case Some(l) =>
          |objects| == |old(objects)| + 1 && objects[|objects| - 1].shape == l
          && selectedObjects == [objects[|objects| - 1]]
    {
      if !isDrawing {
        return;
      }
      FinishShape(LineFromPoints(startPoint.value, p));
    }

    method HandleRectangleUp(p: Vec2)
      requires Valid() && (isDrawing ==> startPoint.Some?)
      modifies this, set o | o in selectedObjects
      ensures Valid()
      ensures !old(isDrawing) ==> objects == old(objects) && selectedObjects == old(selectedObjects) && isDrawing == old(isDrawing)
      ensures old(isDrawing) ==>
        !isDrawing &&
        match RectFromCorners(old(startPoint).value, p)
        case None => objects == old(objects) && selectedObjects == old(selectedObjects)
        case Some(r) =>
          |objects| == |old(objects)| + 1 && objects[|objects| - 1].shape == r
          && selectedObjects == [objects[|objects| - 1]]
    {
      if !isDrawing {
        return;
      }
      FinishShape(RectFromCorners(startPoint.value, p));
    }

    method HandleCircleUp(p: Vec2, radius: real)
      requires Valid() && (isDrawing ==> startPoint.Some?)
      modifies this, set o | o in selectedObjects
      ensures Valid()
      ensures !old(isDrawing) ==> objects == old(objects) && selectedObjects == old(selectedObjects) && isDrawing == old(isDrawing)
      ensures old(isDrawing) ==>
        !isDrawing &&
        match CircleFromPoints(old(startPoint).value, p, radius)
        case None => objects == old(objects) && selectedObjects == old(selectedObjects)
        case Some(c) =>
          |objects| == |old(objects)| + 1 && objects[|objects| - 1].shape == c
          && selectedObjects == [objects[|objects| - 1]]
    {
      if !isDrawing {
        return;
      }
      FinishShape(CircleFromPoints(startPoint.value, p, radius));
    }

    /**
     * `deleteSelected`: every selected object is spliced out of the object
     * list, the others keep their order, and the selection empties.
     */
    method DeleteSelected()
      requires Valid()
      modifies this
      ensures Valid()
      ensures old(selectedObjects) == [] ==> objects == old(objects) && selectedObjects == []
      ensures objects == Without(old(objects), old(selectedObjects))
      ensures selectedObjects == []
    {
      ghost var before := objects;
      WithoutNothing(objects);
      WithoutKeepsDistinct(objects, selectedObjects);
      objects := DeleteAll(objects, selectedObjects);
      assert forall i :: 0 <= i < |objects| ==> objects[i] in before && objects[i] !in selectedObjects;
      selectedObjects := [];
    }
  }

  /** The splicing loop of `deleteSelected`, on the object list alone. */
  method DeleteAll(os: seq<DrawingObject>, sel: seq<DrawingObject>) returns (r: seq<DrawingObject>)
    requires Distinct(os)
    ensures r == Without(os, sel)
  {
    r := os;
    WithoutNothing(os);
    for i := 0 to |sel|
      invariant r == Without(os, sel[..i])
    {
      var index := IndexOfObject(r, sel[i]);
      SpliceIsRemove(r, sel[i]);
      RemoveIsWithout(os, sel[..i], sel[i]);
      assert sel[..i + 1] == sel[..i] + [sel[i]];
      r := Spliced(r, index);
    }
    assert sel[..|sel|] == sel;
  }

  lemma {:induction false} WithoutNothing(os: seq<DrawingObject>)
    ensures Without(os, []) == os
    decreases |os|
  {
    if os != [] {
      WithoutNothing(os[1..]);
    }
  }
}
