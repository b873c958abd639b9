/**
 * The 2D sketch camera (src/modules/camera.js): a position, a zoom in screen
 * pixels per inch kept between limits derived from the level-of-detail
 * spacings, a rotation, the screen/world transforms, zooming towards the
 * mouse, and the saved 2D view restored when leaving the 3D mode.
 *
 * `Math.cos`/`Math.sin` of the rotation are not computed here: the
 * transforms take them as a `Turn` supplied by the caller.
 */
module Camera {
  import opened Wrappers
  import opened JsNum
  import opened Geometry

  /** The finest and the coarsest level-of-detail spacings, in inches. */
  const FinestLod: real := 1.0 / 32.0
  const CoarsestLod: real := 2.0
  /** The finest spacing is never drawn wider than this many pixels... */
  const MaxPxForFinestLod: real := 300.0
  /** ...and the coarsest never narrower than this many. */
  const MinPxForCoarsestLod: real := 50.0
  /** The initial zoom shows this many inches from top to bottom. */
  const InitialVisibleHeight: real := 24.0
  const FallbackZoom: real := 10.0

  /** A JavaScript `a || fallback` on a number that may be missing. */
  function OrDefault(a: Option<real>, fallback: real): (r: real)
    ensures a.Some? && a.value != 0.0 ==> r == a.value
    ensures a.None? || a.value == 0.0 ==> r == fallback
  {
    if a.Some? && a.value != 0.0 then a.value else fallback
  }

  /** `Math.max(lo, Math.min(hi, z))`. */
  function ZoomClamp(z: real, lo: real, hi: real): (r: real)
    ensures lo <= hi ==> lo <= r <= hi
    ensures lo <= z <= hi ==> r == z
    ensures z < lo ==> r == lo
    ensures lo <= hi && z > hi ==> r == hi
  {
    Max(lo, Min(hi, z))
  }

  // ---------------------------------------------------------------------
  // Screen and world
  // ---------------------------------------------------------------------

  /** The cosine and sine of the camera rotation. */
  datatype Turn = Turn(cos: real, sin: real)

  predicate IsRotation(t: Turn)
  {
    t.cos * t.cos + t.sin * t.sin == 1.0
  }

  /** What the transforms read: the position, the zoom and the viewport's CSS size. */
  datatype Viewport = Viewport(x: real, y: real, zoom: real, width: real, height: real)

  /** Rotating by the camera rotation. */
  function Rotate(t: Turn, v: Vec2): Vec2
  {
    Vec2(v.x * t.cos - v.y * t.sin, v.x * t.sin + v.y * t.cos)
  }

  /** Rotating by minus the camera rotation (`Math.cos(-r)`, `Math.sin(-r)`). */
  function Unrotate(t: Turn, v: Vec2): Vec2
  {
    Vec2(v.x * t.cos - v.y * (-t.sin), v.x * (-t.sin) + v.y * t.cos)
  }

  lemma RotateUnrotate(t: Turn, v: Vec2)
    requires IsRotation(t)
    ensures Rotate(t, Unrotate(t, v)) == v && Unrotate(t, Rotate(t, v)) == v
  {
    var c, s := t.cos, t.sin;
    assert (v.x * c + v.y * s) * c - (v.y * c - v.x * s) * s == v.x * (c * c + s * s);
    assert (v.x * c + v.y * s) * s + (v.y * c - v.x * s) * c == v.y * (c * c + s * s);
    assert (v.x * c - v.y * s) * c + (v.x * s + v.y * c) * s == v.x * (c * c + s * s);
    assert (v.x * s + v.y * c) * c - (v.x * c - v.y * s) * s == v.y * (c * c + s * s);
  }

  /** `screenToWorld`: centre, undo the zoom, undo the rotation, add the camera position. */
  function ScreenToWorld(v: Viewport, t: Turn, screen: Vec2): Vec2
    requires v.zoom != 0.0
  {
    var view := Vec2((screen.x - v.width / 2.0) / v.zoom, (screen.y - v.height / 2.0) / v.zoom);
    var r := Unrotate(t, view);
    Vec2(r.x + v.x, r.y + v.y)
  }

  /** `worldToScreen`: subtract the camera position, rotate, zoom, move to the viewport's corner. */
  function WorldToScreen(v: Viewport, t: Turn, world: Vec2): Vec2
  {
    var r := Rotate(t, Vec2(world.x - v.x, world.y - v.y));
    Vec2(r.x * v.zoom + v.width / 2.0, r.y * v.zoom + v.height / 2.0)
  }

  /** The two transforms are inverse to each other. */
  lemma ScreenWorldRoundTrip(v: Viewport, t: Turn, screen: Vec2, world: Vec2)
    requires v.zoom != 0.0 && IsRotation(t)
    ensures WorldToScreen(v, t, ScreenToWorld(v, t, screen)) == screen
    ensures ScreenToWorld(v, t, WorldToScreen(v, t, world)) == world
  {
    ScreenBackFromWorld(v, t, screen);
    WorldBackFromScreen(v, t, world);
  }

  lemma ScreenBackFromWorld(v: Viewport, t: Turn, screen: Vec2)
    requires v.zoom != 0.0 && IsRotation(t)
    ensures WorldToScreen(v, t, ScreenToWorld(v, t, screen)) == screen
  {
    var view := Vec2((screen.x - v.width / 2.0) / v.zoom, (screen.y - v.height / 2.0) / v.zoom);
    RotateUnrotate(t, view);
    assert view.x * v.zoom == screen.x - v.width / 2.0;
    assert view.y * v.zoom == screen.y - v.height / 2.0;
  }

  lemma WorldBackFromScreen(v: Viewport, t: Turn, world: Vec2)
    requires v.zoom != 0.0 && IsRotation(t)
    ensures ScreenToWorld(v, t, WorldToScreen(v, t, world)) == world
  {
    var r := Rotate(t, Vec2(world.x - v.x, world.y - v.y));
    RotateUnrotate(t, Vec2(world.x - v.x, world.y - v.y));
    var s := WorldToScreen(v, t, world);
    assert (s.x - v.width / 2.0) / v.zoom == r.x;
    assert (s.y - v.height / 2.0) / v.zoom == r.y;
    assert Unrotate(t, r) == Vec2(world.x - v.x, world.y - v.y);
  }

  // ---------------------------------------------------------------------
  // Zooming towards the mouse
  // ---------------------------------------------------------------------

  /** The wheel's zoom step: out by 0.9 when scrolling down, in by 1.1 otherwise. */
  function ZoomFactor(deltaY: real): (f: real)
    ensures deltaY > 0.0 <==> f < 1.0
  {
    if deltaY > 0.0 then 0.9 else 1.1
  }

  /**
   * The camera position after zooming to `newZoom` as `handleZoom` writes
   * it: the anchor's x is taken on screen row 0 and its y on screen column
   * 0, and the offset to the anchor is scaled by `newZoom / zoom`.
   */
  function ZoomedPositionAsWritten(v: Viewport, t: Turn, mouse: Vec2, newZoom: real): Vec2
    requires v.zoom != 0.0
  {
    var worldX := ScreenToWorld(v, t, Vec2(mouse.x, 0.0)).x;
    var worldY := ScreenToWorld(v, t, Vec2(0.0, mouse.y)).y;
    var zoomRatio := newZoom / v.zoom;
    Vec2(worldX - (worldX - v.x) * zoomRatio, worldY - (worldY - v.y) * zoomRatio)
  }

  /**
   * The camera position that keeps the world point under the mouse under
   * the mouse: the offset to that point shrinks by `zoom / newZoom`.
   */
  function ZoomedPosition(v: Viewport, t: Turn, mouse: Vec2, newZoom: real): Vec2
    requires v.zoom != 0.0 && newZoom != 0.0
  {
    var anchor := ScreenToWorld(v, t, mouse);
    var keep := v.zoom / newZoom;
    Vec2(anchor.x - (anchor.x - v.x) * keep, anchor.y - (anchor.y - v.y) * keep)
  }

  /** After the corrected zoom, the world point that was under the mouse is still under it. */
  lemma ZoomKeepsPointUnderMouse(v: Viewport, t: Turn, mouse: Vec2, newZoom: real)
    requires v.zoom != 0.0 && newZoom != 0.0 && IsRotation(t)
    ensures var p := ZoomedPosition(v, t, mouse, newZoom);
            WorldToScreen(Viewport(p.x, p.y, newZoom, v.width, v.height), t, ScreenToWorld(v, t, mouse)) == mouse
  {
    var anchor := ScreenToWorld(v, t, mouse);
    var p := ZoomedPosition(v, t, mouse, newZoom);
    var keep := v.zoom / newZoom;
    var view := Vec2((mouse.x - v.width / 2.0) / v.zoom, (mouse.y - v.height / 2.0) / v.zoom);
    ZoomedOffset(v, t, mouse, newZoom, view, keep);
    BackUnderMouse(v, Viewport(p.x, p.y, newZoom, v.width, v.height), t, anchor, mouse, view, keep);
  }

  /** A point whose rotated offset from the new camera is the old view offset scaled by `keep` shows at the mouse. */
  lemma BackUnderMouse(v: Viewport, nv: Viewport, t: Turn, anchor: Vec2, mouse: Vec2, view: Vec2, keep: real)
    requires v.zoom != 0.0 && nv.zoom != 0.0 && nv.width == v.width && nv.height == v.height
    requires keep == v.zoom / nv.zoom
    requires view == Vec2((mouse.x - v.width / 2.0) / v.zoom, (mouse.y - v.height / 2.0) / v.zoom)
    requires Rotate(t, Vec2(anchor.x - nv.x, anchor.y - nv.y)) == Vec2(view.x * keep, view.y * keep)
    ensures WorldToScreen(nv, t, anchor) == mouse
  {
    var r := Rotate(t, Vec2(anchor.x - nv.x, anchor.y - nv.y));
    ScaledBack(mouse.x - v.width / 2.0, v.zoom, nv.zoom, r.x);
    ScaledBack(mouse.y - v.height / 2.0, v.zoom, nv.zoom, r.y);
  }

  /** Undoing the old zoom, scaling by old over new, and applying the new zoom gives the screen offset back. */
  lemma ScaledBack(a: real, zoom: real, newZoom: real, r: real)
    requires zoom != 0.0 && newZoom != 0.0 && r == a / zoom * (zoom / newZoom)
    ensures r * newZoom == a
  {
    ZoomCancels(a, zoom, newZoom);
  }

  /** Seen from the new camera position, the anchor's rotated offset is the old view offset scaled by `keep`. */
  lemma ZoomedOffset(v: Viewport, t: Turn, mouse: Vec2, newZoom: real, view: Vec2, keep: real)
    requires v.zoom != 0.0 && newZoom != 0.0 && IsRotation(t)
    requires keep == v.zoom / newZoom
    requires view == Vec2((mouse.x - v.width / 2.0) / v.zoom, (mouse.y - v.height / 2.0) / v.zoom)
    ensures var anchor := ScreenToWorld(v, t, mouse);
            var p := ZoomedPosition(v, t, mouse, newZoom);
            Rotate(t, Vec2(anchor.x - p.x, anchor.y - p.y)) == Vec2(view.x * keep, view.y * keep)
  {
    var u := Unrotate(t, view);
    var anchor := ScreenToWorld(v, t, mouse);
    var p := ZoomedPosition(v, t, mouse, newZoom);
    AnchorOffset(v, t, mouse, newZoom, view, u, keep);
    RotatedScaled(t, view, u, keep, Vec2(anchor.x - p.x, anchor.y - p.y));
  }

  /** Rotating the scaled unrotated view offset gives the scaled view offset. */
  lemma RotatedScaled(t: Turn, view: Vec2, u: Vec2, keep: real, d: Vec2)
    requires IsRotation(t) && u == Unrotate(t, view) && d == Vec2(u.x * keep, u.y * keep)
    ensures Rotate(t, d) == Vec2(view.x * keep, view.y * keep)
  {
    RotateScales(t, u, keep);
    RotateUnrotate(t, view);
  }

  /** The anchor minus the new camera position is the unrotated view offset scaled by `keep`. */
  lemma AnchorOffset(v: Viewport, t: Turn, mouse: Vec2, newZoom: real, view: Vec2, u: Vec2, keep: real)
    requires v.zoom != 0.0 && newZoom != 0.0
    requires keep == v.zoom / newZoom
    requires view == Vec2((mouse.x - v.width / 2.0) / v.zoom, (mouse.y - v.height / 2.0) / v.zoom)
    requires u == Unrotate(t, view)
    ensures var anchor := ScreenToWorld(v, t, mouse);
            var p := ZoomedPosition(v, t, mouse, newZoom);
            Vec2(anchor.x - p.x, anchor.y - p.y) == Vec2(u.x * keep, u.y * keep)
  {
    var anchor := ScreenToWorld(v, t, mouse);
    assert anchor == Vec2(u.x + v.x, u.y + v.y);
    OffsetAfterZoom(anchor.x, v.x, u.x, keep);
    OffsetAfterZoom(anchor.y, v.y, u.y, keep);
  }

  /** The anchor minus the new camera coordinate is the old offset scaled by `keep`. */
  lemma OffsetAfterZoom(anchor: real, cam: real, u: real, keep: real)
    requires anchor == u + cam
    ensures anchor - (anchor - (anchor - cam) * keep) == u * keep
  {
  }

  /** Undoing the old zoom, scaling by old over new, and applying the new zoom gives the screen offset back. */
  lemma ZoomCancels(a: real, zoom: real, newZoom: real)
    requires zoom != 0.0 && newZoom != 0.0
    ensures a / zoom * (zoom / newZoom) * newZoom == a
  {
    assert a / zoom * (zoom / newZoom) == a / newZoom;
  }

  /** Rotation commutes with scaling. */
  lemma RotateScales(t: Turn, u: Vec2, k: real)
    ensures Rotate(t, Vec2(u.x * k, u.y * k)) == Vec2(Rotate(t, u).x * k, Rotate(t, u).y * k)
  {
    assert u.x * k * t.cos - u.y * k * t.sin == (u.x * t.cos - u.y * t.sin) * k;
    assert u.x * k * t.sin + u.y * k * t.cos == (u.x * t.sin + u.y * t.cos) * k;
  }

  /**
   * As written, zooming in by one wheel step at 100 px per inch with the
   * mouse 100 px right of the centre moves the point that was under the
   * mouse 21 px further right.
   */
  lemma AsWrittenZoomDrifts(v: Viewport, t: Turn, mouse: Vec2)
    requires v == Viewport(0.0, 0.0, 100.0, 800.0, 600.0) && t == Turn(1.0, 0.0) && mouse == Vec2(500.0, 300.0)
    ensures ScreenToWorld(v, t, mouse) == Vec2(1.0, 0.0)
    ensures ZoomedPositionAsWritten(v, t, mouse, 110.0) == Vec2(-0.1, 0.0)
    ensures WorldToScreen(Viewport(-0.1, 0.0, 110.0, 800.0, 600.0), t, Vec2(1.0, 0.0)) == Vec2(521.0, 300.0)
  {
    var view := Vec2((mouse.x - v.width / 2.0) / v.zoom, (mouse.y - v.height / 2.0) / v.zoom);
    assert view == Vec2(1.0, 0.0);
    assert Unrotate(t, view) == Vec2(1.0, 0.0);
    var rowZero := Vec2((mouse.x - v.width / 2.0) / v.zoom, (0.0 - v.height / 2.0) / v.zoom);
    assert rowZero == Vec2(1.0, -3.0);
    assert Unrotate(t, rowZero) == Vec2(1.0, -3.0);
    var columnZero := Vec2((0.0 - v.width / 2.0) / v.zoom, (mouse.y - v.height / 2.0) / v.zoom);
    assert columnZero == Vec2(-4.0, 0.0);
    assert Unrotate(t, columnZero) == Vec2(-4.0, 0.0);
    assert 110.0 / v.zoom == 1.1;
    assert Rotate(t, Vec2(1.1, 0.0)) == Vec2(1.1, 0.0);
  }

  // ---------------------------------------------------------------------
  // The controller
  // ---------------------------------------------------------------------

  /** A saved 2D view. */
  datatype View = View(x: real, y: real, zoom: real, rotation: real)

  /** The zoom limits for a device pixel ratio, before ordering them. */
  function MaxZoomFor(dpr: real): real
    requires dpr != 0.0
  {
    MaxPxForFinestLod / (FinestLod * dpr)
  }

  function MinZoomFor(dpr: real): real
    requires dpr != 0.0
  {
    MinPxForCoarsestLod / (CoarsestLod * dpr)
  }

  /** Both limits have the sign of the pixel ratio, so a zoom between them is never 0. */
  lemma LimitsShareSign(dpr: real)
    requires dpr != 0.0
    ensures MaxZoomFor(dpr) == 9600.0 / dpr && MinZoomFor(dpr) == 25.0 / dpr
    ensures dpr > 0.0 ==> 0.0 < MinZoomFor(dpr) < MaxZoomFor(dpr)
    ensures dpr < 0.0 ==> MaxZoomFor(dpr) < MinZoomFor(dpr) < 0.0
  {
  }

  class CameraController {
    var x: real
    var y: real
    var rotation: real
    var zoom: real
    var minZoom: real
    var maxZoom: real
    var width: real
    var height: real
    var dpr: real
    var isRotating: bool
    var stored2DState: Option<View>

    /** The limits are ordered and the zoom lies between them. */
    predicate Valid()
      reads this
    {
      dpr != 0.0 &&
      minZoom == Min(MinZoomFor(dpr), MaxZoomFor(dpr)) && maxZoom == Max(MinZoomFor(dpr), MaxZoomFor(dpr)) &&
      minZoom <= zoom <= maxZoom
    }

    function CurrentViewport(): Viewport
      reads this
    {
      Viewport(x, y, zoom, width, height)
    }

    /**
     * The constructor: a missing or zero CSS size falls back to 800 by 600,
     * a missing pixel ratio to 1; the zoom shows 24 inches from top to
     * bottom, within the limits.
     */
    constructor(clientWidth: Option<real>, clientHeight: Option<real>, devicePixelRatio: Option<real>)
      ensures Valid()
      ensures x == 0.0 && y == 0.0 && rotation == 0.0 && !isRotating && stored2DState == None
      ensures width == OrDefault(clientWidth, 800.0) && height == OrDefault(clientHeight, 600.0)
      ensures dpr == OrDefault(devicePixelRatio, 1.0)
      ensures zoom == ZoomClamp(if height > 0.0 then height / InitialVisibleHeight else FallbackZoom, minZoom, maxZoom)
    {
      x := 0.0;
      y := 0.0;
      rotation := 0.0;
      width := OrDefault(clientWidth, 800.0);
      height := OrDefault(clientHeight, 600.0);
      dpr := OrDefault(devicePixelRatio, 1.0);
      isRotating := false;
      stored2DState := None;
      new;
      CalculateZoomLimits();
      if height > 0.0 {
        zoom := height / InitialVisibleHeight;
      } else {
        zoom := FallbackZoom;
      }
      ApplyZoomConstraints();
    }

    /** `calculateZoomLimits`: the two limits from the pixel ratio, swapped when out of order. */
    method CalculateZoomLimits()
      requires dpr != 0.0
      modifies this
      ensures width == old(width) && height == old(height) && dpr == old(dpr)
      ensures minZoom <= maxZoom
      ensures minZoom == Min(MinZoomFor(dpr), MaxZoomFor(dpr)) && maxZoom == Max(MinZoomFor(dpr), MaxZoomFor(dpr))
      ensures x == old(x) && y == old(y) && rotation == old(rotation) && zoom == old(zoom)
      ensures isRotating == old(isRotating) && stored2DState == old(stored2DState)
    {
      maxZoom := MaxPxForFinestLod / (FinestLod * dpr);
      minZoom := MinPxForCoarsestLod / (CoarsestLod * dpr);
      if minZoom > maxZoom {
        minZoom, maxZoom := maxZoom, minZoom;
      }
    }

    /** `applyZoomConstraints`: raise the zoom to the minimum, then lower it to the maximum. */
    method ApplyZoomConstraints()
      requires minZoom <= maxZoom
      modifies this
      ensures zoom == ZoomClamp(old(zoom), minZoom, maxZoom) && minZoom <= zoom <= maxZoom
      ensures old(minZoom <= zoom <= maxZoom) ==> zoom == old(zoom)
      ensures x == old(x) && y == old(y) && rotation == old(rotation)
      ensures minZoom == old(minZoom) && maxZoom == old(maxZoom)
      ensures width == old(width) && height == old(height) && dpr == old(dpr)
      ensures isRotating == old(isRotating) && stored2DState == old(stored2DState)
    {
      if zoom < minZoom {
        zoom := minZoom;
      }
      if zoom > maxZoom {
        zoom := maxZoom;
      }
    }

    /**
     * `handleZoom`: nothing while rotating; otherwise one wheel step,
     * clamped to the limits, and the position moves only when the zoom
     * changes, so that the point under the mouse stays under it.
     */
    method HandleZoom(mouse: Vec2, deltaY: real, t: Turn)
      requires Valid()
      modifies this
      ensures Valid()
      ensures old(isRotating) ==> zoom == old(zoom) && x == old(x) && y == old(y)
      ensures !old(isRotating) ==> zoom == ZoomClamp(old(zoom) * ZoomFactor(deltaY), minZoom, maxZoom)
      ensures zoom == old(zoom) ==> x == old(x) && y == old(y)
      ensures zoom != old(zoom) ==>
        Vec2(x, y) == ZoomedPosition(old(CurrentViewport()), t, mouse, zoom)
      ensures zoom != old(zoom) && IsRotation(t) ==>
        WorldToScreen(CurrentViewport(), t, ScreenToWorld(old(CurrentViewport()), t, mouse)) == mouse
      ensures rotation == old(rotation) && minZoom == old(minZoom) && maxZoom == old(maxZoom)
      ensures width == old(width) && height == old(height) && dpr == old(dpr)
      ensures isRotating == old(isRotating) && stored2DState == old(stored2DState)
    {
      if isRotating {
        return;
      }
      LimitsShareSign(dpr);
      var newZoomAttempt := zoom * ZoomFactor(deltaY);
      var newZoom := Max(minZoom, Min(maxZoom, newZoomAttempt));
      if newZoom != zoom {
        var p := ZoomedPosition(CurrentViewport(), t, mouse, newZoom);
        if IsRotation(t) {
          ZoomKeepsPointUnderMouse(CurrentViewport(), t, mouse, newZoom);
        }
        x := p.x;
        y := p.y;
        zoom := newZoom;
      }
    }

    /** `saveCurrent2DState`. */
    method SaveCurrent2DState()
      modifies this
      ensures stored2DState == Some(View(x, y, zoom, rotation))
      ensures x == old(x) && y == old(y) && zoom == old(zoom) && rotation == old(rotation)
      ensures minZoom == old(minZoom) && maxZoom == old(maxZoom)
      ensures width == old(width) && height == old(height) && dpr == old(dpr) && isRotating == old(isRotating)
    {
      stored2DState := Some(View(x, y, zoom, rotation));
    }

    /**
     * `restore2DState`: with a saved view, its position, zoom and rotation
     * come back, the zoom clamped to the current limits; without one,
     * nothing changes.
     */
    method Restore2DState()
      requires Valid()
      modifies this
      ensures Valid()
      ensures old(stored2DState).None? ==> x == old(x) && y == old(y) && zoom == old(zoom) && rotation == old(rotation)
      ensures old(stored2DState).Some? ==>
        var s := old(stored2DState).value;
        x == s.x && y == s.y && rotation == s.rotation && zoom == ZoomClamp(s.zoom, minZoom, maxZoom)
      ensures minZoom == old(minZoom) && maxZoom == old(maxZoom)
      ensures width == old(width) && height == old(height) && dpr == old(dpr)
      ensures isRotating == old(isRotating) && stored2DState == old(stored2DState)
    {
      if stored2DState.Some? {
        var s := stored2DState.value;
        x := s.x;
        y := s.y;
        zoom := s.zoom;
        rotation := s.rotation;
        ApplyZoomConstraints();
      }
    }

    /** `getVisibleWorldHeight`: the inches shown from top to bottom, Infinity at zoom 0. */
    function VisibleWorldHeight(): (r: Num)
      reads this
      ensures r == PosInf <==> zoom == 0.0
      ensures r.Fin? ==> r.v * zoom == height
    {
      if zoom == 0.0 then PosInf else Fin(height / zoom)
    }
  }
}
