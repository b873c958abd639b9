/**
 * The scroll saw (modules/ScrollCuttingSystem.js): a freehand cutting path
 * is drawn point by point, smoothed when the stroke ends, given a handful of
 * draggable control points, and rebuilt from those control points by
 * straight-line interpolation whenever one of them moves. The rulers pick a
 * tick spacing from a fixed list of "nice" increments.
 *
 * Paths and control points are in the workpiece's local coordinates; the
 * conversion to and from world coordinates is not part of this model.
 */
module ScrollCutting {
  import opened Wrappers
  import opened Geometry
  import opened JsNum

  // ---------------------------------------------------------------------
  // Smoothing
  // ---------------------------------------------------------------------

  /**
   * The smoothing level: 0 would mean no smoothing and 1 the most. It is set
   * to 0.7 when the tool is created and never changed, so the level-0 case
   * of `applySmoothingToPath` cannot occur.
   */
  const SmoothingLevel: real := 0.7

  /** One interior point after smoothing: `curr·(1−f) + (prev+next)·f/2` per axis, f the level. */
  function SmoothPoint(prev: Vec3, curr: Vec3, next: Vec3): Vec3
  {
    Vec3(curr.x * (1.0 - SmoothingLevel) + (prev.x + next.x) * SmoothingLevel * 0.5,
         curr.y * (1.0 - SmoothingLevel) + (prev.y + next.y) * SmoothingLevel * 0.5,
         curr.z * (1.0 - SmoothingLevel) + (prev.z + next.z) * SmoothingLevel * 0.5)
  }

  /**
   * `applySmoothingToPath`: paths of fewer than three points come back
   * unchanged; otherwise the end points stay and every interior point is
   * pulled towards the midpoint of its neighbours.
   */
  function Smoothed(raw: seq<Vec3>): (r: seq<Vec3>)
    ensures |r| == |raw|
    ensures |raw| < 3 ==> r == raw
    ensures |raw| > 0 ==> r[0] == raw[0] && r[|r| - 1] == raw[|raw| - 1]
    ensures |raw| >= 3 ==>
      forall i :: 0 < i < |raw| - 1 ==> r[i] == SmoothPoint(raw[i - 1], raw[i], raw[i + 1])
  {
    if |raw| < 3 then raw
    else
      seq(|raw|, i requires 0 <= i < |raw| =>
        if i == 0 || i == |raw| - 1 then raw[i] else SmoothPoint(raw[i - 1], raw[i], raw[i + 1]))
  }

  function Midpoint(a: Vec3, b: Vec3): Vec3
  {
    Vec3((a.x + b.x) * 0.5, (a.y + b.y) * 0.5, (a.z + b.z) * 0.5)
  }

  /** A point already midway between its neighbours is left where it is. */
  lemma MidpointIsFixed(prev: Vec3, next: Vec3)
    ensures SmoothPoint(prev, Midpoint(prev, next), next) == Midpoint(prev, next)
  {
  }

  /** Smoothing does not depend on where the path is: shifting the input shifts the output. */
  lemma SmoothPointTranslates(prev: Vec3, curr: Vec3, next: Vec3, d: Vec3)
    ensures SmoothPoint(Add(prev, d), Add(curr, d), Add(next, d)) == Add(SmoothPoint(prev, curr, next), d)
  {
  }

  /** A path of evenly spaced points on a line (each the midpoint of its neighbours) is already smooth. */
  lemma {:induction false} EvenLineIsSmooth(raw: seq<Vec3>)
    requires forall i :: 0 < i < |raw| - 1 ==> raw[i] == Midpoint(raw[i - 1], raw[i + 1])
    ensures Smoothed(raw) == raw
  {
    var r := Smoothed(raw);
    forall i | 0 <= i < |raw| ensures r[i] == raw[i] {
      if 0 < i < |raw| - 1 {
        MidpointIsFixed(raw[i - 1], raw[i + 1]);
      }
    }
  }

  // ---------------------------------------------------------------------
  // Control points
  // ---------------------------------------------------------------------

  predicate StrictlyIncreasing(s: seq<nat>)
  {
    forall i, j :: 0 <= i < j < |s| ==> s[i] < s[j]
  }

  /**
   * The path indices `createBezierControlPoints` puts control points at:
   * the start, one third and two thirds along a path of more than ten
   * points or the middle of one of six to ten, and the end.
   */
  function ControlIndices(n: nat): (r: seq<nat>)
    requires n >= 3
    ensures |r| == (if n > 10 then 4 else if n > 5 then 3 else 2)
    ensures r[0] == 0 && r[|r| - 1] == n - 1
    ensures StrictlyIncreasing(r)
    ensures forall i :: 0 <= i < |r| ==> r[i] < n
  {
    var middle: seq<nat> :=
      if n > 10 then
        var a := Floor(n as real * 0.33);
        var b := Floor(n as real * 0.67);
        assert 1 <= a < b < n - 1;
        [a, b]
      else if n > 5 then
        var m := Floor(n as real * 0.5);
        assert 1 <= m < n - 1;
        [m]
      else [];
    var start := [0] + middle;
    // The end is pushed unless it is already last, which never happens for n ≥ 3.
    assert start[|start| - 1] != n - 1;
    start + [n - 1]
  }

  /** A control point: the index of the path point it was created at, and where it is now. */
  datatype ControlPoint = ControlPoint(pathIndex: nat, position: Vec3)

  function Positions(cs: seq<ControlPoint>): (r: seq<Vec3>)
    ensures |r| == |cs|
    ensures forall i :: 0 <= i < |cs| ==> r[i] == cs[i].position
  {
    seq(|cs|, i requires 0 <= i < |cs| => cs[i].position)
  }

  function PathIndices(cs: seq<ControlPoint>): (r: seq<nat>)
    ensures |r| == |cs|
    ensures forall i :: 0 <= i < |cs| ==> r[i] == cs[i].pathIndex
  {
    seq(|cs|, i requires 0 <= i < |cs| => cs[i].pathIndex)
  }

  // ---------------------------------------------------------------------
  // Rebuilding the path from control points
  // ---------------------------------------------------------------------

  /** Interpolation steps between consecutive control points. */
  const Steps: nat := 8

  function Lerp(a: Vec3, b: Vec3, t: real): Vec3
  {
    Vec3(a.x + (b.x - a.x) * t, a.y + (b.y - a.y) * t, a.z + (b.z - a.z) * t)
  }

  /** The eight points after `a` on the way to `b`, the last being `b` itself. */
  function Segment(a: Vec3, b: Vec3): (r: seq<Vec3>)
    ensures |r| == Steps
    ensures r[Steps - 1] == b
  {
    seq(Steps, j requires 0 <= j < Steps => Lerp(a, b, (j + 1) as real / 8.0))
  }

  /**
   * `regenerateSmoothedPathFromControlPoints`: the first control point, then
   * for each further one eight evenly spaced points from the last point so
   * far up to it.
   */
  function Rebuilt(ps: seq<Vec3>): (r: seq<Vec3>)
    requires |ps| >= 1
    ensures |r| == 1 + Steps * (|ps| - 1)
    ensures r[|r| - 1] == ps[|ps| - 1]
    decreases |ps|
  {
    if |ps| == 1 then [ps[0]]
    else
      var before := Rebuilt(ps[..|ps| - 1]);
      before + Segment(before[|before| - 1], ps[|ps| - 1])
  }

  /** The rebuilt path passes through every control point: the `k`th sits at index 8k. */
  lemma {:induction false} RebuiltPassesThroughControlPoints(ps: seq<Vec3>)
    requires |ps| >= 1
    ensures forall k :: 0 <= k < |ps| ==> Rebuilt(ps)[Steps * k] == ps[k]
    decreases |ps|
  {
    if |ps| > 1 {
      var front := ps[..|ps| - 1];
      RebuiltPassesThroughControlPoints(front);
      var r := Rebuilt(ps);
      forall k | 0 <= k < |ps| ensures r[Steps * k] == ps[k] {
        if k < |ps| - 1 {
          assert r[Steps * k] == Rebuilt(front)[Steps * k];
          assert front[k] == ps[k];
        }
      }
    }
  }

  /**
   * The drag update as written: the path is rebuilt only when the dragged
   * point's `pathIndex` still indexes the current path. Rebuilding shortens
   * a long path to 1 + 8·(k−1) points while the indices stay those of the
   * original path.
   */
  function DraggedPathAsWritten(smoothed: seq<Vec3>, handles: seq<ControlPoint>, k: nat, p: Vec3): (r: seq<Vec3>)
    requires k < |handles|
    ensures handles[k].pathIndex >= |smoothed| ==> r == smoothed
  {
    var moved := handles[k := handles[k].(position := p)];
    var i := handles[k].pathIndex;
    if i < |smoothed| then
      if |moved| >= 2 then Rebuilt(Positions(moved)) else smoothed[i := p]
    else smoothed
  }

  /** The drag update as intended: with two or more control points the path is always rebuilt from them. */
  function DraggedPath(smoothed: seq<Vec3>, handles: seq<ControlPoint>, k: nat, p: Vec3): (r: seq<Vec3>)
    requires k < |handles|
    ensures |handles| >= 2 ==> |r| == 1 + Steps * (|handles| - 1) && r[Steps * k] == p
  {
    var moved := handles[k := handles[k].(position := p)];
    var i := handles[k].pathIndex;
    if |moved| >= 2 then
      RebuiltPassesThroughControlPoints(Positions(moved));
      Rebuilt(Positions(moved))
    else if i < |smoothed| then smoothed[i := p]
    else smoothed
  }

  /**
   * After one rebuild a path drawn with four control points has 25 points,
   * so dragging a control point created at index 25 or later leaves the path
   * as it was (as written) although the point moved; the intended update
   * runs the path through the new position.
   */
  lemma DragAfterRebuildIsIgnored(handles: seq<ControlPoint>, k: nat, p: Vec3)
    requires |handles| == 4 && k < 4 && handles[k].pathIndex >= 25
    ensures var rebuilt := Rebuilt(Positions(handles));
            && |rebuilt| == 25
            && DraggedPathAsWritten(rebuilt, handles, k, p) == rebuilt
            && DraggedPath(rebuilt, handles, k, p)[Steps * k] == p
  {
  }

  /** The smoothing loop of `applySmoothingToPath`. */
  method SmoothPath(rawPath: seq<Vec3>) returns (smoothed: seq<Vec3>)
    ensures smoothed == Smoothed(rawPath)
  {
    if |rawPath| < 3 {
      return rawPath;
    }
    ghost var spec := Smoothed(rawPath);
    smoothed := [rawPath[0]];
    for i := 1 to |rawPath| - 1
      invariant smoothed == spec[..i]
    {
      SmoothedPrefixGrows(rawPath, i);
      smoothed := smoothed + [SmoothPoint(rawPath[i - 1], rawPath[i], rawPath[i + 1])];
    }
    SmoothedPrefixGrows(rawPath, |rawPath| - 1);
    assert spec[..|rawPath|] == spec;
    smoothed := smoothed + [rawPath[|rawPath| - 1]];
  }

  lemma SmoothedPrefixGrows(rawPath: seq<Vec3>, i: nat)
    requires |rawPath| >= 3 && 0 < i < |rawPath|
    ensures Smoothed(rawPath)[..i + 1] == Smoothed(rawPath)[..i] +
      [if i == |rawPath| - 1 then rawPath[i] else SmoothPoint(rawPath[i - 1], rawPath[i], rawPath[i + 1])]
  {
    var spec := Smoothed(rawPath);
    PrefixStep(spec, i);
  }

  /** One more element of a sequence's prefix. */
  lemma PrefixStep(s: seq<Vec3>, i: nat)
    requires i < |s|
    ensures s[..i + 1] == s[..i] + [s[i]]
  {
  }

  /** The loops of `regenerateSmoothedPathFromControlPoints`. */
  method RebuildPath(ps: seq<Vec3>) returns (newPath: seq<Vec3>)
    requires |ps| >= 1
    ensures newPath == Rebuilt(ps)
  {
    newPath := [];
    for i := 0 to |ps|
      invariant i == 0 ==> newPath == []
      invariant i > 0 ==> newPath == Rebuilt(ps[..i])
    {
      if i == 0 {
        newPath := [ps[0]];
        assert ps[..1] == [ps[0]];
      } else {
        newPath := AppendSegment(newPath, newPath[|newPath| - 1], ps[i]);
        assert ps[..i + 1][..i] == ps[..i];
      }
    }
    assert ps[..|ps|] == ps;
  }

  /** The inner loop of the rebuild: eight interpolated points from `a` to `b` are pushed. */
  method AppendSegment(path: seq<Vec3>, a: Vec3, b: Vec3) returns (r: seq<Vec3>)
    ensures r == path + Segment(a, b)
  {
    r := path;
    for step := 1 to Steps + 1
      invariant r == path + Segment(a, b)[..step - 1]
    {
      var t := step as real / 8.0;
      r := r + [Lerp(a, b, t)];
    }
  }

  // ---------------------------------------------------------------------
  // Ruler ticks
  // ---------------------------------------------------------------------

  const NiceIncrements: seq<real> := [0.125, 0.25, 0.5, 1.0, 2.0, 4.0, 8.0]
  /** `targetPixelSpacing * 0.7` with a 60-pixel target. */
  const MinTickPixels: real := 42.0

  /** The first increment at least `MinTickPixels` apart on screen, if any. */
  function FirstWideEnough(incs: seq<real>, pixelsPerUnit: real): (r: Option<nat>)
    ensures r.Some? ==> r.value < |incs| && incs[r.value] * pixelsPerUnit >= MinTickPixels
    ensures r.Some? ==> forall j :: 0 <= j < r.value ==> incs[j] * pixelsPerUnit < MinTickPixels
    ensures r.None? ==> forall j :: 0 <= j < |incs| ==> incs[j] * pixelsPerUnit < MinTickPixels
  {
    if incs == [] then None
    else if incs[0] * pixelsPerUnit >= MinTickPixels then Some(0)
    else
      match FirstWideEnough(incs[1..], pixelsPerUnit)
      case None => None
      case Some(k) => Some(k + 1)
  }

  /** `calculateOptimalTickSpacing`: the first nice increment wide enough, else 1.0. */
  method CalculateOptimalTickSpacing(pixelsPerUnit: real) returns (spacing: real)
    ensures FirstWideEnough(NiceIncrements, pixelsPerUnit).Some? ==>
      spacing == NiceIncrements[FirstWideEnough(NiceIncrements, pixelsPerUnit).value]
    ensures FirstWideEnough(NiceIncrements, pixelsPerUnit).None? ==> spacing == 1.0
  {
    var incs := NiceIncrements;
    for i := 0 to |incs|
      invariant FirstWideEnough(incs[..i], pixelsPerUnit).None?
    {
      if incs[i] * pixelsPerUnit >= MinTickPixels {
        FirstWideEnoughAfterNone(incs, i, pixelsPerUnit);
        return incs[i];
      }
      FirstWideEnoughNone(incs[..i + 1], pixelsPerUnit);
    }
    assert incs[..|incs|] == incs;
    return 1.0;
  }

  lemma {:induction false} FirstWideEnoughNone(incs: seq<real>, pixelsPerUnit: real)
    requires forall j :: 0 <= j < |incs| ==> incs[j] * pixelsPerUnit < MinTickPixels
    ensures FirstWideEnough(incs, pixelsPerUnit).None?
  {
    if incs != [] {
      FirstWideEnoughNone(incs[1..], pixelsPerUnit);
    }
  }

  lemma {:induction false} FirstWideEnoughAfterNone(incs: seq<real>, i: nat, pixelsPerUnit: real)
    requires i < |incs| && incs[i] * pixelsPerUnit >= MinTickPixels
    requires FirstWideEnough(incs[..i], pixelsPerUnit).None?
    ensures FirstWideEnough(incs, pixelsPerUnit) == Some(i)
  {
    if i > 0 {
      assert incs[..i][1..] == incs[1..][..i - 1];
      FirstWideEnoughAfterNone(incs[1..], i - 1, pixelsPerUnit);
    }
  }

  /**
   * Zoomed out below 5.25 pixels per unit, no increment is wide enough and
   * the fallback 1.0 is used: ticks eight times denser than the 8.0 chosen
   * just above that zoom.
   */
  lemma FallbackIsDenserThanLargest()
    ensures FirstWideEnough(NiceIncrements, 5.25) == Some(6)
    ensures FirstWideEnough(NiceIncrements, 5.0).None?
  {
    var incs := NiceIncrements;
    assert incs[6] == 8.0;
    IncrementsBelow(incs, 7, 5.0);
    FirstWideEnoughNone(incs, 5.0);
    var front := incs[..6];
    IncrementsBelow(front, 6, 5.25);
    FirstWideEnoughNone(front, 5.25);
    FirstWideEnoughAfterNone(incs, 6, 5.25);
  }

  /** The first six increments stay under the minimum up to 5.25 pixels per unit, all seven up to 5.0. */
  lemma IncrementsBelow(incs: seq<real>, n: nat, pixelsPerUnit: real)
    requires n <= |NiceIncrements| && incs == NiceIncrements[..n]
    requires 0.0 <= pixelsPerUnit <= 5.25 && (n == |NiceIncrements| ==> pixelsPerUnit <= 5.0)
    ensures forall j :: 0 <= j < |incs| ==> incs[j] * pixelsPerUnit < MinTickPixels
  {
  }

  // ---------------------------------------------------------------------
  // The drawing state
  // ---------------------------------------------------------------------

  class ScrollCutState {
    var isDrawing: bool
    var currentPath: seq<Vec3>
    var smoothedPath: seq<Vec3>
    var controlHandles: seq<ControlPoint>
    /** The control point being dragged, by its place in `controlHandles`. */
    var selectedControl: Option<nat>

    /**
     * Control points are created in path order and only ever removed, so
     * their path indices stay strictly increasing: the sort by `pathIndex`
     * before a rebuild leaves them in place.
     */
    ghost predicate Valid()
      reads this
    {
      && StrictlyIncreasing(PathIndices(controlHandles))
      && (selectedControl.Some? ==> selectedControl.value < |controlHandles|)
    }

    constructor()
      ensures Valid() && !isDrawing && currentPath == [] && smoothedPath == [] && controlHandles == []
      ensures selectedControl == None
    {
      isDrawing := false;
      currentPath := [];
      smoothedPath := [];
      controlHandles := [];
      selectedControl := None;
    }

    /** `startDrawing`: a point on the workpiece plane starts a new path with that point. */
    method StartDrawing(point: Option<Vec3>)
      modifies this
      ensures point.Some? ==> isDrawing && currentPath == [point.value]
      ensures point.None? ==> isDrawing == old(isDrawing) && currentPath == old(currentPath)
      ensures smoothedPath == old(smoothedPath) && controlHandles == old(controlHandles)
      ensures selectedControl == old(selectedControl)
    {
      if point.Some? {
        isDrawing := true;
        currentPath := [point.value];
      }
    }

    /** `addPointToPath`: a point on the workpiece plane is appended. */
    method AddPointToPath(point: Option<Vec3>)
      modifies this
      ensures currentPath == if point.Some? then old(currentPath) + [point.value] else old(currentPath)
      ensures isDrawing == old(isDrawing) && smoothedPath == old(smoothedPath) && controlHandles == old(controlHandles)
      ensures selectedControl == old(selectedControl)
    {
      if point.Some? {
        currentPath := currentPath + [point.value];
      }
    }

    /** `clearCurrentPath`. */
    method ClearCurrentPath()
      modifies this
      ensures currentPath == [] && smoothedPath == [] && !isDrawing
      ensures controlHandles == old(controlHandles) && selectedControl == old(selectedControl)
    {
      currentPath := [];
      smoothedPath := [];
      isDrawing := false;
    }

    /** `clearCurrentCutPath`: the path and every control point go. */
    method ClearCurrentCutPath()
      modifies this
      ensures currentPath == [] && smoothedPath == [] && !isDrawing && controlHandles == []
      ensures selectedControl == old(selectedControl)
    {
      ClearCurrentPath();
      controlHandles := [];
    }

    /** `applySmoothingToPath` at the current smoothing level. */
    method ApplySmoothingToPath(rawPath: seq<Vec3>) returns (smoothed: seq<Vec3>)
      ensures smoothed == Smoothed(rawPath)
    {
      smoothed := SmoothPath(rawPath);
    }

    /**
     * `createBezierControlPoints`: on a path of at least three points, the
     * control points are replaced by one per chosen index, at that path
     * point; a shorter path leaves the existing ones alone.
     */
    method CreateBezierControlPoints()
      requires Valid()
      modifies this
      ensures Valid()
      ensures |smoothedPath| < 3 ==> controlHandles == old(controlHandles) && selectedControl == old(selectedControl)
      ensures |smoothedPath| >= 3 ==>
        && PathIndices(controlHandles) == ControlIndices(|smoothedPath|)
        && (forall i :: 0 <= i < |controlHandles| ==> controlHandles[i].position == smoothedPath[controlHandles[i].pathIndex])
      ensures smoothedPath == old(smoothedPath) && currentPath == old(currentPath) && isDrawing == old(isDrawing)
    {
      if |smoothedPath| < 3 {
        return;
      }
      var path := smoothedPath;
      var indices := ControlIndices(|path|);
      var created: seq<ControlPoint> := [];
      for i := 0 to |indices|
        invariant |created| == i
        invariant forall j :: 0 <= j < i ==> created[j] == ControlPoint(indices[j], path[indices[j]])
      {
        created := created + [ControlPoint(indices[i], path[indices[i]])];
      }
      assert PathIndices(created) == indices;
      controlHandles := created;
      selectedControl := None;
    }

    /**
     * `finishDrawing`: a stroke of fewer than two points (or no stroke) is
     * discarded; otherwise drawing stops, the stroke is smoothed and the
     * control points are laid on the smoothed path.
     */
    method FinishDrawing()
      requires Valid()
      modifies this
      ensures Valid()
      ensures !old(isDrawing) || |old(currentPath)| < 2 ==>
        currentPath == [] && smoothedPath == [] && !isDrawing && controlHandles == old(controlHandles)
      ensures old(isDrawing) && |old(currentPath)| >= 2 ==>
        && !isDrawing && currentPath == old(currentPath)
        && smoothedPath == Smoothed(old(currentPath))
        && (|smoothedPath| >= 3 ==> PathIndices(controlHandles) == ControlIndices(|smoothedPath|))
        && (|smoothedPath| < 3 ==> controlHandles == old(controlHandles))
    {
      if !isDrawing || |currentPath| < 2 {
        ClearCurrentPath();
        return;
      }
      isDrawing := false;
      smoothedPath := ApplySmoothingToPath(currentPath);
      CreateBezierControlPoints();
    }

    /**
     * `regenerateSmoothedPathFromControlPoints`: with two or more control
     * points the path becomes their interpolation; with fewer nothing changes.
     */
    method RegenerateSmoothedPathFromControlPoints()
      requires Valid()
      modifies this
      ensures Valid()
      ensures |controlHandles| >= 2 ==> smoothedPath == Rebuilt(Positions(controlHandles))
      ensures |controlHandles| < 2 ==> smoothedPath == old(smoothedPath)
      ensures controlHandles == old(controlHandles) && currentPath == old(currentPath)
      ensures selectedControl == old(selectedControl) && isDrawing == old(isDrawing)
    {
      if |controlHandles| < 2 {
        return;
      }
      // Sorting by pathIndex is the identity here (Valid).
      smoothedPath := RebuildPath(Positions(controlHandles));
    }

    /**
     * `handleControlPointDrag` on a control point: it moves to the new point
     * on the workpiece plane and the path follows (the intended update,
     * `DraggedPath`).
     */
    method HandleControlPointDrag(newPosition: Option<Vec3>)
      requires Valid()
      modifies this
      ensures Valid()
      ensures selectedControl.None? || newPosition.None? ==>
        controlHandles == old(controlHandles) && smoothedPath == old(smoothedPath)
      ensures old(selectedControl).Some? && newPosition.Some? ==>
        var k := old(selectedControl).value;
        && controlHandles == old(controlHandles)[k := old(controlHandles)[k].(position := newPosition.value)]
        && smoothedPath == DraggedPath(old(smoothedPath), old(controlHandles), k, newPosition.value)
      ensures selectedControl == old(selectedControl) && currentPath == old(currentPath)
    {
      if selectedControl.None? || newPosition.None? {
        return;
      }
      var k := selectedControl.value;
      var p := newPosition.value;
      var i := controlHandles[k].pathIndex;
      assert PathIndices(controlHandles[k := controlHandles[k].(position := p)]) == PathIndices(controlHandles);
      controlHandles := controlHandles[k := controlHandles[k].(position := p)];
      if i < |smoothedPath| {
        smoothedPath := smoothedPath[i := p];
      }
      RegenerateSmoothedPathFromControlPoints();
    }

    /**
     * `deleteControlPoint`: the point goes and the selection is cleared; two
     * or more remaining points become the path itself (no interpolation),
     * fewer clear the cut path.
     */
    method DeleteControlPoint(k: nat)
      requires Valid() && k < |controlHandles|
      modifies this
      ensures Valid() && selectedControl == None
      ensures |old(controlHandles)| <= 2 ==> controlHandles == [] && smoothedPath == [] && currentPath == []
      ensures |old(controlHandles)| > 2 ==>
        && controlHandles == old(controlHandles)[..k] + old(controlHandles)[k + 1..]
        && smoothedPath == Positions(controlHandles)
    {
      var remaining := controlHandles[..k] + controlHandles[k + 1..];
      assert StrictlyIncreasing(PathIndices(remaining)) by {
        var old_ := PathIndices(controlHandles);
        forall a, b | 0 <= a < b < |remaining| ensures remaining[a].pathIndex < remaining[b].pathIndex {
          var a' := if a < k then a else a + 1;
          var b' := if b < k then b else b + 1;
          assert remaining[a] == controlHandles[a'] && remaining[b] == controlHandles[b'];
          assert old_[a'] < old_[b'];
        }
      }
      controlHandles := remaining;
      selectedControl := None;
      if |controlHandles| < 2 {
        ClearCurrentCutPath();
        return;
      }
      smoothedPath := Positions(controlHandles);
    }
  }
}
