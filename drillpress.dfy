/**
 * The drill press (modules/DrillPressSystem.js): choose a workbench board
 * and its surface, place hole markers on it (snapping to markers already
 * placed), select, drag and delete markers, and turn each marker into the
 * cylinder that is subtracted from the board.
 *
 * Scene picks are parameters: which board and face a click hits, which
 * marker (if any) owns the picked mesh, and the point hit on the board.
 */
module DrillPress {
  import opened Wrappers
  import opened Geometry
  import opened JsNum

  /** Snapping tolerance, as the source states it (`1/32`). */
  const SnapDistance: real := 0.03125
  /** Mouse travel, in pixels, before a press on a marker becomes a drag. */
  const DragThreshold: real := 5.0
  const DefaultDrillSize: real := 0.25
  const Through := "through"

  /** A placed hole marker: where it is, its bit size and its depth setting. */
  class Marker {
    var position: Vec3
    var drillSize: real
    const drillDepth: string

    constructor(position: Vec3, drillSize: real, drillDepth: string)
      ensures this.position == position && this.drillSize == drillSize && this.drillDepth == drillDepth
    {
      this.position := position;
      this.drillSize := drillSize;
      this.drillDepth := drillDepth;
    }
  }

  // ---------------------------------------------------------------------
  // Snapping to existing markers
  // ---------------------------------------------------------------------

  function DistSq(p: Vec3, q: Vec3): real
  {
    (p.x - q.x) * (p.x - q.x) + (p.y - q.y) * (p.y - q.y) + (p.z - q.z) * (p.z - q.z)
  }

  /** `Vector3.Distance(p, q) < snapDistance`, compared on squares. */
  predicate Near(p: Vec3, q: Vec3)
  {
    DistSq(p, q) < SnapDistance * SnapDistance
  }

  /** The first marker other than `exclude` near `p`, as the loop with its `break` finds it. */
  function FirstNear(ms: seq<Marker>, p: Vec3, exclude: Marker?): (r: Option<nat>)
    reads ms
    ensures r.Some? ==> r.value < |ms| && ms[r.value] != exclude && Near(p, ms[r.value].position)
    ensures r.Some? ==> forall j :: 0 <= j < r.value ==> ms[j] == exclude || !Near(p, ms[j].position)
    ensures r.None? ==> forall j :: 0 <= j < |ms| ==> ms[j] == exclude || !Near(p, ms[j].position)
  {
    if ms == [] then None
    else if ms[0] != exclude && Near(p, ms[0].position) then Some(0)
    else
      match FirstNear(ms[1..], p, exclude)
      case None => None
      case Some(k) => Some(k + 1)
  }

  /** The per-axis copy the source makes once a marker is near. */
  function SnapTo(p: Vec3, q: Vec3): Vec3
  {
    var x := if Abs(p.x - q.x) < SnapDistance then q.x else p.x;
    var z := if Abs(p.z - q.z) < SnapDistance then q.z else p.z;
    Vec3(x, p.y, z)
  }

  /** For non-negative numbers, squares keep the order. */
  lemma SquareOrder(x: real, y: real)
    requires 0.0 <= x && 0.0 <= y
    ensures x * x < y * y ==> x < y
  {
    if x >= y {
      assert x * x >= y * x >= y * y;
    }
  }

  lemma SquareBelow(a: real, s: real)
    requires s > 0.0 && a * a < s * s
    ensures Abs(a) < s
  {
    assert Abs(a) * Abs(a) == a * a;
    SquareOrder(Abs(a), s);
  }

  /**
   * Within the snap distance, both per-axis tests always pass: a near
   * marker lends its x and its z, and the height stays.
   */
  lemma NearSnapsBothAxes(p: Vec3, q: Vec3)
    requires Near(p, q)
    ensures SnapTo(p, q) == Vec3(q.x, p.y, q.z)
  {
    var dx, dy, dz := p.x - q.x, p.y - q.y, p.z - q.z;
    assert dy * dy >= 0.0 && dz * dz >= 0.0 && dx * dx >= 0.0;
    SquareBelow(dx, SnapDistance);
    SquareBelow(dz, SnapDistance);
  }

  /** Where `getSnappedPosition` puts `p`. */
  function Snapped(ms: seq<Marker>, p: Vec3, exclude: Marker?): (r: Vec3)
    reads ms
    ensures FirstNear(ms, p, exclude).None? ==> r == p
    ensures FirstNear(ms, p, exclude).Some? ==>
      var q := ms[FirstNear(ms, p, exclude).value].position;
      r == Vec3(q.x, p.y, q.z)
  {
    match FirstNear(ms, p, exclude)
    case None => p
    case Some(i) =>
      NearSnapsBothAxes(p, ms[i].position);
      SnapTo(p, ms[i].position)
  }

  // ---------------------------------------------------------------------
  // Hole cylinders and the drilling summary
  // ---------------------------------------------------------------------

  /** The cutter for one hole: its height and the height of its centre. */
  datatype Cylinder = Cylinder(height: Num, centerY: Num)

  /**
   * `createHoleCylinder`: a through hole is two units taller than the board
   * and centred on the marker; a partial hole is `parseFloat(depth)` tall
   * and lowered so that its top is at the marker (an infinite height puts
   * the centre at the opposite infinity, as `y - h / 2` does).
   */
  function HoleCylinder(position: Vec3, boardHeight: real, depth: string): (c: Cylinder)
    ensures depth == Through ==> c.height == Fin(boardHeight + 2.0) && c.centerY == Fin(position.y)
    ensures depth != Through ==> c.height == ParseFloat(depth)
    ensures depth != Through && c.height.Fin? ==> c.centerY.Fin? && c.centerY.v + c.height.v / 2.0 == position.y
    ensures depth != Through && c.height == PosInf ==> c.centerY == NegInf
  {
    if depth == Through then Cylinder(Fin(boardHeight + 2.0), Fin(position.y))
    else
      var h := ParseFloat(depth);
      Cylinder(h, match h
                  case Fin(v) => Fin(position.y - v / 2.0)
                  case PosInf => NegInf
                  case NegInf => PosInf
                  case NaN => NaN)
  }

  /** `marker.drillDepth || this.currentDepth`: the depth a marker is drilled to. */
  function EffectiveDepth(markerDepth: string, currentDepth: string): string
  {
    if markerDepth != "" then markerDepth else currentDepth
  }

  /**
   * The depth word of the drilling summary as written: the condition reads
   * `(m.drillDepth || currentDepth === 'through')`, so any marker carrying
   * a depth is reported as a through hole.
   */
  function DepthPhraseAsWritten(markerDepth: string, currentDepth: string): (s: string)
    ensures markerDepth != "" ==> s == Through
  {
    if markerDepth != "" || currentDepth == Through then Through else markerDepth + "\" deep"
  }

  /** The depth word as intended: "through" only for a through hole, else the depth. */
  function DepthPhrase(markerDepth: string, currentDepth: string): (s: string)
    ensures s == Through <==> EffectiveDepth(markerDepth, currentDepth) == Through
    ensures s != Through ==> s == EffectiveDepth(markerDepth, currentDepth) + "\" deep"
  {
    var d := EffectiveDepth(markerDepth, currentDepth);
    if d == Through then Through
    else
      assert |d + "\" deep"| > |Through| || (d + "\" deep") != Through by {
        if |d + "\" deep"| == |Through| {
          assert (d + "\" deep")[|d|] == '"';
        }
      }
      d + "\" deep"
  }

  /**
   * Any marker that carries a partial depth (the depth menu's "0.5", say)
   * is reported as a through hole by the summary as written, and with its
   * depth by the intended one.
   */
  lemma SummaryCallsPartialHolesThrough(markerDepth: string, currentDepth: string)
    requires markerDepth != "" && markerDepth != Through
    ensures DepthPhraseAsWritten(markerDepth, currentDepth) == Through
    ensures DepthPhrase(markerDepth, currentDepth) == markerDepth + "\" deep"
  {
  }

  /** The intended summary word and the cutter agree on which holes go through. */
  lemma SummaryMatchesCylinder(position: Vec3, boardHeight: real, markerDepth: string, currentDepth: string)
    ensures var d := EffectiveDepth(markerDepth, currentDepth);
            DepthPhrase(markerDepth, currentDepth) == Through <==>
              HoleCylinder(position, boardHeight, d) == Cylinder(Fin(boardHeight + 2.0), Fin(position.y)) && d == Through
  {
  }

  // ---------------------------------------------------------------------
  // Surface selection
  // ---------------------------------------------------------------------

  /**
   * The surface test as written, `if (this.selectedSurface)`: a picked face
   * id of 0 is falsy, so a board selected through its first face counts as
   * having no surface.
   */
  predicate SurfaceChosenAsWritten(selectedSurface: Option<int>)
  {
    selectedSurface.Some? && selectedSurface.value != 0
  }

  /** The surface test as intended: a face has been picked. */
  predicate SurfaceChosen(selectedSurface: Option<int>)
  {
    selectedSurface.Some?
  }

  /**
   * A board chosen through face 0 is refused by every later test as
   * written, so no marker can be placed, selected, dragged or deleted on
   * it; the intended test accepts it.
   */
  lemma FirstFaceCountsAsNoSurface(faceId: int)
    requires faceId == 0
    ensures !SurfaceChosenAsWritten(Some(faceId))
    ensures SurfaceChosen(Some(faceId))
  {
  }

  /** Apart from face 0, the two tests agree. */
  lemma SurfaceTestsAgreeOffFaceZero(selectedSurface: Option<int>)
    requires selectedSurface != Some(0)
    ensures SurfaceChosenAsWritten(selectedSurface) <==> SurfaceChosen(selectedSurface)
  {
  }

  /** What the first click on a board hits: the mesh, the face and whether it carries part data. */
  datatype BoardHit = BoardHit(mesh: nat, faceId: int, hasPartData: bool)

  const SurfaceMessage := "Surface selected. Choose drill bit size and click to place holes. SHIFT disables snapping."

  class DrillPressState {
    var isActive: bool
    var selectedBoard: Option<nat>
    var selectedSurface: Option<int>
    var holeMarkers: seq<Marker>
    var selectedMarker: Marker?
    var currentDrillSize: real
    var currentDepth: string
    var shiftPressed: bool
    var isDragging: bool
    var dragStartPos: Option<Vec2>
    var instruction: string

    /** Markers are placed fresh, so none is listed twice. */
    ghost predicate Valid()
      reads this
    {
      forall i, j :: 0 <= i < j < |holeMarkers| ==> holeMarkers[i] != holeMarkers[j]
    }

    constructor()
      ensures Valid() && !isActive && holeMarkers == [] && selectedMarker == null
      ensures currentDrillSize == DefaultDrillSize && currentDepth == Through
      ensures selectedBoard == None && selectedSurface == None && !isDragging && dragStartPos == None
    {
      isActive := false;
      selectedBoard := None;
      selectedSurface := None;
      holeMarkers := [];
      selectedMarker := null;
      currentDrillSize := DefaultDrillSize;
      currentDepth := Through;
      shiftPressed := false;
      isDragging := false;
      dragStartPos := None;
      instruction := "";
    }

    method Activate() returns (ok: bool)
      modifies this
      ensures ok && isActive && instruction == "Click on a board to select it for drilling."
      ensures holeMarkers == old(holeMarkers) && selectedMarker == old(selectedMarker)
      ensures selectedBoard == old(selectedBoard) && selectedSurface == old(selectedSurface)
    {
      isActive := true;
      instruction := "Click on a board to select it for drilling.";
      ok := true;
    }

    /**
     * `deactivate` (the later of the class's two definitions, the one in
     * effect): markers, board and surface are cleared; the marker
     * selection and the drag state are left as they were.
     */
    method Deactivate()
      modifies this
      ensures Valid() && !isActive && holeMarkers == [] && selectedBoard == None && selectedSurface == None
      ensures selectedMarker == old(selectedMarker) && isDragging == old(isDragging) && dragStartPos == old(dragStartPos)
    {
      isActive := false;
      holeMarkers := [];
      selectedSurface := None;
      selectedBoard := None;
    }

    /** `getSnappedPosition`: the first marker (other than `exclude`) within the snap distance lends its x and z. */
    method GetSnappedPosition(position: Vec3, exclude: Marker?) returns (r: Vec3)
      ensures r == Snapped(holeMarkers, position, exclude)
    {
      r := position;
      var ms := holeMarkers;
      for i := 0 to |ms|
        invariant FirstNear(ms[..i], position, exclude).None?
        invariant r == position
      {
        if ms[i] == exclude {
          continue;
        }
        if DistSq(position, ms[i].position) < SnapDistance * SnapDistance {
          NoneBeforeFirst(ms, i, position, exclude);
          if Abs(position.x - ms[i].position.x) < SnapDistance {
            r := r.(x := ms[i].position.x);
          }
          if Abs(position.z - ms[i].position.z) < SnapDistance {
            r := r.(z := ms[i].position.z);
          }
          return;
        }
        NoneExtends(ms, i, position, exclude);
      }
      assert ms[..|ms|] == ms;
    }

    /** `placeHoleMarker`: exactly one new marker, at the snapped point unless SHIFT is held, with the current size and depth. */
    method PlaceHoleMarker(point: Vec3) returns (marker: Marker)
      requires Valid()
      modifies this
      ensures Valid() && fresh(marker)
      ensures holeMarkers == old(holeMarkers) + [marker]
      ensures marker.position == (if shiftPressed then point else Snapped(old(holeMarkers), point, null))
      ensures marker.drillSize == currentDrillSize && marker.drillDepth == currentDepth
      ensures selectedMarker == old(selectedMarker) && selectedSurface == old(selectedSurface)
      ensures selectedBoard == old(selectedBoard)
    {
      var finalPosition := point;
      if !shiftPressed {
        finalPosition := GetSnappedPosition(point, null);
      }
      marker := new Marker(finalPosition, currentDrillSize, currentDepth);
      holeMarkers := holeMarkers + [marker];
    }

    method DeselectMarker()
      modifies this
      ensures selectedMarker == null && holeMarkers == old(holeMarkers)
      ensures isDragging == old(isDragging) && dragStartPos == old(dragStartPos) && selectedSurface == old(selectedSurface)
      ensures selectedBoard == old(selectedBoard)
      ensures isActive == old(isActive) && shiftPressed == old(shiftPressed)
    {
      selectedMarker := null;
    }

    /** `selectMarker`: a marker that is placed becomes the selection; any other pick changes nothing. */
    method SelectMarker(picked: Marker)
      modifies this
      ensures picked in holeMarkers ==> selectedMarker == picked
      ensures picked !in holeMarkers ==> selectedMarker == old(selectedMarker)
      ensures holeMarkers == old(holeMarkers) && selectedSurface == old(selectedSurface)
      ensures isDragging == old(isDragging) && dragStartPos == old(dragStartPos)
      ensures selectedBoard == old(selectedBoard)
      ensures isActive == old(isActive) && shiftPressed == old(shiftPressed)
    {
      if picked !in holeMarkers {
        return;
      }
      DeselectMarker();
      selectedMarker := picked;
    }

    /** `deleteSelectedMarker`: the selected marker leaves the list and the selection is cleared. */
    method DeleteSelectedMarker()
      requires Valid()
      modifies this
      ensures Valid() && selectedMarker == null
      ensures old(selectedMarker) == null ==> holeMarkers == old(holeMarkers)
      ensures old(selectedMarker) != null ==>
        old(selectedMarker) !in holeMarkers
        && forall m :: m in holeMarkers <==> m in old(holeMarkers) && m != old(selectedMarker)
    {
      if selectedMarker == null {
        return;
      }
      holeMarkers := RemoveMarker(holeMarkers, selectedMarker);
      selectedMarker := null;
    }

    /** `handleRightClick`: on a chosen surface, a right-click on a placed marker deletes it, clearing the selection if it was selected. */
    method HandleRightClick(picked: Option<Marker>)
      requires Valid()
      modifies this
      ensures Valid()
      ensures picked.Some? && SurfaceChosen(selectedSurface) && picked.value in old(holeMarkers) ==>
        && (forall m :: m in holeMarkers <==> m in old(holeMarkers) && m != picked.value)
        && selectedMarker == (if old(selectedMarker) == picked.value then null else old(selectedMarker))
      ensures !(picked.Some? && SurfaceChosen(selectedSurface) && picked.value in old(holeMarkers)) ==>
        holeMarkers == old(holeMarkers) && selectedMarker == old(selectedMarker)
      ensures selectedSurface == old(selectedSurface)
    {
      if picked.Some? && SurfaceChosen(selectedSurface) && picked.value in holeMarkers {
        var marker := picked.value;
        holeMarkers := RemoveMarker(holeMarkers, marker);
        if selectedMarker == marker {
          selectedMarker := null;
        }
      }
    }

    /** `handleMouseDown`: pressing on a placed marker selects it and arms a drag from the press point. */
    method HandleMouseDown(picked: Option<Marker>, at: Vec2)
      modifies this
      ensures picked.Some? && SurfaceChosen(selectedSurface) ==>
        !isDragging && dragStartPos == Some(at)
        && (picked.value in holeMarkers ==> selectedMarker == picked.value)
      ensures !(picked.Some? && SurfaceChosen(selectedSurface)) ==>
        isDragging == old(isDragging) && dragStartPos == old(dragStartPos) && selectedMarker == old(selectedMarker)
      ensures holeMarkers == old(holeMarkers) && selectedSurface == old(selectedSurface)
      ensures isActive == old(isActive) && shiftPressed == old(shiftPressed)
    {
      if picked.Some? && SurfaceChosen(selectedSurface) {
        SelectMarker(picked.value);
        isDragging := false;
        dragStartPos := Some(at);
      }
    }

    /** `handleMouseUp`: the drag ends and is disarmed. */
    method HandleMouseUp()
      modifies this
      ensures !isDragging && dragStartPos == None
      ensures holeMarkers == old(holeMarkers) && selectedMarker == old(selectedMarker)
    {
      isDragging := false;
      dragStartPos := None;
    }

    /**
     * `handleDrag`: an armed press becomes a drag only after the mouse has
     * moved more than five pixels; while dragging, the selected marker
     * follows the board point under the mouse, snapped to the other
     * markers unless SHIFT is held.
     */
    method HandleDrag(at: Vec2, boardPoint: Option<Vec3>)
      modifies this, selectedMarker
      ensures holeMarkers == old(holeMarkers) && selectedMarker == old(selectedMarker) && dragStartPos == old(dragStartPos)
      ensures old(selectedMarker) == null || old(dragStartPos).None? ==> isDragging == old(isDragging)
      ensures old(selectedMarker) != null && old(dragStartPos).Some? && !old(isDragging) ==>
        isDragging == (DragDistSq(old(dragStartPos).value, at) > DragThreshold * DragThreshold)
      ensures old(selectedMarker) != null && isDragging && old(dragStartPos).Some? && boardPoint.Some? ==>
        old(selectedMarker).position ==
          (if shiftPressed then boardPoint.value else Snapped(old(holeMarkers), boardPoint.value, old(selectedMarker)))
      ensures old(selectedMarker) != null && !(isDragging && old(dragStartPos).Some? && boardPoint.Some?) ==>
        old(selectedMarker).position == old(selectedMarker.position)
      ensures isActive == old(isActive) && shiftPressed == old(shiftPressed)
    {
      if selectedMarker == null || dragStartPos.None? {
        return;
      }
      if !isDragging {
        if DragDistSq(dragStartPos.value, at) > DragThreshold * DragThreshold {
          isDragging := true;
        } else {
          return;
        }
      }
      if boardPoint.Some? {
        var newPosition := boardPoint.value;
        if !shiftPressed {
          newPosition := GetSnappedPosition(newPosition, selectedMarker);
        }
        selectedMarker.position := newPosition;
      }
    }

    /**
     * The `mousemove` listener as written: `handleDrag` runs only while
     * `isDragging` is already set. Only `handleDrag` sets it, so a press
     * on a marker never turns into a drag and the marker never moves.
     */
    method OnMouseMoveAsWritten(at: Vec2, boardPoint: Option<Vec3>)
      modifies this, selectedMarker
      ensures !old(isDragging) ==> !isDragging
      ensures old(selectedMarker) != null && !old(isDragging) ==>
        old(selectedMarker).position == old(selectedMarker.position)
      ensures holeMarkers == old(holeMarkers) && selectedMarker == old(selectedMarker) && dragStartPos == old(dragStartPos)
      ensures isActive == old(isActive) && shiftPressed == old(shiftPressed)
    {
      if isActive && isDragging {
        HandleDrag(at, boardPoint);
      }
    }

    /**
     * The `mousemove` listener as evidently intended: an armed press is
     * handed to `handleDrag` as well, so moving more than five pixels
     * starts the drag and the selected marker follows the mouse.
     */
    method OnMouseMove(at: Vec2, boardPoint: Option<Vec3>)
      modifies this, selectedMarker
      ensures old(isActive) && old(selectedMarker) != null && old(dragStartPos).Some? && !old(isDragging) ==>
        isDragging == (DragDistSq(old(dragStartPos).value, at) > DragThreshold * DragThreshold)
      ensures old(isActive) && old(selectedMarker) != null && old(dragStartPos).Some? && isDragging && boardPoint.Some? ==>
        old(selectedMarker).position ==
          (if shiftPressed then boardPoint.value else Snapped(old(holeMarkers), boardPoint.value, old(selectedMarker)))
      ensures holeMarkers == old(holeMarkers) && selectedMarker == old(selectedMarker) && dragStartPos == old(dragStartPos)
      ensures isActive == old(isActive) && shiftPressed == old(shiftPressed)
    {
      if isActive && (isDragging || dragStartPos.Some?) {
        HandleDrag(at, boardPoint);
      }
    }

    /**
     * `handleSurfaceClick`: the first click chooses the board and its face
     * (a board without part data is refused); later clicks select a placed
     * marker, or place a new one on the board once a surface is chosen.
     */
    method HandleSurfaceClick(boardPick: Option<BoardHit>, markerPick: Option<Marker>, boardPoint: Option<Vec3>)
        returns (placed: Option<Marker>)
      requires Valid()
      modifies this
      ensures Valid()
      ensures old(selectedBoard).None? && boardPick.Some? && boardPick.value.hasPartData ==>
        && selectedBoard == Some(boardPick.value.mesh) && selectedSurface == Some(boardPick.value.faceId)
        && instruction == SurfaceMessage && placed.None? && holeMarkers == old(holeMarkers)
      ensures old(selectedBoard).None? && !(boardPick.Some? && boardPick.value.hasPartData) ==>
        && selectedBoard == None && placed.None? && holeMarkers == old(holeMarkers)
        && instruction == "Please click on a workbench board to select it for drilling."
      ensures old(selectedBoard).Some? && markerPick.Some? && SurfaceChosen(old(selectedSurface)) ==>
        && placed.None? && holeMarkers == old(holeMarkers)
        && (markerPick.value in holeMarkers ==> selectedMarker == markerPick.value)
      ensures old(selectedBoard).Some? && !(markerPick.Some? && SurfaceChosen(old(selectedSurface))) ==>
        && (placed.Some? <==> boardPoint.Some? && SurfaceChosen(old(selectedSurface)))
        && (placed.Some? ==> fresh(placed.value) && holeMarkers == old(holeMarkers) + [placed.value] && selectedMarker == null)
        && (placed.None? ==> holeMarkers == old(holeMarkers) && selectedMarker == old(selectedMarker))
      ensures old(selectedBoard).Some? ==> selectedBoard == old(selectedBoard) && selectedSurface == old(selectedSurface)
    {
      placed := None;
      if selectedBoard.None? {
        if boardPick.Some? && boardPick.value.hasPartData {
          selectedBoard := Some(boardPick.value.mesh);
          selectedSurface := Some(boardPick.value.faceId);
          instruction := SurfaceMessage;
        } else {
          instruction := "Please click on a workbench board to select it for drilling.";
        }
        return;
      }
      if markerPick.Some? && SurfaceChosen(selectedSurface) {
        SelectMarker(markerPick.value);
        return;
      }
      if boardPoint.None? {
        return;
      }
      if SurfaceChosen(selectedSurface) {
        DeselectMarker();
        var marker := PlaceHoleMarker(boardPoint.value);
        placed := Some(marker);
      }
    }

    /** `selectDrillBit`: the current size changes, and so does the selected marker's. */
    method SelectDrillBit(size: real)
      modifies this, selectedMarker
      ensures currentDrillSize == size && selectedMarker == old(selectedMarker) && holeMarkers == old(holeMarkers)
      ensures old(selectedMarker) != null ==> old(selectedMarker).drillSize == size
    {
      currentDrillSize := size;
      if selectedMarker != null {
        selectedMarker.drillSize := size;
      }
    }
  }

  /** Squared mouse travel since the press. */
  /**
   * Pressing on a placed marker and then moving the mouse, with the
   * listener as written: however far the mouse moves, no drag starts and
   * the marker stays where it was.
   */
  method PressThenMoveAsWritten(dp: DrillPressState, m: Marker, press: Vec2, at: Vec2, boardPoint: Option<Vec3>)
    requires dp.isActive && m in dp.holeMarkers && SurfaceChosen(dp.selectedSurface)
    modifies dp, m
    ensures !dp.isDragging && m.position == old(m.position)
  {
    dp.HandleMouseDown(Some(m), press);
    dp.OnMouseMoveAsWritten(at, boardPoint);
  }

  /**
   * The same press and move with the intended listener: beyond five
   * pixels the drag starts and the marker lands on the board point (or
   * its snap).
   */
  method PressThenMove(dp: DrillPressState, m: Marker, press: Vec2, at: Vec2, boardPoint: Option<Vec3>)
    requires dp.isActive && m in dp.holeMarkers && SurfaceChosen(dp.selectedSurface)
    requires DragDistSq(press, at) > DragThreshold * DragThreshold && boardPoint.Some?
    modifies dp, m
    ensures dp.isDragging
    ensures m.position == (if dp.shiftPressed then boardPoint.value else Snapped(old(dp.holeMarkers), boardPoint.value, m))
  {
    dp.HandleMouseDown(Some(m), press);
    dp.OnMouseMove(at, boardPoint);
  }

  function DragDistSq(a: Vec2, b: Vec2): real
  {
    (b.x - a.x) * (b.x - a.x) + (b.y - a.y) * (b.y - a.y)
  }

  /** `splice(indexOf(m), 1)`: the first occurrence of `m` removed. */
  function RemoveMarker(ms: seq<Marker>, m: Marker): (r: seq<Marker>)
    ensures m !in ms ==> r == ms
    ensures m in ms ==> |r| == |ms| - 1
    ensures forall x :: x in r ==> x in ms
    ensures forall x :: x in ms && x != m ==> x in r
    ensures (forall i, j :: 0 <= i < j < |ms| ==> ms[i] != ms[j]) ==>
      m !in r && forall i, j :: 0 <= i < j < |r| ==> r[i] != r[j]
  {
    if ms == [] then []
    else if ms[0] == m then ms[1..]
    else
      var rest := RemoveMarker(ms[1..], m);
      assert (forall i, j :: 0 <= i < j < |ms| ==> ms[i] != ms[j]) ==>
        ms[0] !in ms[1..] && forall i, j :: 0 <= i < j < |ms[1..]| ==> ms[1..][i] != ms[1..][j];
      [ms[0]] + rest
  }

  lemma NoneBeforeFirst(ms: seq<Marker>, i: nat, p: Vec3, exclude: Marker?)
    requires i < |ms| && FirstNear(ms[..i], p, exclude).None?
    requires ms[i] != exclude && Near(p, ms[i].position)
    ensures FirstNear(ms, p, exclude) == Some(i)
  {
    FirstNearPrefix(ms, i, p, exclude);
  }

  lemma NoneExtends(ms: seq<Marker>, i: nat, p: Vec3, exclude: Marker?)
    requires i < |ms| && FirstNear(ms[..i], p, exclude).None?
    requires ms[i] == exclude || !Near(p, ms[i].position)
    ensures FirstNear(ms[..i + 1], p, exclude).None?
  {
    FirstNearNone(ms[..i + 1], p, exclude);
  }

  /** No near marker anywhere means `FirstNear` finds none. */
  lemma {:induction false} FirstNearNone(ms: seq<Marker>, p: Vec3, exclude: Marker?)
    requires forall j :: 0 <= j < |ms| ==> ms[j] == exclude || !Near(p, ms[j].position)
    ensures FirstNear(ms, p, exclude).None?
  {
    if ms != [] {
      FirstNearNone(ms[1..], p, exclude);
    }
  }

  /** A near marker after only far (or excluded) ones is the one `FirstNear` finds. */
  lemma {:induction false} FirstNearPrefix(ms: seq<Marker>, i: nat, p: Vec3, exclude: Marker?)
    requires i < |ms| && ms[i] != exclude && Near(p, ms[i].position)
    requires forall j :: 0 <= j < i ==> ms[j] == exclude || !Near(p, ms[j].position)
    ensures FirstNear(ms, p, exclude) == Some(i)
  {
    if i > 0 {
      FirstNearPrefix(ms[1..], i - 1, p, exclude);
    }
  }
}
