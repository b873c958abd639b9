/**
 * The join tool (modules_backup_current_20250818_193204/JoinToolSystem.js):
 * pick a first and a second piece, then a corner of each; the second piece
 * is moved so that its corner lands on the first piece's corner, unless the
 * two bounding boxes would then overlap by at least half a centimetre on
 * every axis, in which case the move is undone.
 *
 * Boxes are axis-aligned and in scene centimetres; a mesh's world box is its
 * position plus fixed local extents.
 */
module JoinTool {
  import opened Wrappers
  import opened Text
  import opened Geometry
  import opened Lumber

  // ---------------------------------------------------------------------
  // Boxes, corners and the collision test
  // ---------------------------------------------------------------------

  datatype Box = Box(min: Vec3, max: Vec3)

  function Translate(b: Box, t: Vec3): (r: Box)
    ensures forall a :: Comp(r.min, a) == Comp(b.min, a) + Comp(t, a)
    ensures forall a :: Comp(r.max, a) == Comp(b.max, a) + Comp(t, a)
  {
    Box(Add(b.min, t), Add(b.max, t))
  }

  /** `lo` or `hi`, whichever bit `high` selects. */
  function Pick(high: bool, lo: real, hi: real): real
  {
    if high then hi else lo
  }

  /** The eight corners in the order `showCornerPoints` lists them: x varies fastest, then y, then z. */
  function Corners(b: Box): (r: seq<Vec3>)
    ensures |r| == 8
    ensures forall i :: 0 <= i < 8 ==>
      r[i] == Vec3(Pick(i % 2 == 1, b.min.x, b.max.x), Pick((i / 2) % 2 == 1, b.min.y, b.max.y), Pick(i / 4 == 1, b.min.z, b.max.z))
  {
    [ Vec3(b.min.x, b.min.y, b.min.z), Vec3(b.max.x, b.min.y, b.min.z),
      Vec3(b.min.x, b.max.y, b.min.z), Vec3(b.max.x, b.max.y, b.min.z),
      Vec3(b.min.x, b.min.y, b.max.z), Vec3(b.max.x, b.min.y, b.max.z),
      Vec3(b.min.x, b.max.y, b.max.z), Vec3(b.max.x, b.max.y, b.max.z) ]
  }

  /** Moving a box moves each of its corners by the same vector. */
  lemma CornersTranslate(b: Box, t: Vec3, i: nat)
    requires i < 8
    ensures Corners(Translate(b, t))[i] == Add(Corners(b)[i], t)
  {
  }

  function Min(a: real, b: real): real { if a <= b then a else b }
  function Max(a: real, b: real): real { if a >= b then a else b }

  /** How far two boxes overlap along one axis (negative when they are apart). */
  function Overlap(b1: Box, b2: Box, a: Axis): real
  {
    Min(Comp(b1.max, a), Comp(b2.max, a)) - Max(Comp(b1.min, a), Comp(b2.min, a))
  }

  /** Separated along some axis. */
  predicate Disjoint(b1: Box, b2: Box)
  {
    || b1.max.x < b2.min.x || b1.min.x > b2.max.x
    || b1.max.y < b2.min.y || b1.min.y > b2.max.y
    || b1.max.z < b2.min.z || b1.min.z > b2.max.z
  }

  /** Overlaps below this many centimetres count as touching. */
  const Tolerance: real := 0.5

  /**
   * `checkCollision`: disjoint boxes never collide; otherwise the axes whose
   * overlap is below the tolerance are counted, and only a count of zero is
   * a collision (one is a butt joint, two or three an edge or corner touch).
   */
  function CheckCollision(b1: Box, b2: Box): (r: bool)
    ensures Disjoint(b1, b2) ==> !r
    ensures r <==> Overlap(b1, b2, X) >= Tolerance && Overlap(b1, b2, Y) >= Tolerance && Overlap(b1, b2, Z) >= Tolerance
  {
    if Disjoint(b1, b2) then false
    else
      var minimalOverlapCount :=
        (if Overlap(b1, b2, X) < Tolerance then 1 else 0)
        + (if Overlap(b1, b2, Y) < Tolerance then 1 else 0)
        + (if Overlap(b1, b2, Z) < Tolerance then 1 else 0);
      if minimalOverlapCount == 1 then false
      else minimalOverlapCount == 0
  }

  /** Boxes that share a face exactly, one overlap at zero, are never a collision. */
  lemma TouchingIsNoCollision(b1: Box, b2: Box, a: Axis)
    requires Overlap(b1, b2, a) == 0.0
    ensures !CheckCollision(b1, b2)
  {
  }

  // ---------------------------------------------------------------------
  // Scene objects
  // ---------------------------------------------------------------------

  /**
   * A selectable part mesh: its position, its extents about that position,
   * the board transform it may carry (in inches) and the saved position of
   * its part data, if it has part data.
   */
  class PartMesh {
    var position: Vec3
    const localMin: Vec3
    const localMax: Vec3
    const hasBoard: bool
    var boardPosition: Vec3
    const hasPartData: bool
    var savedPosition: Option<Vec3>

    constructor(position: Vec3, localMin: Vec3, localMax: Vec3, hasBoard: bool, hasPartData: bool)
      ensures this.position == position && this.localMin == localMin && this.localMax == localMax
      ensures this.hasBoard == hasBoard && this.hasPartData == hasPartData
      ensures savedPosition == None
    {
      this.position := position;
      this.localMin := localMin;
      this.localMax := localMax;
      this.hasBoard := hasBoard;
      this.boardPosition := Vec3(0.0, 0.0, 0.0);
      this.hasPartData := hasPartData;
      this.savedPosition := None;
    }

    /** The world-space bounding box at the current position. */
    function WorldBox(): (b: Box)
      reads this
    {
      BoxAt(position)
    }

    /** The world-space bounding box the mesh would have at `p`. */
    function BoxAt(p: Vec3): (b: Box)
    {
      Box(Add(p, localMin), Add(p, localMax))
    }
  }

  /** Moving the mesh by `t` moves its box by `t`. */
  lemma BoxAtMoves(m: PartMesh, p: Vec3, t: Vec3)
    ensures m.BoxAt(Add(p, t)) == Translate(m.BoxAt(p), t)
  {
  }

  datatype SnapKind = Corner | Edge | Face

  /** The `snapData` of a snap point mesh. */
  datatype SnapData = SnapData(kind: SnapKind, id: string, position: Vec3, parentMesh: PartMesh)

  /** The sphere diameter `createSnapPoint` gives each kind. */
  function Diameter(kind: SnapKind): (d: real)
    ensures d > 0.0
    ensures kind == Corner ==> d == 1.0
  {
    match kind
    case Corner => 1.0
    case Edge => 0.8
    case Face => 0.6
  }

  /** The `i`th corner snap of a box. */
  function CornerSnap(b: Box, i: nat, m: PartMesh): (s: SnapData)
    requires i < 8
    ensures s.kind == Corner && s.position == Corners(b)[i] && s.parentMesh == m
  {
    SnapData(Corner, "corner_" + NatToString(i), Corners(b)[i], m)
  }

  /** What a click hits: nothing, a part mesh, or the displayed snap point at an index. */
  datatype ClickTarget = NoHit | PartHit(mesh: PartMesh) | SnapHit(index: nat)

  datatype Step = SelectFirst | SelectSecond | SelectSnap1 | SelectSnap2

  const CollisionMessage := "Collision detected! Choose different snap points."
  const JoinedMessage := "Parts joined successfully!"

  class JoinToolState {
    var joinToolActive: bool
    var currentStep: Step
    var selectedMesh1: PartMesh?
    var selectedMesh2: PartMesh?
    var snapPoint1: Option<SnapData>
    var snapPoint2: Option<SnapData>
    /** The snap point meshes on display. */
    var snapPoints: seq<SnapData>
    var instruction: string
    var instructionVisible: bool

    /** Each step has the selections it needs, and the two pieces differ. */
    ghost predicate Valid()
      reads this
    {
      && (currentStep != SelectFirst ==> selectedMesh1 != null)
      && (currentStep == SelectSnap1 || currentStep == SelectSnap2 ==>
            selectedMesh2 != null && selectedMesh2 != selectedMesh1)
      && (currentStep == SelectSnap2 ==> snapPoint1.Some?)
    }

    constructor()
      ensures Valid() && !joinToolActive && currentStep == SelectFirst
      ensures selectedMesh1 == null && selectedMesh2 == null
      ensures snapPoint1 == None && snapPoint2 == None && snapPoints == []
    {
      joinToolActive := false;
      currentStep := SelectFirst;
      selectedMesh1 := null;
      selectedMesh2 := null;
      snapPoint1 := None;
      snapPoint2 := None;
      snapPoints := [];
      instruction := "";
      instructionVisible := false;
    }

    method ShowInstructions(message: string)
      modifies this
      ensures instruction == message && instructionVisible
      ensures joinToolActive == old(joinToolActive) && currentStep == old(currentStep)
      ensures selectedMesh1 == old(selectedMesh1) && selectedMesh2 == old(selectedMesh2)
      ensures snapPoint1 == old(snapPoint1) && snapPoint2 == old(snapPoint2) && snapPoints == old(snapPoints)
    {
      instruction := message;
      instructionVisible := true;
    }

    /** `resetSelection`: back to the first step with nothing selected. */
    method ResetSelection()
      modifies this
      ensures Valid()
      ensures currentStep == SelectFirst && selectedMesh1 == null && selectedMesh2 == null
      ensures snapPoint1 == None && snapPoint2 == None
      ensures joinToolActive == old(joinToolActive) && snapPoints == old(snapPoints)
      ensures instruction == old(instruction) && instructionVisible == old(instructionVisible)
    {
      currentStep := SelectFirst;
      selectedMesh1 := null;
      selectedMesh2 := null;
      snapPoint1 := None;
      snapPoint2 := None;
    }

    /**
     * `activate`: with fewer than two parts on the current bench it only
     * says so (the step is reset, the selection is not); otherwise it asks
     * for the first piece and clears the selection.
     */
    method Activate(availableParts: nat)
      requires Valid()
      modifies this
      ensures Valid() && joinToolActive && currentStep == SelectFirst
      ensures availableParts < 2 ==> instruction == "Need at least 2 parts to join. Add more parts first."
      ensures availableParts < 2 ==> selectedMesh1 == old(selectedMesh1) && selectedMesh2 == old(selectedMesh2)
      ensures availableParts >= 2 ==> instruction == "Click first piece to join"
      ensures availableParts >= 2 ==> selectedMesh1 == null && selectedMesh2 == null && snapPoint1 == None && snapPoint2 == None
      ensures snapPoints == old(snapPoints)
    {
      joinToolActive := true;
      currentStep := SelectFirst;
      if availableParts < 2 {
        ShowInstructions("Need at least 2 parts to join. Add more parts first.");
        return;
      }
      ShowInstructions("Click first piece to join");
      ResetSelection();
    }

    /** `deactivate`: off, instructions hidden, snap points gone, selection reset. */
    method Deactivate()
      modifies this
      ensures Valid() && !joinToolActive && !instructionVisible && snapPoints == []
      ensures currentStep == SelectFirst && selectedMesh1 == null && selectedMesh2 == null
      ensures snapPoint1 == None && snapPoint2 == None
    {
      joinToolActive := false;
      instructionVisible := false;
      snapPoints := [];
      ResetSelection();
    }

    /** `createSnapPoint`: one more snap point on display. */
    method CreateSnapPoint(snap: SnapData)
      modifies this
      ensures snapPoints == old(snapPoints) + [snap]
      ensures joinToolActive == old(joinToolActive) && currentStep == old(currentStep)
      ensures selectedMesh1 == old(selectedMesh1) && selectedMesh2 == old(selectedMesh2)
      ensures snapPoint1 == old(snapPoint1) && snapPoint2 == old(snapPoint2)
      ensures instruction == old(instruction) && instructionVisible == old(instructionVisible)
    {
      snapPoints := snapPoints + [snap];
    }

    /** `showCornerPoints`: exactly the eight corner snaps of the mesh's world box, in corner order. */
    method ShowCornerPoints(m: PartMesh)
      modifies this
      ensures |snapPoints| == 8
      ensures forall i :: 0 <= i < 8 ==> snapPoints[i] == CornerSnap(m.WorldBox(), i, m)
      ensures joinToolActive == old(joinToolActive) && currentStep == old(currentStep)
      ensures selectedMesh1 == old(selectedMesh1) && selectedMesh2 == old(selectedMesh2)
      ensures snapPoint1 == old(snapPoint1) && snapPoint2 == old(snapPoint2)
      ensures instruction == old(instruction) && instructionVisible == old(instructionVisible)
    {
      snapPoints := [];
      var box := m.WorldBox();
      for i := 0 to 8
        invariant |snapPoints| == i
        invariant forall j :: 0 <= j < i ==> snapPoints[j] == CornerSnap(box, j, m)
        invariant joinToolActive == old(joinToolActive) && currentStep == old(currentStep)
        invariant selectedMesh1 == old(selectedMesh1) && selectedMesh2 == old(selectedMesh2)
        invariant snapPoint1 == old(snapPoint1) && snapPoint2 == old(snapPoint2)
        invariant instruction == old(instruction) && instructionVisible == old(instructionVisible)
      {
        CreateSnapPoint(CornerSnap(box, i, m));
      }
    }

    /**
     * `handlePieceSelection`: the first pick selects piece 1; the second
     * selects piece 2 unless it is piece 1 again, and shows piece 1's
     * corners. In the snap steps a piece click does nothing.
     */
    method HandlePieceSelection(m: PartMesh)
      requires Valid()
      modifies this
      ensures Valid() && joinToolActive == old(joinToolActive)
      ensures old(currentStep) == SelectFirst ==>
        currentStep == SelectSecond && selectedMesh1 == m && selectedMesh2 == old(selectedMesh2)
        && snapPoints == old(snapPoints) && instruction == "Click second piece to join"
      ensures old(currentStep) == SelectSecond && m == old(selectedMesh1) ==>
        currentStep == SelectSecond && selectedMesh2 == old(selectedMesh2) && snapPoints == old(snapPoints)
      ensures old(currentStep) == SelectSecond && m != old(selectedMesh1) ==>
        && currentStep == SelectSnap1 && selectedMesh1 == old(selectedMesh1) && selectedMesh2 == m
        && |snapPoints| == 8
        && (forall i :: 0 <= i < 8 ==> snapPoints[i] == CornerSnap(old(selectedMesh1).WorldBox(), i, old(selectedMesh1)))
        && instruction == "Click corner point on first piece (blue) to join"
      ensures old(currentStep) == SelectSnap1 || old(currentStep) == SelectSnap2 ==>
        currentStep == old(currentStep) && selectedMesh1 == old(selectedMesh1) && selectedMesh2 == old(selectedMesh2)
        && snapPoints == old(snapPoints) && instruction == old(instruction)
      ensures snapPoint1 == old(snapPoint1) && snapPoint2 == old(snapPoint2)
    {
      if currentStep == SelectFirst {
        selectedMesh1 := m;
        currentStep := SelectSecond;
        ShowInstructions("Click second piece to join");
      } else if currentStep == SelectSecond {
        if m == selectedMesh1 {
          return;
        }
        selectedMesh2 := m;
        currentStep := SelectSnap1;
        ShowCornerPoints(selectedMesh1);
        ShowInstructions("Click corner point on first piece (blue) to join");
      }
    }

    /**
     * `executeJoin`: moves piece 2 by `snap1 − snap2`. On a collision the
     * old position is restored and the step and selection stay as they
     * are; otherwise the board transform takes the new position in inches,
     * the part data saves it, and the selection is reset. `joined` tells
     * the caller to schedule the deactivation.
     */
    method ExecuteJoin() returns (joined: bool)
      requires Valid() && selectedMesh1 != null && selectedMesh2 != null && selectedMesh1 != selectedMesh2
      modifies this, selectedMesh2
      ensures Valid()
      ensures joinToolActive == old(joinToolActive)
      ensures old(snapPoint1).None? || old(snapPoint2).None? ==>
        !joined && currentStep == old(currentStep) && selectedMesh2 == old(selectedMesh2)
        && old(selectedMesh2).position == old(selectedMesh2.position) && snapPoints == old(snapPoints)
      ensures old(snapPoint1).Some? && old(snapPoint2).Some? ==>
        var target := Add(old(selectedMesh2.position), Sub(old(snapPoint1).value.position, old(snapPoint2).value.position));
        var collides := CheckCollision(old(selectedMesh1.WorldBox()), old(selectedMesh2).BoxAt(target));
        && joined == !collides
        && (collides ==>
              && old(selectedMesh2).position == old(selectedMesh2.position)
              && old(selectedMesh2).boardPosition == old(selectedMesh2.boardPosition)
              && old(selectedMesh2).savedPosition == old(selectedMesh2.savedPosition)
              && currentStep == old(currentStep) && selectedMesh1 == old(selectedMesh1) && selectedMesh2 == old(selectedMesh2)
              && snapPoint1 == old(snapPoint1) && snapPoint2 == old(snapPoint2)
              && snapPoints == old(snapPoints) && instruction == CollisionMessage)
        && (!collides ==>
              && old(selectedMesh2).position == target
              && old(selectedMesh2).boardPosition ==
                   (if old(selectedMesh2).hasBoard
                    then Vec3(target.x / CmPerInch, target.y / CmPerInch, target.z / CmPerInch)
                    else old(selectedMesh2.boardPosition))
              && old(selectedMesh2).savedPosition ==
                   (if old(selectedMesh2).hasPartData then Some(target) else old(selectedMesh2.savedPosition))
              && currentStep == SelectFirst && selectedMesh1 == null && selectedMesh2 == null
              && snapPoint1 == None && snapPoint2 == None
              && snapPoints == [] && instruction == JoinedMessage)
    {
      joined := false;
      if snapPoint1.None? || snapPoint2.None? {
        return;
      }
      var mesh2 := selectedMesh2;
      var translation := Sub(snapPoint1.value.position, snapPoint2.value.position);
      var originalPosition := mesh2.position;
      mesh2.position := Add(mesh2.position, translation);
      var hasCollision := CheckCollision(selectedMesh1.WorldBox(), mesh2.WorldBox());
      if hasCollision {
        mesh2.position := originalPosition;
        ShowInstructions(CollisionMessage);
        return;
      }
      var p := mesh2.position;
      if mesh2.hasBoard {
        mesh2.boardPosition := Vec3(p.x / CmPerInch, p.y / CmPerInch, p.z / CmPerInch);
      }
      if mesh2.hasPartData {
        mesh2.savedPosition := Some(p);
      }
      ShowInstructions(JoinedMessage);
      snapPoints := [];
      ResetSelection();
      joined := true;
    }

    /**
     * `handleSnapPointSelection`: in the first snap step the snap becomes
     * snap 1 and piece 2's corners replace piece 1's; in the second it
     * becomes snap 2, the snaps are cleared and the join runs. In the piece
     * steps a snap click does nothing.
     */
    method HandleSnapPointSelection(snap: SnapData) returns (joined: bool)
      requires Valid()
      modifies this, selectedMesh2
      ensures Valid() && joinToolActive == old(joinToolActive)
      ensures old(currentStep) == SelectSnap1 ==>
        && !joined && currentStep == SelectSnap2 && snapPoint1 == Some(snap)
        && selectedMesh1 == old(selectedMesh1) && selectedMesh2 == old(selectedMesh2)
        && |snapPoints| == 8
        && (forall i :: 0 <= i < 8 ==> snapPoints[i] == CornerSnap(old(selectedMesh2).WorldBox(), i, old(selectedMesh2)))
        && instruction == "Click corner point on second piece (green) to join to"
      ensures old(currentStep) == SelectSnap2 ==>
        var target := Add(old(selectedMesh2.position), Sub(old(snapPoint1).value.position, snap.position));
        var collides := CheckCollision(old(selectedMesh1.WorldBox()), old(selectedMesh2).BoxAt(target));
        && joined == !collides
        && (collides ==> currentStep == SelectSnap2 && snapPoints == [] && snapPoint2 == Some(snap)
                         && old(selectedMesh2).position == old(selectedMesh2.position))
        && (!collides ==> currentStep == SelectFirst && old(selectedMesh2).position == target)
      ensures old(currentStep) == SelectFirst || old(currentStep) == SelectSecond ==>
        !joined && currentStep == old(currentStep) && snapPoints == old(snapPoints)
        && snapPoint1 == old(snapPoint1) && snapPoint2 == old(snapPoint2)
    {
      joined := false;
      if currentStep == SelectSnap1 {
        snapPoint1 := Some(snap);
        snapPoints := [];
        ShowCornerPoints(selectedMesh2);
        currentStep := SelectSnap2;
        ShowInstructions("Click corner point on second piece (green) to join to");
      } else if currentStep == SelectSnap2 {
        snapPoint2 := Some(snap);
        snapPoints := [];
        joined := ExecuteJoin();
      }
    }

    /**
     * `onMouseClick` (only while the tool is active): a snap point on
     * display goes to the snap handler, a part to the piece handler, and a
     * miss changes nothing.
     */
    method OnMouseClick(target: ClickTarget) returns (joined: bool)
      requires Valid()
      requires target.SnapHit? ==> target.index < |snapPoints|
      modifies this, selectedMesh2
      ensures Valid() && joinToolActive == old(joinToolActive)
      ensures !old(joinToolActive) || target.NoHit? ==>
        !joined && currentStep == old(currentStep) && selectedMesh1 == old(selectedMesh1)
        && selectedMesh2 == old(selectedMesh2) && snapPoints == old(snapPoints)
        && snapPoint1 == old(snapPoint1) && snapPoint2 == old(snapPoint2)
      ensures old(joinToolActive) && target.SnapHit? && old(currentStep) == SelectSnap1 ==>
        currentStep == SelectSnap2 && snapPoint1 == Some(old(snapPoints)[target.index])
      ensures old(joinToolActive) && target.PartHit? && old(currentStep) == SelectFirst ==>
        currentStep == SelectSecond && selectedMesh1 == target.mesh
    {
      joined := false;
      if !joinToolActive {
        return;
      }
      match target
      case NoHit =>
      case SnapHit(i) =>
        joined := HandleSnapPointSelection(snapPoints[i]);
      case PartHit(m) =>
        HandlePieceSelection(m);
    }
  }

  /**
   * What a join achieves: when piece 2's snap is its `i`th corner, moving
   * the mesh by `snap1 − snap2` puts that corner of its new box exactly on
   * snap 1.
   */
  lemma JoinPutsCornerOnSnap(m: PartMesh, p: Vec3, i: nat, snap1: Vec3)
    requires i < 8
    ensures var snap2 := Corners(m.BoxAt(p))[i];
            Corners(m.BoxAt(Add(p, Sub(snap1, snap2))))[i] == snap1
  {
    var snap2 := Corners(m.BoxAt(p))[i];
    var t := Sub(snap1, snap2);
    BoxAtMoves(m, p, t);
    CornersTranslate(m.BoxAt(p), t, i);
    AddSub(snap2, snap1);
  }
}
