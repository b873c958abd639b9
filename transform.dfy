/**
 * Confirming or cancelling a gizmo transform (the handlers that
 * replace_modal.py injects into drawing-world.js) and the ghost-mesh
 * protocol of the scale gizmo's drag observers (add_scale_observers.py).
 *
 * While a gizmo is dragged a translucent ghost shows the new transform and
 * the real mesh stays at its start pose; when the drag ends a modal asks
 * for the amount along the one tracked axis, and Confirm applies exactly
 * that amount to the start pose while Cancel puts the start pose back.
 */
module TransformEditor {
  import opened Wrappers
  import opened Geometry
  import JsNum
  import Text

  /** The axis a gizmo drag is tracked on (`currentDragAxis`): one world axis, or `'uniform'` for the uniform scale handle. */
  datatype DragAxis = OnAxis(axis: Axis) | Uniform

  /** `transformType`. */
  datatype TransformType = PositionTransform | RotationTransform | ScaleTransform

  /** `Math.PI / 180`, with `Math.PI` the double nearest to pi. */
  const RadiansPerDegree: real := 3.141592653589793 / 180.0

  /** A mesh's position, rotation (Euler angles, radians) and scaling. */
  datatype Pose = Pose(position: Vec3, rotation: Vec3, scaling: Vec3)

  /** The `position` and `rotation` arrays a part's saved record holds. */
  datatype SavedPlacement = SavedPlacement(position: Vec3, rotation: Vec3)

  /** A scene mesh, as far as the transform handlers touch it. */
  class Mesh {
    var position: Vec3
    var rotation: Vec3
    var scaling: Vec3
    /** `mesh.partData`: the part's saved record, absent for meshes that are not parts. */
    var partData: Option<SavedPlacement>

    function CurrentPose(): Pose
      reads this
    {
      Pose(position, rotation, scaling)
    }

    constructor(pose: Pose, partData: Option<SavedPlacement>)
      ensures CurrentPose() == pose && this.partData == partData
    {
      position, rotation, scaling := pose.position, pose.rotation, pose.scaling;
      this.partData := partData;
    }
  }

  /**
   * The open confirmation modal, with what its handlers captured: the mesh,
   * the tracked axis and the text its number input starts with. A position
   * or rotation modal holds such an input; a scale modal holds none.
   */
  datatype Modal =
    | MoveModal(mesh: Mesh, axis: Axis, shown: string)
    | TurnModal(mesh: Mesh, axis: Axis, shown: string)
    | ScaleModal(mesh: Mesh)

  // ---------------------------------------------------------------------
  // What Confirm and Cancel compute
  // ---------------------------------------------------------------------

  /** Confirming a move: the start position with `entered` inches added on the tracked axis. */
  function ConfirmedPosition(start: Vec3, axis: Axis, entered: real): (p: Vec3)
    ensures Comp(p, axis) == Comp(start, axis) + entered
    ensures forall b :: b != axis ==> Comp(p, b) == Comp(start, b)
  {
    WithComp(start, axis, Comp(start, axis) + entered)
  }

  /** Confirming a rotation: the start rotation with `entered` degrees, in radians, added on the tracked axis. */
  function ConfirmedRotation(start: Vec3, axis: Axis, entered: real): (r: Vec3)
    ensures Comp(r, axis) == Comp(start, axis) + entered * RadiansPerDegree
    ensures forall b :: b != axis ==> Comp(r, b) == Comp(start, b)
  {
    WithComp(start, axis, Comp(start, axis) + entered * RadiansPerDegree)
  }

  /** How far the drag went along the tracked axis, in inches. */
  function ShownDistance(dragged: Vec3, start: Vec3, axis: Axis): real
  {
    Comp(Sub(dragged, start), axis)
  }

  /** How far the drag turned about the tracked axis, in degrees (`delta * 180 / Math.PI`). */
  function ShownDegrees(dragged: Vec3, start: Vec3, axis: Axis): real
  {
    Comp(Sub(dragged, start), axis) / RadiansPerDegree
  }

  /** The text a move modal's input starts with: the distance printed by `toFixed(2)`. */
  function ShownDistanceText(dragged: Vec3, start: Vec3, axis: Axis): string
  {
    JsNum.ToFixed(ShownDistance(dragged, start, axis), 2)
  }

  /** The text a rotation modal's input starts with: the degrees printed by `toFixed(1)`. */
  function ShownDegreesText(dragged: Vec3, start: Vec3, axis: Axis): string
  {
    JsNum.ToFixed(ShownDegrees(dragged, start, axis), 1)
  }

  /**
   * Confirming the untouched move modal: `parseFloat` reads its text as a
   * number, and the tracked coordinate lands within 0.005" of where the
   * drag left it (the rounding of `toFixed(2)`); every other coordinate
   * is back at the start.
   */
  lemma ConfirmShownDistance(dragged: Vec3, start: Vec3, axis: Axis)
    ensures JsNum.ParseFloat(ShownDistanceText(dragged, start, axis)).Fin?
    ensures var p := ConfirmedPosition(start, axis, JsNum.ParseFloat(ShownDistanceText(dragged, start, axis)).v);
            JsNum.Abs(Comp(p, axis) - Comp(dragged, axis)) <= 0.005
            && forall b :: b != axis ==> Comp(p, b) == Comp(start, b)
  {
    var d := ShownDistance(dragged, start, axis);
    TextReadsBack(d, 2);
    var e := JsNum.ParseFloat(ShownDistanceText(dragged, start, axis)).v;
    assert JsNum.Abs(e - d) <= 0.005 by { HalfUnits(); }
    var p := ConfirmedPosition(start, axis, e);
    assert Comp(p, axis) - Comp(dragged, axis) == e - d;
  }

  /** `parseFloat` reads `toFixed(f)` text back as a number within half a unit of its last decimal. */
  lemma TextReadsBack(x: real, f: nat)
    ensures JsNum.ParseFloat(JsNum.ToFixed(x, f)).Fin?
    ensures JsNum.Abs(JsNum.ParseFloat(JsNum.ToFixed(x, f)).v - x) <= 0.5 / Text.Pow10(f) as real
  {
    JsNum.ParseFloatOfToFixed(x, f);
    JsNum.RoundedToIsClose(x, f);
  }

  lemma HalfUnits()
    ensures 0.5 / Text.Pow10(1) as real == 0.05 && 0.5 / Text.Pow10(2) as real == 0.005
  {
    assert Text.Pow10(1) == 10;
    assert Text.Pow10(2) == 100;
  }

  /**
   * Confirming the untouched rotation modal: its text reads as a number,
   * and the tracked angle lands within 0.05 degrees (in radians) of where
   * the drag left it (the rounding of `toFixed(1)`); the other angles are
   * back at the start.
   */
  lemma ConfirmShownDegrees(dragged: Vec3, start: Vec3, axis: Axis)
    ensures JsNum.ParseFloat(ShownDegreesText(dragged, start, axis)).Fin?
    ensures var r := ConfirmedRotation(start, axis, JsNum.ParseFloat(ShownDegreesText(dragged, start, axis)).v);
            JsNum.Abs(Comp(r, axis) - Comp(dragged, axis)) <= 0.05 * RadiansPerDegree
            && forall b :: b != axis ==> Comp(r, b) == Comp(start, b)
  {
    var d := Comp(Sub(dragged, start), axis);
    var v := ShownDegrees(dragged, start, axis);
    TextReadsBack(v, 1);
    var e := JsNum.ParseFloat(ShownDegreesText(dragged, start, axis)).v;
    assert JsNum.Abs(e - v) <= 0.05 by { HalfUnits(); }
    assert v * RadiansPerDegree == d;
    ScaledError(e, v, RadiansPerDegree, 0.05);
    assert e * RadiansPerDegree - d == (e - v) * RadiansPerDegree;
  }

  /** An error of at most `bound` stays at most `bound * k` when scaled by a positive `k`. */
  lemma ScaledError(e: real, v: real, k: real, bound: real)
    requires k > 0.0 && JsNum.Abs(e - v) <= bound
    ensures JsNum.Abs((e - v) * k) <= bound * k
  {
    if e - v >= 0.0 {
      assert (e - v) * k <= bound * k;
    } else {
      assert (v - e) * k <= bound * k;
    }
  }

  /**
   * Cancel as written: a move modal puts the start position back, a
   * rotation modal the start rotation, and a scale modal nothing at all,
   * so the scale the drag left on the mesh stays.
   */
  function CancelledPoseAsWritten(m: Modal, start: Pose, current: Pose): Pose
  {
    match m
    case MoveModal(_, _, _) => current.(position := start.position)
    case TurnModal(_, _, _) => current.(rotation := start.rotation)
    case ScaleModal(_) => current
  }

  /** A scale drag cancelled as written keeps the dragged scale: the cancelled scale is not the start scale. */
  lemma CancelKeepsDraggedScaleAsWritten(mesh: Mesh, start: Pose, current: Pose)
    requires current.scaling != start.scaling
    ensures CancelledPoseAsWritten(ScaleModal(mesh), start, current).scaling != start.scaling
  {
  }

  /** Cancel: the attribute the modal was about goes back to its start value; the other two stay as they are. */
  function CancelledPose(m: Modal, start: Pose, current: Pose): (p: Pose)
    ensures m.MoveModal? ==> p.position == start.position && p.rotation == current.rotation && p.scaling == current.scaling
    ensures m.TurnModal? ==> p.rotation == start.rotation && p.position == current.position && p.scaling == current.scaling
    ensures m.ScaleModal? ==> p.scaling == start.scaling && p.position == current.position && p.rotation == current.rotation
  {
    match m
    case MoveModal(_, _, _) => current.(position := start.position)
    case TurnModal(_, _, _) => current.(rotation := start.rotation)
    case ScaleModal(_) => current.(scaling := start.scaling)
  }

  /** The corrected Cancel agrees with the written one on moves and rotations; only the scale case differs. */
  lemma CancelDiffersOnlyOnScale(m: Modal, start: Pose, current: Pose)
    ensures !m.ScaleModal? ==> CancelledPose(m, start, current) == CancelledPoseAsWritten(m, start, current)
    ensures m.ScaleModal? ==>
              (CancelledPose(m, start, current) == CancelledPoseAsWritten(m, start, current) <==> current.scaling == start.scaling)
  {
  }

  // ---------------------------------------------------------------------
  // The editor's transform state
  // ---------------------------------------------------------------------

  /** The fields of the drawing world the transform handlers read and write. */
  class DrawingWorld {
    var currentDragAxis: Option<DragAxis>
    var transformType: Option<TransformType>
    var transformStartPosition: Vec3
    var transformStartRotation: Vec3
    /** `transformStartScale`: set when a scale drag starts. */
    var transformStartScale: Option<Vec3>
    /** `ghostMesh`, by its scaling; `None` when there is no ghost. */
    var ghostScaling: Option<Vec3>
    var modal: Option<Modal>
    /** How many times `autosave` was called. */
    var autosaves: nat

    constructor(startPosition: Vec3, startRotation: Vec3)
      ensures currentDragAxis == None && transformType == None && transformStartScale == None
      ensures transformStartPosition == startPosition && transformStartRotation == startRotation
      ensures ghostScaling == None && modal == None && autosaves == 0
    {
      currentDragAxis, transformType, transformStartScale := None, None, None;
      transformStartPosition, transformStartRotation := startPosition, startRotation;
      ghostScaling, modal, autosaves := None, None, 0;
    }

    /** The start pose Cancel goes back to; a scale never started leaves the scaling as it is. */
    function StartPose(current: Pose): (p: Pose)
      reads this
      ensures p.position == transformStartPosition && p.rotation == transformStartRotation
      ensures p.scaling == (if transformStartScale.Some? then transformStartScale.value else current.scaling)
    {
      Pose(transformStartPosition, transformStartRotation,
           if transformStartScale.Some? then transformStartScale.value else current.scaling)
    }

    /**
     * `showTransformConfirmationModal`: with no tracked axis the axis
     * becomes `x`; a move or rotation modal shows the drag along that axis
     * (inches, or degrees); a scale modal shows no input. A move or
     * rotation on the `'uniform'` axis has no such component and throws
     * before the modal is shown (`isOpen` is false).
     */
    method ShowTransformConfirmationModal(mesh: Mesh, transformData: Vec3, kind: TransformType) returns (isOpen: bool)
      modifies this
      ensures currentDragAxis == (if old(currentDragAxis).None? then Some(OnAxis(X)) else old(currentDragAxis))
      ensures var axis := currentDragAxis.value;
              isOpen <==> (kind == ScaleTransform || axis.OnAxis?)
      ensures var axis := currentDragAxis.value;
              modal == (if !isOpen then old(modal)
                        else if kind == PositionTransform
                          then Some(MoveModal(mesh, axis.axis, ShownDistanceText(transformData, transformStartPosition, axis.axis)))
                        else if kind == RotationTransform
                          then Some(TurnModal(mesh, axis.axis, ShownDegreesText(transformData, transformStartRotation, axis.axis)))
                        else Some(ScaleModal(mesh)))
      ensures transformType == old(transformType) && transformStartPosition == old(transformStartPosition)
      ensures transformStartRotation == old(transformStartRotation) && transformStartScale == old(transformStartScale)
      ensures ghostScaling == old(ghostScaling) && autosaves == old(autosaves)
    {
      if currentDragAxis.None? {
        currentDragAxis := Some(OnAxis(X));
      }
      var axis := currentDragAxis.value;
      if kind == ScaleTransform {
        modal := Some(ScaleModal(mesh));
        isOpen := true;
      } else if axis.Uniform? {
        isOpen := false;
      } else if kind == PositionTransform {
        modal := Some(MoveModal(mesh, axis.axis, ShownDistanceText(transformData, transformStartPosition, axis.axis)));
        isOpen := true;
      } else {
        modal := Some(TurnModal(mesh, axis.axis, ShownDegreesText(transformData, transformStartRotation, axis.axis)));
        isOpen := true;
      }
    }

    /** The clean-up both buttons end with: no ghostScaling, no tracked axis, no modal. */
    method CloseModal()
      modifies this
      ensures ghostScaling == None && currentDragAxis == None && modal == None
      ensures transformType == old(transformType) && transformStartPosition == old(transformStartPosition)
      ensures transformStartRotation == old(transformStartRotation) && transformStartScale == old(transformStartScale)
      ensures autosaves == old(autosaves)
    {
      ghostScaling := None;
      currentDragAxis := None;
      modal := None;
    }

    /**
     * The Confirm button with `entered` in the input: the tracked axis of
     * the start pose moves by the amount (a rotation amount is in degrees);
     * a part's saved record takes the mesh's new position and rotation and
     * is autosaved; then the modal closes. A scale modal has no input, so
     * its handler throws on reading it and nothing changes.
     */
    method Confirm(entered: real)
      requires modal.Some?
      modifies this, modal.value.mesh
      ensures var m := old(modal.value);
              m.ScaleModal? ==> modal == old(modal) && m.mesh.CurrentPose() == old(m.mesh.CurrentPose())
                                && m.mesh.partData == old(m.mesh.partData) && autosaves == old(autosaves)
                                && ghostScaling == old(ghostScaling) && currentDragAxis == old(currentDragAxis)
      ensures var m := old(modal.value);
              m.MoveModal? ==> m.mesh.CurrentPose() == old(m.mesh.CurrentPose()).(position := ConfirmedPosition(transformStartPosition, m.axis, entered))
      ensures var m := old(modal.value);
              m.TurnModal? ==> m.mesh.CurrentPose() == old(m.mesh.CurrentPose()).(rotation := ConfirmedRotation(transformStartRotation, m.axis, entered))
      ensures var m := old(modal.value);
              !m.ScaleModal? ==>
                modal == None && ghostScaling == None && currentDragAxis == None
                && m.mesh.partData == (if old(m.mesh.partData).Some? then Some(SavedPlacement(m.mesh.position, m.mesh.rotation)) else None)
                && autosaves == old(autosaves) + (if old(m.mesh.partData).Some? then 1 else 0)
      ensures transformType == old(transformType) && transformStartPosition == old(transformStartPosition)
      ensures transformStartRotation == old(transformStartRotation) && transformStartScale == old(transformStartScale)
    {
      var m := modal.value;
      match m {
        case ScaleModal(_) =>
          return;
        case MoveModal(mesh, axis, _) =>
          mesh.position := ConfirmedPosition(transformStartPosition, axis, entered);
        case TurnModal(mesh, axis, _) =>
          mesh.rotation := ConfirmedRotation(transformStartRotation, axis, entered);
      }
      var mesh := m.mesh;
      if mesh.partData.Some? {
        mesh.partData := Some(SavedPlacement(mesh.position, mesh.rotation));
        autosaves := autosaves + 1;
      }
      CloseModal();
    }

    /** Enter in the modal's input clicks Confirm; a scale modal has no input to press it in. */
    method PressEnter(entered: real)
      requires modal.Some?
      modifies this, modal.value.mesh
      ensures old(modal.value).ScaleModal? ==> modal == old(modal) && autosaves == old(autosaves)
                                               && old(modal.value).mesh.CurrentPose() == old(modal.value.mesh.CurrentPose())
      ensures !old(modal.value).ScaleModal? ==> modal == None && currentDragAxis == None && ghostScaling == None
      ensures old(modal.value).MoveModal? ==>
                old(modal.value).mesh.position == ConfirmedPosition(transformStartPosition, old(modal.value).axis, entered)
      ensures old(modal.value).TurnModal? ==>
                old(modal.value).mesh.rotation == ConfirmedRotation(transformStartRotation, old(modal.value).axis, entered)
    {
      if !modal.value.ScaleModal? {
        Confirm(entered);
      }
    }

    /**
     * The Cancel button: the attribute the modal is about goes back to its
     * start value (`CancelledPose`; the scale case is the correction of
     * `CancelledPoseAsWritten`), nothing is saved, and the modal closes.
     */
    method Cancel()
      requires modal.Some?
      modifies this, modal.value.mesh
      ensures var m := old(modal.value);
              m.mesh.CurrentPose() == CancelledPose(m, StartPose(old(m.mesh.CurrentPose())), old(m.mesh.CurrentPose()))
      ensures var m := old(modal.value);
              m.mesh.partData == old(m.mesh.partData)
      ensures modal == None && ghostScaling == None && currentDragAxis == None && autosaves == old(autosaves)
      ensures transformType == old(transformType) && transformStartPosition == old(transformStartPosition)
      ensures transformStartRotation == old(transformStartRotation) && transformStartScale == old(transformStartScale)
    {
      var m := modal.value;
      var mesh := m.mesh;
      var restored := CancelledPose(m, StartPose(mesh.CurrentPose()), mesh.CurrentPose());
      mesh.position, mesh.rotation, mesh.scaling := restored.position, restored.rotation, restored.scaling;
      CloseModal();
    }

    // -------------------------------------------------------------------
    // Scale gizmo drag observers
    // -------------------------------------------------------------------

    /**
     * Drag start on a scale handle (`axis` is `x`, `y`, `z` or `'uniform'`):
     * a ghostScaling of the mesh appears, and the type, the axis and the start
     * scale are recorded. Without an attached mesh nothing happens.
     */
    method ScaleDragStart(mesh: Mesh?, axis: DragAxis)
      modifies this
      ensures mesh == null ==> currentDragAxis == old(currentDragAxis) && transformType == old(transformType)
                               && transformStartScale == old(transformStartScale) && ghostScaling == old(ghostScaling)
      ensures mesh != null ==> currentDragAxis == Some(axis) && transformType == Some(ScaleTransform)
                               && transformStartScale == Some(mesh.scaling) && ghostScaling == Some(mesh.scaling)
      ensures transformStartPosition == old(transformStartPosition) && transformStartRotation == old(transformStartRotation)
      ensures modal == old(modal) && autosaves == old(autosaves)
    {
      if mesh != null {
        ghostScaling := Some(mesh.scaling);
        transformType := Some(ScaleTransform);
        currentDragAxis := Some(axis);
        transformStartScale := Some(mesh.scaling);
      }
    }

    /**
     * A drag step, after the gizmo has written the dragged scale into the
     * mesh: the ghostScaling takes that scale and the mesh goes back to the start
     * scale, so the real mesh never shows an unconfirmed scale.
     */
    method ScaleDrag(mesh: Mesh?)
      modifies this, mesh
      ensures mesh != null && old(transformStartScale).Some? && old(ghostScaling).Some? ==>
                ghostScaling == Some(old(mesh.scaling)) && mesh.scaling == old(transformStartScale).value
      ensures mesh != null && !(old(transformStartScale).Some? && old(ghostScaling).Some?) ==>
                ghostScaling == old(ghostScaling) && mesh.scaling == old(mesh.scaling)
      ensures mesh == null ==> ghostScaling == old(ghostScaling)
      ensures mesh != null ==> mesh.position == old(mesh.position) && mesh.rotation == old(mesh.rotation)
                               && mesh.partData == old(mesh.partData)
      ensures currentDragAxis == old(currentDragAxis) && transformType == old(transformType)
      ensures transformStartScale == old(transformStartScale) && modal == old(modal) && autosaves == old(autosaves)
      ensures transformStartPosition == old(transformStartPosition) && transformStartRotation == old(transformStartRotation)
    {
      if mesh != null && transformStartScale.Some? && ghostScaling.Some? {
        ghostScaling := Some(mesh.scaling);
        mesh.scaling := transformStartScale.value;
      }
    }

    /**
     * Drag end: the mesh takes the ghostScaling's scale before the ghostScaling is
     * removed, and the scale confirmation modal opens.
     */
    method ScaleDragEnd(mesh: Mesh?)
      modifies this, mesh
      ensures mesh != null ==> mesh.scaling == (if old(ghostScaling).Some? then old(ghostScaling).value else old(mesh.scaling))
      ensures mesh != null ==> mesh.position == old(mesh.position) && mesh.rotation == old(mesh.rotation)
                               && mesh.partData == old(mesh.partData)
      ensures mesh != null ==> ghostScaling == None && modal == Some(ScaleModal(mesh))
      ensures mesh != null ==> currentDragAxis == (if old(currentDragAxis).None? then Some(OnAxis(X)) else old(currentDragAxis))
      ensures mesh == null ==> ghostScaling == old(ghostScaling) && modal == old(modal) && currentDragAxis == old(currentDragAxis)
      ensures transformType == old(transformType) && transformStartScale == old(transformStartScale) && autosaves == old(autosaves)
      ensures transformStartPosition == old(transformStartPosition) && transformStartRotation == old(transformStartRotation)
    {
      if mesh != null {
        if ghostScaling.Some? {
          mesh.scaling := ghostScaling.value;
        }
        ghostScaling := None;
        var isOpen := ShowTransformConfirmationModal(mesh, mesh.scaling, ScaleTransform);
      }
    }
  }

  /**
   * A whole scale drag: start, any number of gizmo steps, end. The mesh
   * stays at its start scale throughout, ends with the last scale the gizmo
   * gave, and a corrected Cancel then gives back the start scale.
   */
  method ScaleDragSession(world: DrawingWorld, mesh: Mesh, axis: DragAxis, steps: seq<Vec3>) returns (ended: Vec3)
    requires world.modal.None? && |steps| > 0
    modifies world, mesh
    ensures ended == steps[|steps| - 1] && mesh.scaling == ended
    ensures world.modal == Some(ScaleModal(mesh)) && world.ghostScaling == None
    ensures world.transformStartScale == Some(old(mesh.scaling))
    ensures mesh.position == old(mesh.position) && mesh.rotation == old(mesh.rotation)
  {
    var start := mesh.scaling;
    world.ScaleDragStart(mesh, axis);
    var i := 0;
    while i < |steps|
      invariant 0 <= i <= |steps|
      invariant world.transformStartScale == Some(start) && world.ghostScaling.Some?
      invariant mesh.scaling == start
      invariant i > 0 ==> world.ghostScaling == Some(steps[i - 1])
      invariant mesh.position == old(mesh.position) && mesh.rotation == old(mesh.rotation)
      invariant world.modal.None?
    {
      mesh.scaling := steps[i];
      world.ScaleDrag(mesh);
      i := i + 1;
    }
    world.ScaleDragEnd(mesh);
    ended := mesh.scaling;
  }
}
