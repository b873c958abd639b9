/**
 * The thickness planer (modules/PlaneToolSystem.js): a dialog with a
 * cutting line dragged in 1/32" steps over the board's thickness, then a
 * fine-tuning step whose two text fields fill each other in, and the
 * precise cut that thins the selected part.  The DOM, the modal's HTML and
 * the serialisation of the mesh geometry are not modelled.
 */
module PlaneTool {
  import opened Wrappers
  import opened Text
  import opened JsNum
  import opened Measurement
  import opened Lumber

  /** The 1/32" step the cutting line snaps to. */
  const SnapIncrement: real := 1.0 / 32.0

  /** The thinnest board the drag allows, 1/8". */
  const MinThickness: real := 0.125

  /** The part record the planer edits in place. */
  class PlanedPart {
    var id: string
    var thickness: real
    var thicknessInches: real
    var status: string
    var materialName: string
    var processingHistory: Option<seq<HistoryEntry>>

    constructor (id: string, thickness: real, materialName: string)
      ensures this.id == id && this.thickness == thickness && this.materialName == materialName
      ensures processingHistory == None
    {
      this.id := id;
      this.thickness := thickness;
      this.thicknessInches := thickness / 2.54;
      this.status := "";
      this.materialName := materialName;
      this.processingHistory := None;
    }

    /**
     * The part-record half of the precise cut: the new thickness in both
     * fields, status "planed", one more history entry and the planed name.
     */
    method MarkPlaned(newThickness: real, entry: HistoryEntry)
      modifies this
      ensures thickness == newThickness && thicknessInches == newThickness / 2.54
      ensures status == "planed"
      ensures processingHistory == Some(ProcessingHistory(old(processingHistory)) + [entry])
      ensures materialName == PlanedName(old(materialName))
      ensures id == old(id)
    {
      thickness := newThickness;
      thicknessInches := newThickness / 2.54;
      status := "planed";
      var history := ProcessingHistory(processingHistory);
      processingHistory := Some(history + [entry]);
      if !Includes(materialName, "Planed") {
        materialName := materialName + " (Planed)";
      }
    }
  }

  /** The vertical scale and position of the part's mesh, which the precise cut adjusts. */
  class PartMesh {
    var scalingY: real
    var positionY: real

    constructor (scalingY: real, positionY: real)
      ensures this.scalingY == scalingY && this.positionY == positionY
    {
      this.scalingY := scalingY;
      this.positionY := positionY;
    }

    /** Squashes the mesh vertically by `scaleFactor` and lowers it by half the removed amount. */
    method Plane(scaleFactor: real, removeAmount: real)
      modifies this
      ensures scalingY == old(scalingY) * scaleFactor && positionY == old(positionY) - removeAmount / 2.0
    {
      scalingY := scalingY * scaleFactor;
      positionY := positionY - removeAmount / 2.0;
    }
  }

  /** The name after planing: " (Planed)" is appended unless the name already mentions "Planed". */
  function PlanedName(name: string): string
  {
    if Includes(name, "Planed") then name else name + " (Planed)"
  }

  /** The suffix is added at most once: a planed name mentions "Planed" and planing it again keeps it. */
  lemma PlanedNameIdempotent(name: string)
    ensures Includes(PlanedName(name), "Planed")
    ensures PlanedName(PlanedName(name)) == PlanedName(name)
    ensures Includes(name, "Planed") ==> PlanedName(name) == name
  {
    if !Includes(name, "Planed") {
      var s := name + " (Planed)";
      assert s[|name| + 2..|name| + 8] == "Planed";
      assert OccursAt(s, "Planed", |name| + 2);
    }
  }

  /** `Math.round(x / (1/32)) * (1/32)`: the nearest 32nd. */
  function SnapTo32(x: real): (r: real)
    ensures OnGrid32(r)
    ensures Abs(r - x) <= 1.0 / 64.0
  {
    var k := Round(x * 32.0);
    assert (k as real / 32.0) * 32.0 == k as real;
    k as real / 32.0
  }

  /** `x` is a whole number of 32nds of an inch. */
  predicate OnGrid32(x: real)
  {
    (x * 32.0).Floor as real == x * 32.0
  }

  /** Where `onDrag` puts the cutting line for a mouse `relativeY` below the top of a ruler `rulerHeight` tall. */
  function DragPosition(originalThickness: real, relativeY: real, rulerHeight: real): real
    requires rulerHeight > 0.0
  {
    var raw := originalThickness * (1.0 - relativeY / rulerHeight);
    Max(MinThickness, Min(originalThickness - SnapIncrement, SnapTo32(raw)))
  }

  /**
   * The dragged line never goes below 1/8", never above a 32nd under the
   * top (when the board is thick enough for both), and sits on a 32nd
   * whenever the original thickness does.
   */
  lemma DragPositionBounds(originalThickness: real, relativeY: real, rulerHeight: real)
    requires rulerHeight > 0.0
    ensures var p := DragPosition(originalThickness, relativeY, rulerHeight);
            p >= MinThickness
            && (originalThickness - SnapIncrement >= MinThickness ==> p <= originalThickness - SnapIncrement)
            && (OnGrid32(originalThickness) ==> OnGrid32(p))
  {
    var p := DragPosition(originalThickness, relativeY, rulerHeight);
    if OnGrid32(originalThickness) {
      OnGridMinus32(originalThickness);
      assert OnGrid32(MinThickness) by {
        assert MinThickness * 32.0 == 4.0;
      }
    }
  }

  lemma OnGridMinus32(x: real)
    requires OnGrid32(x)
    ensures OnGrid32(x - SnapIncrement)
  {
    var y := x * 32.0;
    assert (x - SnapIncrement) * 32.0 == y - 1.0;
    FloorMinusOne(y);
  }

  lemma FloorMinusOne(y: real)
    ensures (y - 1.0).Floor == y.Floor - 1
  {
  }

  /** The accepted thickness of the precise cut as written: NaN passes, since every comparison with NaN is false. */
  function AcceptedThicknessAsWritten(newThickness: Option<Num>, originalThickness: real): (r: Option<Num>)
    ensures r.Some? && r.value.Fin? ==> newThickness == r && 0.0 < r.value.v < originalThickness
  {
    match newThickness
    case None => None
    case Some(NaN) => Some(NaN)
    case Some(PosInf) => None
    case Some(NegInf) => None
    case Some(Fin(v)) => if v <= 0.0 || v >= originalThickness then None else Some(Fin(v))
  }

  /** A thickness typed as "0/0" is accepted by the check as written, and the part's thickness becomes NaN. */
  lemma PlaneAcceptsNaN(ns: string, ds: string, originalThickness: real)
    requires ns != [] && AllDigits(ns) && DigitsValue(ns) == 0
    requires ds != [] && AllDigits(ds) && DigitsValue(ds) == 0
    ensures AcceptedThicknessAsWritten(ParseMeasurement(ns + "/" + ds), originalThickness) == Some(NaN)
  {
    ZeroOverZeroIsNaN(ns, ds);
  }

  /** The evidently intended check: a number strictly between 0 and the original thickness, and nothing else. */
  function AcceptedThickness(newThickness: Option<Num>, originalThickness: real): (r: Option<real>)
    ensures r.Some? <==> newThickness.Some? && newThickness.value.Fin?
                         && 0.0 < newThickness.value.v < originalThickness
    ensures r.Some? ==> newThickness == Some(Fin(r.value))
  {
    var t := AcceptedThicknessAsWritten(newThickness, originalThickness);
    if t.Some? && t.value.Fin? then Some(t.value.v) else None
  }

  /**
   * The other field's text when one field of the fine-tuning step changes:
   * for a typed amount strictly between 0 and the original thickness, the
   * original minus it, formatted; otherwise the field is left alone.  The
   * source applies the same rule in both directions.
   */
  function Complement(typed: string, originalThickness: real): (r: Option<string>)
  {
    var v := ParseMeasurement(typed);
    if v.Some? && v.value.Fin? && 0.0 < v.value.v < originalThickness
    then Some(FormatSpec(Some(originalThickness - v.value.v)))
    else None
  }

  /**
   * What one field fills into the other reads back, within 0.005", as the
   * original thickness minus what was typed; the fields are only filled for
   * an amount strictly inside the board.
   */
  lemma ComplementReadsBack(typed: string, originalThickness: real)
    ensures Complement(typed, originalThickness).Some? <==>
              ParseMeasurement(typed).Some? && ParseMeasurement(typed).value.Fin?
              && 0.0 < ParseMeasurement(typed).value.v < originalThickness
    ensures Complement(typed, originalThickness).Some? ==>
              var back := ParseMeasurement(Complement(typed, originalThickness).value);
              back.Some? && back.value.Fin?
              && Abs(back.value.v - (originalThickness - ParseMeasurement(typed).value.v)) < 0.005
  {
    var v := ParseMeasurement(typed);
    if v.Some? && v.value.Fin? && 0.0 < v.value.v < originalThickness {
      FormatThenParse(originalThickness - v.value.v);
    }
  }

  /** The text of the precise cut's history entry. */
  function PlaneDetails(removeAmount: real, newThickness: real): string
  {
    "Planed " + ToFixed(removeAmount, 3) + "\" from top, new thickness: " + ToFixed(newThickness, 3) + "\" (precision edited)"
  }

  /** The planer's state: whether it is active, the part, the original thickness and the cutting line. */
  class PlaneToolState {
    var planeToolActive: bool
    var selectedPart: PlanedPart?
    var originalThickness: real
    /** Height of the cutting line above the bottom of the board, in inches. */
    var cuttingPosition: real
    var isDragging: bool

    constructor ()
      ensures !planeToolActive && selectedPart == null && originalThickness == 0.0
      ensures cuttingPosition == 0.0 && !isDragging
    {
      planeToolActive := false;
      selectedPart := null;
      originalThickness := 0.0;
      cuttingPosition := 0.0;
      isDragging := false;
    }

    /**
     * `activate`: the drawing's selected part, or else the first workbench
     * part; with a part, the cutting line starts at the top of the board.
     */
    method Activate(drawingSelectedPart: PlanedPart?, firstWorkBenchPart: PlanedPart?)
      modifies this
      ensures planeToolActive && isDragging == old(isDragging)
      ensures selectedPart == if drawingSelectedPart != null then drawingSelectedPart else firstWorkBenchPart
      ensures selectedPart != null ==> originalThickness == selectedPart.thickness && cuttingPosition == originalThickness
      ensures selectedPart == null ==> originalThickness == old(originalThickness) && cuttingPosition == old(cuttingPosition)
    {
      planeToolActive := true;
      selectedPart := drawingSelectedPart;
      if selectedPart == null {
        selectedPart := firstWorkBenchPart;
      }
      if selectedPart == null {
        return;
      }
      originalThickness := selectedPart.thickness;
      cuttingPosition := originalThickness;
    }

    /** `updateMeasurements`: the final thickness and the amount removed, which add up to the original thickness. */
    function Measurements(): (r: (real, real))
      reads this
      ensures r.0 == cuttingPosition && r.0 + r.1 == originalThickness
    {
      (cuttingPosition, originalThickness - cuttingPosition)
    }

    method StartDragging()
      modifies this
      ensures isDragging
      ensures planeToolActive == old(planeToolActive) && selectedPart == old(selectedPart)
      ensures originalThickness == old(originalThickness) && cuttingPosition == old(cuttingPosition)
    {
      isDragging := true;
    }

    method StopDragging()
      modifies this
      ensures !isDragging
      ensures planeToolActive == old(planeToolActive) && selectedPart == old(selectedPart)
      ensures originalThickness == old(originalThickness) && cuttingPosition == old(cuttingPosition)
    {
      isDragging := false;
    }

    /** `onDrag`: only while dragging, the cutting line follows the mouse, snapped and clamped. */
    method OnDrag(relativeY: real, rulerHeight: real)
      requires rulerHeight > 0.0
      modifies this
      ensures cuttingPosition == if old(isDragging) then DragPosition(originalThickness, relativeY, rulerHeight) else old(cuttingPosition)
      ensures planeToolActive == old(planeToolActive) && selectedPart == old(selectedPart)
      ensures originalThickness == old(originalThickness) && isDragging == old(isDragging)
    {
      if !isDragging {
        return;
      }
      var newPosition := originalThickness * (1.0 - relativeY / rulerHeight);
      newPosition := SnapTo32(newPosition);
      newPosition := Max(MinThickness, Min(originalThickness - SnapIncrement, newPosition));
      assert newPosition == DragPosition(originalThickness, relativeY, rulerHeight);
      cuttingPosition := newPosition;
    }

    /** `commitPlaning`: the fine-tuning step opens only for a part and a positive amount to remove. */
    method CommitPlaning() returns (showsEditStep: bool)
      ensures showsEditStep <==> selectedPart != null && originalThickness - cuttingPosition > 0.0
    {
      if selectedPart == null {
        return false;
      }
      var removeAmount := originalThickness - cuttingPosition;
      if removeAmount <= 0.0 {
        return false;
      }
      return true;
    }

    /** `cancelPlaning`: hides the dialog and deactivates the tool. */
    method Cancel()
      modifies this
      ensures !planeToolActive && !isDragging
      ensures selectedPart == old(selectedPart) && originalThickness == old(originalThickness)
      ensures cuttingPosition == old(cuttingPosition)
    {
      planeToolActive := false;
      isDragging := false;
    }

    /**
     * `applyPreciseCut` with the intended check: an accepted thickness
     * thins the part and its mesh from the top, marks it planed, appends one
     * history entry, names it planed and closes the tool; anything else
     * changes nothing.  `newThickness` is what `parseMeasurement` read from
     * the final-thickness field, `targetMesh` the mesh the source finds by
     * the part's id and `timestamp` the ISO time of the cut.
     */
    method ApplyPreciseCut(newThickness: Option<Num>, targetMesh: PartMesh?, timestamp: string)
      requires selectedPart != null
      modifies this, selectedPart, targetMesh
      ensures selectedPart == old(selectedPart) && originalThickness == old(originalThickness)
      ensures cuttingPosition == old(cuttingPosition)
      ensures var accepted := AcceptedThickness(newThickness, old(originalThickness));
              if accepted.None? then
                unchanged(this) && unchanged(selectedPart) && (targetMesh != null ==> unchanged(targetMesh))
              else
                var v := accepted.value;
                var removeAmount := old(originalThickness) - v;
                selectedPart.thickness == v && selectedPart.thicknessInches == v / 2.54
                && selectedPart.status == "planed"
                && selectedPart.materialName == PlanedName(old(selectedPart.materialName))
                && selectedPart.processingHistory
                   == Some(ProcessingHistory(old(selectedPart.processingHistory))
                           + [HistoryEntry("plane", timestamp, PlaneDetails(removeAmount, v))])
                && selectedPart.id == old(selectedPart.id)
                && (targetMesh != null ==>
                      targetMesh.scalingY == old(targetMesh.scalingY) * (v / old(originalThickness))
                      && targetMesh.positionY == old(targetMesh.positionY) - removeAmount / 2.0)
                && !planeToolActive && !isDragging
    {
      var accepted := AcceptedThickness(newThickness, originalThickness);
      if accepted.None? {
        return;
      }
      var thickness := accepted.value;
      var removeAmount := originalThickness - thickness;
      var details := PlaneDetails(removeAmount, thickness);
      CommitPlane(thickness, HistoryEntry("plane", timestamp, details), targetMesh);
    }

    /** The accepted cut's effects: the mesh, the part record and the tool's flags. */
    method CommitPlane(thickness: real, entry: HistoryEntry, targetMesh: PartMesh?)
      requires selectedPart != null && 0.0 < thickness < originalThickness
      modifies this, selectedPart, targetMesh
      ensures selectedPart == old(selectedPart) && originalThickness == old(originalThickness)
      ensures cuttingPosition == old(cuttingPosition)
      ensures selectedPart.thickness == thickness && selectedPart.thicknessInches == thickness / 2.54
      ensures selectedPart.status == "planed"
      ensures selectedPart.materialName == PlanedName(old(selectedPart.materialName))
      ensures selectedPart.processingHistory == Some(ProcessingHistory(old(selectedPart.processingHistory)) + [entry])
      ensures selectedPart.id == old(selectedPart.id)
      ensures targetMesh != null ==>
                targetMesh.scalingY == old(targetMesh.scalingY) * (thickness / old(originalThickness))
                && targetMesh.positionY == old(targetMesh.positionY) - (old(originalThickness) - thickness) / 2.0
      ensures !planeToolActive && !isDragging
    {
      if targetMesh != null {
        var scaleFactor := thickness / originalThickness;
        targetMesh.Plane(scaleFactor, originalThickness - thickness);
      }
      selectedPart.MarkPlaned(thickness, entry);
      planeToolActive := false;
      isDragging := false;
    }
  }
}
