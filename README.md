# CutList core, modelled in Dafny

CutList is a browser woodworking CAD tool. A user draws 2D sketches, turns them into boards on a workbench and works those boards with virtual shop tools: a cut tool and a saw, a thickness planer, a drill press, a router, a scroll saw and a joiner. Most of its code drives a 3D scene graph, CSG operations and the DOM. This project models the arithmetic and bookkeeping next to that code, and proves what it promises:

- **Measurements** (`measurement.dfy`, `sawtool.dfy`, `drawing.dfy`). Inch text with fractions, such as "1 3/4", is parsed. Lengths are shown at the nearest 1/32" table entry, the nearest 1/16" and as feet-inch-sixteenths labels. The planer and the cut tool share the same parse and format code (`modules/PlaneToolSystem.js:441-530` is the same text as `modules/CutToolSystem_backup_20250726_162737.js:1283-1372`), so one module models both.
- **Cut arithmetic** (`cuttool.dfy`, `sawtool.dfy`, `planetool.dfy`, `partmanager.dfy`):
  - the two piece sizes around a kerf;
  - which routed edges each piece keeps;
  - the new part records and the part registry;
  - the planer's 1/32" snap and its clamp to the board.
- **Tool workflows** as classes whose methods advance the tool's state:
  - the saw's two-point cut (`sawtool.dfy`);
  - the joiner's piece, piece, snap, snap sequence and its collision test (`jointool.dfy`);
  - the drill press's hole markers (`drillpress.dfy`);
  - the scroll saw's path smoothing and control points (`scrollcut.dfy`);
  - the router's edge selection and its OBJ importer (`routerbit.dfy`);
  - the 2D sketch tools (`tools.dfy`).
- **2D view** (`drawing.dfy`, `grid.dfy`, `camera.dfy`, `sketcheditor.dfy`):
  - hit testing;
  - the grid's level-of-detail spacing, its labels and its snapping;
  - zoom limits and zoom about the mouse;
  - saving and restoring the 2D view;
  - point-to-segment distance;
  - rectangle resize from a handle.
- **Transform confirmation** (`transform.dfy`). These are the handlers that two Python patch scripts inject into the page: the single-axis confirm/cancel modal, and the scale-gizmo observers that decide whether the ghost mesh or the real mesh holds the scale.
- **Editor extension and server side** (`chatpanel.dfy`, `projectstore.dfy`, `materialsstore.dfy`):
  - the chat panel's token accounting, server-sent-event framing and prompt assembly;
  - the PHP project store's upsert and filtered listing;
  - the PHP materials store's validation, backup retention and default database.

Shared modules:
- `wrappers.dfy`: Option and Result.
- `text.dfy`: JavaScript string helpers.
- `jsnum.dfy`: JavaScript numbers, including NaN and the infinities, `Math.round`, `parseFloat` and `toFixed`.
- `geometry.dfy`: vectors.
- `lumber.dfy`: part dimensions and history entries.

Numbers are modelled as exact reals. NaN and the infinities appear only where the source lets them through.

Where the code can fail, the model returns an `Option` or `Result` rather than demanding good input. Each "as written" member models the code exactly, including its mistakes (see "## Findings"). The corrected member next to it is the one the rest of the model uses.

Where the code and its design notes disagree, the model follows the code:
- the 2D grid's major spacing is ten minor steps, while the 3D grid marks every fourth line;
- the camera's screen/world conversions take the rotation's cosine and sine as a parameter;
- several near-duplicate copies of these files exist in the repository. Only the files cited below are modelled, and the other copies are not part of this model.

## Model

| member | source | states |
|---|---|---|
| Measurement.MatchFractionSound | modules/CutToolSystem_backup_20250726_162737.js:1289 | what the intended fraction pattern matches is a well-formed whole/gap/numerator/denominator split of the text, with a whole part exactly when whitespace follows it |
| Measurement.MatchFractionComplete | modules/CutToolSystem_backup_20250726_162737.js:1289 | every well-formed split is matched again by the intended pattern with the same groups |
| Measurement.MatchAsWrittenMixed | modules/CutToolSystem_backup_20250726_162737.js:1289 | on a spaced mixed number "W N/D" the pattern as written assigns the same groups as the intended one |
| Measurement.MatchAsWrittenSplitsNumerator | modules/CutToolSystem_backup_20250726_162737.js:1289 | on an unspaced "N/D" with a numerator of two or more digits, the pattern as written gives all but the last digit to the whole-number group |
| Measurement.MatchAsWrittenSound | modules/CutToolSystem_backup_20250726_162737.js:1289 | the groups of the pattern as written are well formed and rebuild the input |
| Measurement.MixedPatternIsSubsumed | modules/CutToolSystem_backup_20250726_162737.js:1297-1304 | whatever the second ("mixed number") pattern matches, the first has already matched with the same groups, so the second branch never runs |
| Measurement.FractionValue | modules/CutToolSystem_backup_20250726_162737.js:1291-1294 | `whole + numerator/denominator` is finite exactly when the denominator is non-zero; 0/0 is NaN and N/0 is Infinity |
| Measurement.FractionValueTimes | modules/CutToolSystem_backup_20250726_162737.js:1294 | a finite fraction value times its denominator is whole times denominator plus numerator |
| Measurement.ParseOfBareFraction | modules/CutToolSystem_backup_20250726_162737.js:1289-1295 | a bare "N/D" is read as the JavaScript value of N/D, including NaN and Infinity for a zero denominator |
| Measurement.ZeroOverZeroIsNaN | modules/CutToolSystem_backup_20250726_162737.js:1291-1294 | "0/0" (any number of zero digits) is read as NaN |
| Measurement.IntendedReadsFraction | modules/CutToolSystem_backup_20250726_162737.js:1289-1295 | with the corrected pattern, an unspaced "N/D" with a non-zero denominator is read as N/D |
| Measurement.AsWrittenMisreadsTwoDigitNumerator | modules/CutToolSystem_backup_20250726_162737.js:1289-1295 | as written, "AB/D" is read as A + B/D, which differs from AB/D for every denominator but 10 |
| Measurement.AsWrittenOfUnspacedFraction | modules/CutToolSystem_backup_20250726_162737.js:1289-1295 | as written, an unspaced multi-digit fraction parses to the value of the split groups |
| Measurement.ParseOfRebuild | modules/CutToolSystem_backup_20250726_162737.js:1283-1295 | a fraction written out in full is read back as the number its groups denote |
| Measurement.Fraction32 | modules/CutToolSystem_backup_20250726_162737.js:1326-1358 | table entry k is k/32 in lowest terms: an odd numerator over a power of two |
| Measurement.FirstNearFrom | modules/CutToolSystem_backup_20250726_162737.js:1361-1365 | the scan returns a table entry within 0.005 of the remainder, or 0 when there is none |
| Measurement.NearIsUnique | modules/CutToolSystem_backup_20250726_162737.js:1361-1365 | no two different 32nds are both within the 0.005 tolerance, so the first match is the only one |
| Measurement.FirstNearFinds | modules/CutToolSystem_backup_20250726_162737.js:1361-1365 | the scan stops at the entry near the remainder wherever it sits in the table |
| Measurement.FormatMeasurement | modules/CutToolSystem_backup_20250726_162737.js:1318-1368 | the table scan returns "0.000" for null, "W N/D" or "N/D" at the first 32nd within 0.005, otherwise `toFixed(3)` |
| Measurement.ParseFractionText | modules/CutToolSystem_backup_20250726_162737.js:1363 | the text of a table entry, with or without a whole part, parses back to whole + k/32 |
| Measurement.ParseOfToFixed | modules/CutToolSystem_backup_20250726_162737.js:1307-1310 | a three-decimal rendering parses back to the rounded value |
| Measurement.ThreeDecimalsAreClose | modules/CutToolSystem_backup_20250726_162737.js:1367 | `toFixed(3)` stays within 0.005 of the value |
| Measurement.FormatThenParse | modules/CutToolSystem_backup_20250726_162737.js:1283-1368 | round trip: what the dialog shows for a non-negative length parses back to the matched 32nd or the three-decimal rounding, within 0.005 of the length |
| Measurement.FifteenSixteenthsShown | modules/CutToolSystem_backup_20250726_162737.js:1356-1364 | the dialog shows 15/16 inch as "15/16", the text the pattern as written misreads |
| Measurement.AsWrittenSplitsFraction | modules/CutToolSystem_backup_20250726_162737.js:1289-1295 | as written, "AB/D" parses to A + B/D |
| Measurement.ParseAsWrittenOfMatch | modules/CutToolSystem_backup_20250726_162737.js:1283-1295 | as written, a trimmed text the pattern matches parses to the value of its groups |
| Measurement.ParseOfDecimalText | modules/CutToolSystem_backup_20250726_162737.js:1307-1310 | a plain decimal text falls through the fraction patterns and is read as parseFloat reads it |
| Measurement.FormatOfSlotParses | modules/CutToolSystem_backup_20250726_162737.js:1361-1365 | when the remainder is near a 32nd, the text shown parses back to the whole inches plus that 32nd |
| Measurement.FormatOfFixedParses | modules/CutToolSystem_backup_20250726_162737.js:1367 | when no 32nd is near, the three-decimal text shown parses back to the value rounded to three decimals |
| CutTool.DetermineInheritedEdges | modules/CutToolSystem_backup_20250726_162737.js:77-113 | the loop keeps exactly the routed edges the piece inherits, in their original order |
| CutTool.InheritedIsSubsequence | modules/CutToolSystem_backup_20250726_162737.js:77-113 | the edges a piece keeps are a subsequence of the routed edges |
| CutTool.InheritedMembership | modules/CutToolSystem_backup_20250726_162737.js:77-113 | an edge is kept exactly when it was routed and the piece inherits it |
| CutTool.CrossCutInheritance | modules/CutToolSystem_backup_20250726_162737.js:83-93 | cross cut: left/right edges stay on both pieces, a front edge only on piece 1, a back edge only on piece 2 |
| CutTool.RipCutInheritance | modules/CutToolSystem_backup_20250726_162737.js:94-104 | rip cut: front/back edges stay on both pieces, a left edge only on piece 1, a right edge only on piece 2 |
| CutTool.UnknownDirectionKeepsNothing | modules/CutToolSystem_backup_20250726_162737.js:80-112 | any other cut direction keeps no routed edge |
| CutTool.CutPieceData | modules/CutToolSystem_backup_20250726_162737.js:308-327 | a piece changes only the length (cross) or width (rip), keeps thickness, material, grade, records its parent and appends exactly one history entry |
| CutTool.PiecesAgreeOffTheCut | modules/CutToolSystem_backup_20250726_162737.js:308-327 | the two pieces of one cut agree on everything but the size along the cut, and gain the same history entry |
| CutTool.CutPositions | modules/CutToolSystem_backup_20250726_162737.js:2267-2320 | outer faces stay put, piece 1 ends and piece 2 starts half a kerf from the cut point, so the two sizes add up to the board size minus the kerf; other axes are unchanged |
| CutTool.KerfBox | modules/CutToolSystem_backup_20250726_162737.js:2296-2318 | the kerf box is the board box narrowed to the kerf width on the cut axis |
| CutTool.PreciseCutPositionAsWritten | modules/CutToolSystem_backup_20250726_162737.js:1228-1252 | a finite accepted position lies strictly between 0 and 1 and is piece 1's size over the cut dimension |
| CutTool.PreciseCutAcceptsNaN | modules/CutToolSystem_backup_20250726_162737.js:1231-1252 | a piece size typed as "0/0" passes both checks as written and becomes a NaN cut position |
| CutTool.PreciseCutPosition | modules/CutToolSystem_backup_20250726_162737.js:1228-1252 | corrected: a position exists exactly when the size is a number strictly between 0 and the cut dimension, and then it is size/dimension in (0, 1) |
| PlaneTool.PlanedPart.MarkPlaned | modules/PlaneToolSystem.js:398-425 | the part takes the new thickness in both fields, status "planed", exactly one more history entry and the planed name; its id is kept |
| PlaneTool.PlanedNameIdempotent | modules/PlaneToolSystem.js:423-425 | the " (Planed)" suffix is added at most once: a planed name mentions "Planed" and planing again keeps it |
| PlaneTool.SnapTo32 | modules/PlaneToolSystem.js:243 | the snapped value is a whole number of 32nds within a 64th of the input |
| PlaneTool.DragPositionBounds | modules/PlaneToolSystem.js:229-250 | the dragged line is never below 1/8", never above a 32nd under the top (for a board thick enough), and on a 32nd whenever the board is |
| PlaneTool.AcceptedThicknessAsWritten | modules/PlaneToolSystem.js:363-369 | a finite accepted thickness is the typed value, strictly between 0 and the original |
| PlaneTool.PlaneAcceptsNaN | modules/PlaneToolSystem.js:364-369 | a thickness typed as "0/0" passes the check as written as NaN |
| PlaneTool.AcceptedThickness | modules/PlaneToolSystem.js:363-369 | corrected: a thickness is accepted exactly when it is a number strictly between 0 and the original |
| PlaneTool.ComplementReadsBack | modules/PlaneToolSystem.js:332-346 | corrected: with the fraction parse of the 1289-1295 Findings row, a field is filled only for an amount strictly inside the board, and what it shows reads back within 0.005" as the original minus the typed amount |
| PlaneTool.PlaneToolState.constructor | modules/PlaneToolSystem.js:16-36 | the tool starts inactive, with no part, at thickness 0 and not dragging |
| PlaneTool.PlaneToolState.Activate | modules/PlaneToolSystem.js:144-166 | the drawing's selected part or else the first workbench part; with a part the line starts at its top thickness, without one nothing else changes |
| PlaneTool.PlaneToolState.Measurements | modules/PlaneToolSystem.js:195-201 | the final thickness is the cutting position, and it plus the removed amount is the original thickness |
| PlaneTool.PlaneToolState.StartDragging | modules/PlaneToolSystem.js:220-224 | dragging starts; nothing else changes |
| PlaneTool.PlaneToolState.StopDragging | modules/PlaneToolSystem.js:255-258 | dragging stops; nothing else changes |
| PlaneTool.PlaneToolState.OnDrag | modules/PlaneToolSystem.js:229-250 | only while dragging the line moves to the snapped, clamped mouse position |
| PlaneTool.PlaneToolState.CommitPlaning | modules/PlaneToolSystem.js:263-276 | the fine-tuning step opens exactly when there is a part and a positive amount to remove |
| PlaneTool.PlaneToolState.Cancel | modules/PlaneToolSystem.js:531-546 | the tool ends inactive and not dragging, with the part and positions kept |
| PlaneTool.PlaneToolState.ApplyPreciseCut | modules/PlaneToolSystem.js:363-437 | corrected: with the thickness check of the 363-369 Findings row, an accepted thickness scales the mesh and lowers it by half the removed amount, marks the part planed with one history entry and deactivates; any other input changes nothing |
| PlaneTool.PlaneToolState.CommitPlane | modules/PlaneToolSystem.js:375-431 | for a thickness strictly between 0 and the original, the mesh is squashed by their ratio and lowered by half the difference, the part record is marked planed with the given entry, and the tool closes |
| PlaneTool.PartMesh.Plane | modules/PlaneToolSystem.js:377-383 | the mesh's vertical scale is multiplied by the factor and its height lowered by half the removed amount |
| SawTool.Closest | modules/SawToolSystem.js:1182-1191 | the table scan keeps the first entry whose distance to the fractional part is smallest: no entry is nearer and every earlier one is strictly farther |
| SawTool.FormatInchesAsFraction | modules/SawToolSystem.js:1158-1219 | the scanning method yields exactly the label the written rule defines (negative lengths show 0") |
| SawTool.ClosestZeroIsSmall | modules/SawToolSystem.js:1182-1191 | the empty entry 0/16 is closest only when the fractional part is at most 1/32 |
| SawTool.RoundUpNeverTaken | modules/SawToolSystem.js:1194-1200 | the branch that rounds up to the next inch can never return: with 0/16 closest, the fraction times 16 rounds below 1 |
| SawTool.ClosestNearTheTop | modules/SawToolSystem.js:1182-1191 | above 31/32 of an inch the entry chosen is 15/16 |
| SawTool.AsWrittenMissesNextInch | modules/SawToolSystem.js:1158-1219 | a length just under a whole inch is labelled `n 15/16"` although `n+1"` is nearer |
| SawTool.ShownSixteenths | modules/SawToolSystem.js:1158-1219 | the intended label's sixteenths are always a proper fraction (below 16) |
| SawTool.InchesAsFraction | modules/SawToolSystem.js:1158-1219 | the intended label always ends with the inch mark and shows 0" for a negative length |
| SawTool.ShownIsNearest | modules/SawToolSystem.js:1158-1219 | the intended label is within 1/32" of the length, so it names a nearest sixteenth |
| SawTool.AsWrittenAgreesBelowTheTop | modules/SawToolSystem.js:1158-1219 | the written and intended labels agree whenever the fractional part is at most 31/32 |
| SawTool.InchTextReadsBack | modules/SawToolSystem.js:1203-1216 | every label text built from whole inches and sixteenths parses back to exactly that length |
| SawTool.LabelReadsBack | modules/SawToolSystem.js:1158-1219 | round trip: the intended label without its inch mark parses to a length within 1/32" of the input |
| SawTool.PieceSizes | modules/SawToolSystem.js:1090-1095 | left and front pieces keep their distances; right and back lose the kerf and are floored at 0.1" |
| SawTool.DistanceLabels | modules/SawToolSystem.js:1092-1100 | corrected: with the sixteenths of the 1185-1202 Findings row, four labels: ← before the left size, → after the right, ↑ before the front, ↓ after the back, each size as a fraction label of its kerf-adjusted piece |
| SawTool.DistanceLabelsReadBack | modules/SawToolSystem.js:1092-1100 | corrected: as in the 1185-1202 Findings row, each label stripped of its arrow and inch mark parses back within 1/32" of its piece size, and the right and back pieces are at least 0.1" |
| SawTool.CutDistance | modules/SawToolSystem.js:754-777 | the cut distance lies between 0 and the board length and, when the midpoint is on the board, is its offset from the front end in inches |
| SawTool.CutDimensions | modules/SawToolSystem.js:740-797 | no piece without the board's mesh; otherwise width and thickness are kept and the length is the cut distance (positive side) or the rest less the kerf, floored at 0.1" |
| SawTool.PiecesAndKerfMakeTheBoard | modules/SawToolSystem.js:780-797 | when no floor applies, the two pieces plus the kerf add up to the original length |
| SawTool.NewPartData | modules/SawToolSystem.js:838-856 | the new record has a fresh id, the suffix in its name, status "cut", no geometry, the same board and exactly one more history entry describing the cut |
| SawTool.MainAndCutoffShareTheBoard | modules/SawToolSystem.js:838-856 | the Main and Cutoff records share dimensions, bench and earlier history and have different names |
| SawTool.FindPartMesh | modules/SawToolSystem.js:137-139 | the first scene mesh carrying the part's id, or none when no mesh carries it |
| SawTool.ClickLanding | modules/SawToolSystem.js:250-272 | a hit on a board wins; off the boards a click lands on the projected point of the targeted board (second point) or the selected board (first point) |
| SawTool.SawToolState.constructor | modules/SawToolSystem.js:16-30 | the saw starts inactive at the first point with no points, no target and a 1/16" kerf |
| SawTool.SawToolState.Activate | modules/SawToolSystem.js:129-167 | activates iff the selected part's mesh is a workbench board, then restarts at the first point with no points; otherwise nothing changes |
| SawTool.SawToolState.OnMouseMove | modules/SawToolSystem.js:192-232 | when active, hovering a workbench part makes it the target and hovered part; the step and points never change |
| SawTool.SawToolState.OnMouseClick | modules/SawToolSystem.js:237-301 | the first landing click records one point and targets its board; the second records a point only on the same board and readies the cut; the step/point invariant is kept |
| SawTool.FractionLabelReadsBack | modules/SawToolSystem.js:1158-1219 | corrected: a label with k sixteenths (0 < k < 16) parses back, with the cut dialog's parser as corrected in the 1289-1295 Findings row, to the whole inches plus k/16 |
| SawTool.WholeLabelReadsBack | modules/SawToolSystem.js:1158-1219 | a label of whole inches parses back to that number |
| PartRegistry.OrElse | modules/Part.js:17 | `s \|\| fallback` on an optional string: the value when present and non-empty, otherwise the fallback |
| PartRegistry.TimeOrElse | modules/Part.js:63-64 | `n \|\| Date.now()` on an optional timestamp: the value when present and non-zero, otherwise now |
| PartRegistry.NewPart | modules/Part.js:15-72 | the id falls back to the generated one, the type to "board"; dimensions and material are copied; given children or none; a given non-zero timestamp or now; only boards carry grain, grade and a cut history, the given one or empty |
| PartRegistry.Without | modules_backup_current_20250818_193204/PartManager.js:86 | deleting a key drops exactly that id from the insertion order and keeps the rest |
| PartRegistry.WithoutKeepsNoDuplicates | modules_backup_current_20250818_193204/PartManager.js:86 | the insertion order stays free of duplicates after a delete |
| PartRegistry.PartsInOrder | modules_backup_current_20250818_193204/PartManager.js:42-44 | the records of the ids, one per id, in order |
| PartRegistry.OfType | modules_backup_current_20250818_193204/PartManager.js:47-49 | the filter never lengthens the list |
| PartRegistry.OfTypeMembers | modules_backup_current_20250818_193204/PartManager.js:47-49 | the filter keeps exactly the parts of the requested type |
| PartRegistry.Kerf | modules_backup_current_20250818_193204/PartManager.js:271 | an absent or zero kerf is 1/8"; any other kerf is used as given |
| PartRegistry.CalculateCutPieces | modules_backup_current_20250818_193204/PartManager.js:261-336 | a cross cut splits the width at position × width, a rip the length; each piece loses half a kerf, so the pieces total the board less one kerf; the other dimensions and axes are kept |
| PartRegistry.CutPiecesPlacement | modules_backup_current_20250818_193204/PartManager.js:285-299 | each piece's outer face sits half a kerf beyond the board's face, and the gap between the pieces is two kerfs |
| PartRegistry.PieceData | modules_backup_current_20250818_193204/PartManager.js:220-229 | each piece is created with the original's type and the original's id as parent, at the computed size and position |
| PartRegistry.CutPieceParts | modules_backup_current_20250818_193204/PartManager.js:217-241 | the two pieces carry the generated ids, the original as parent and its type, no children, and together make the board less one kerf along the cut |
| PartRegistry.PartManager.constructor | modules_backup_current_20250818_193204/PartManager.js:14-20 | the registry starts empty |
| PartRegistry.PartManager.Set | modules_backup_current_20250818_193204/PartManager.js:27 | `Map.set`: the entry is stored; a new key goes last in the order, an existing key keeps its place |
| PartRegistry.PartManager.CreatePart | modules_backup_current_20250818_193204/PartManager.js:23-34 | the new record is stored under its id, adding exactly that key |
| PartRegistry.PartManager.GetPart | modules_backup_current_20250818_193204/PartManager.js:37-39 | found iff the id is stored, and then it is that record |
| PartRegistry.PartManager.AllParts | modules_backup_current_20250818_193204/PartManager.js:42-44 | one record per stored id, and exactly the stored records |
| PartRegistry.PartManager.PartsByType | modules_backup_current_20250818_193204/PartManager.js:47-49 | exactly the stored records of that type |
| PartRegistry.PartManager.Boards | modules_backup_current_20250818_193204/PartManager.js:52-54 | exactly the stored boards |
| PartRegistry.PartManager.UpdatePart | modules_backup_current_20250818_193204/PartManager.js:57-72 | a stored part gets the new modification time and nothing else changes; an unknown id changes nothing |
| PartRegistry.PartManager.RemovePart | modules_backup_current_20250818_193204/PartManager.js:75-95 | the id leaves the map and the order; an unknown id changes nothing |
| PartRegistry.PartManager.RecordChildren | modules_backup_current_20250818_193204/PartManager.js:244 | the two piece ids are pushed onto the original's children; no other record changes |
| PartRegistry.PartManager.CutPart | modules_backup_current_20250818_193204/PartManager.js:207-258 | an unknown part changes nothing; a board is replaced by its two pieces; a part without a cut history keeps its place, gains the pieces and its child ids, and the call fails |
| PartRegistry.RecordedThenRemoved | modules_backup_current_20250818_193204/PartManager.js:244-253 | removing the original afterwards leaves no trace of the child ids pushed onto it |
| PartRegistry.ChildrenRecorded | modules_backup_current_20250818_193204/PartManager.js:244 | same keys; only the original's entry changes, gaining the two child ids |
| JoinTool.Translate | modules_backup_current_20250818_193204/JoinToolSystem.js:477 | moving a box shifts both its corners by the vector on every axis |
| JoinTool.Corners | modules_backup_current_20250818_193204/JoinToolSystem.js:333-348 | exactly eight corners, x varying fastest, then y, then z, each taken from the box's minimum or maximum |
| JoinTool.CornersTranslate | modules_backup_current_20250818_193204/JoinToolSystem.js:477 | moving a box moves each listed corner by the same vector |
| JoinTool.CheckCollision | modules_backup_current_20250818_193204/JoinToolSystem.js:550-615 | disjoint boxes never collide; otherwise a collision iff the overlap on all three axes reaches the 0.5 cm tolerance |
| JoinTool.TouchingIsNoCollision | modules_backup_current_20250818_193204/JoinToolSystem.js:550-615 | boxes that meet exactly face to face on some axis are never a collision |
| JoinTool.PartMesh.constructor | modules_backup_current_20250818_193204/JoinToolSystem.js:465-471 | a mesh starts at its position with fixed extents and no saved position |
| JoinTool.BoxAtMoves | modules_backup_current_20250818_193204/JoinToolSystem.js:475-480 | moving the mesh by a vector moves its world box by that vector |
| JoinTool.Diameter | modules_backup_current_20250818_193204/JoinToolSystem.js:427-429 | every snap sphere has a positive diameter, a corner's is 1 |
| JoinTool.CornerSnap | modules_backup_current_20250818_193204/JoinToolSystem.js:427-451 | a corner snap is of corner kind, at that corner of the box, and belongs to the mesh |
| JoinTool.JoinToolState.constructor | modules_backup_current_20250818_193204/JoinToolSystem.js:16-33 | the tool starts inactive at the first step with no selection, no snaps and no snap points shown |
| JoinTool.JoinToolState.ShowInstructions | modules_backup_current_20250818_193204/JoinToolSystem.js:181-186 | the instruction text is shown; the tool state is untouched |
| JoinTool.JoinToolState.ResetSelection | modules_backup_current_20250818_193204/JoinToolSystem.js:168-176 | back to the first step with no pieces or snaps selected; the snap points on display stay |
| JoinTool.JoinToolState.Activate | modules_backup_current_20250818_193204/JoinToolSystem.js:135-150 | the tool is on at the first step; with fewer than two parts it only says so, otherwise it asks for the first piece and clears the selection |
| JoinTool.JoinToolState.Deactivate | modules_backup_current_20250818_193204/JoinToolSystem.js:156-163 | off, instructions hidden, no snap points, selection reset |
| JoinTool.JoinToolState.CreateSnapPoint | modules_backup_current_20250818_193204/JoinToolSystem.js:427-451 | exactly one more snap point on display; nothing else changes |
| JoinTool.JoinToolState.ShowCornerPoints | modules_backup_current_20250818_193204/JoinToolSystem.js:328-354 | the snap points shown are exactly the eight corner snaps of the mesh's world box, in corner order |
| JoinTool.JoinToolState.HandlePieceSelection | modules_backup_current_20250818_193204/JoinToolSystem.js:253-274 | the first pick selects piece 1; the second selects piece 2 unless it is piece 1 again and then shows piece 1's corners; snap steps ignore piece clicks |
| JoinTool.JoinToolState.ExecuteJoin | modules_backup_current_20250818_193204/JoinToolSystem.js:465-544 | without both snaps nothing happens; piece 2 moves by snap1 − snap2 unless the boxes would collide, in which case its position is restored; a join updates the board transform in inches and the saved position and resets the selection |
| JoinTool.JoinToolState.HandleSnapPointSelection | modules_backup_current_20250818_193204/JoinToolSystem.js:279-294 | the first snap is recorded and piece 2's corners replace piece 1's; the second snap runs the join with the move the two snaps define |
| JoinTool.JoinToolState.OnMouseClick | modules_backup_current_20250818_193204/JoinToolSystem.js:200-223 | an inactive tool or a miss changes nothing; a snap point goes to the snap handler and a piece to the piece handler |
| JoinTool.JoinPutsCornerOnSnap | modules_backup_current_20250818_193204/JoinToolSystem.js:465-477 | the join moves piece 2 so that the chosen corner of its box lands exactly on snap 1 |
| DrillPress.Marker.constructor | modules/DrillPressSystem.js:748-782 | a marker holds its position, bit size and depth |
| DrillPress.FirstNear | modules/DrillPressSystem.js:888-907 | the first marker other than the excluded one within the snap distance; when none is found, every marker is excluded or too far |
| DrillPress.NearSnapsBothAxes | modules/DrillPressSystem.js:893-905 | within the snap distance both per-axis tests pass: a near marker lends its x and z and the height stays |
| DrillPress.Snapped | modules/DrillPressSystem.js:888-911 | with no near marker the point is unchanged; otherwise it takes the first near marker's x and z |
| DrillPress.HoleCylinder | modules/DrillPressSystem.js:944-979 | a through hole is the board height plus 2 and centred on the marker; a partial hole is the parsed depth tall with its top at the marker, and an infinite depth puts the centre at minus infinity |
| DrillPress.DepthPhraseAsWritten | modules/DrillPressSystem.js:1034-1036 | as written, any marker carrying a depth is reported as a through hole |
| DrillPress.DepthPhrase | modules/DrillPressSystem.js:1034-1036 | intended: "through" exactly for a through hole, otherwise the depth followed by `" deep` |
| DrillPress.SummaryCallsPartialHolesThrough | modules/DrillPressSystem.js:1034-1036 | a marker with a partial depth is reported as through as written and with its depth as intended |
| DrillPress.SummaryMatchesCylinder | modules/DrillPressSystem.js:944-1036 | the intended summary word and the cutter agree on which holes go through |
| DrillPress.FirstFaceCountsAsNoSurface | modules/DrillPressSystem.js:225 | a board chosen through face 0 counts as having no surface as written, but as chosen by the intended test |
| DrillPress.SurfaceTestsAgreeOffFaceZero | modules/DrillPressSystem.js:225 | apart from face 0 the written and intended surface tests agree |
| DrillPress.DrillPressState.constructor | modules/DrillPressSystem.js:14-66 | inactive, no markers or selection, a 1/4" bit, through holes, no board, surface or drag |
| DrillPress.DrillPressState.Activate | modules/DrillPressSystem.js:140-154 | the tool turns on, says to click a board and reports success; markers and board are kept |
| DrillPress.DrillPressState.Deactivate | modules/DrillPressSystem.js:1090-1124 | the later definition wins: markers, board and surface are cleared, while the marker selection and drag state stay |
| DrillPress.DrillPressState.GetSnappedPosition | modules/DrillPressSystem.js:888-911 | the scanning loop returns exactly the snapped point |
| DrillPress.DrillPressState.PlaceHoleMarker | modules/DrillPressSystem.js:696-715 | exactly one fresh marker is appended, at the snapped point unless SHIFT is held, with the current size and depth |
| DrillPress.DrillPressState.DeselectMarker | modules/DrillPressSystem.js:852-865 | the selection is cleared; nothing else changes |
| DrillPress.DrillPressState.SelectMarker | modules/DrillPressSystem.js:826-850 | a placed marker becomes the selection; any other pick changes nothing |
| DrillPress.DrillPressState.DeleteSelectedMarker | modules/DrillPressSystem.js:867-886 | the selected marker leaves the list, the others stay, and the selection is cleared |
| DrillPress.DrillPressState.HandleRightClick | modules/DrillPressSystem.js:324-365 | corrected: with the surface test of the 222-225 Findings row, on a chosen surface a right-click on a placed marker removes it, clearing the selection if it was selected; otherwise nothing changes |
| DrillPress.DrillPressState.HandleMouseDown | modules/DrillPressSystem.js:248-270 | corrected: with the surface test of the 222-225 Findings row, pressing a marker on a chosen surface selects it and arms a drag from the press point |
| DrillPress.DrillPressState.HandleMouseUp | modules/DrillPressSystem.js:272-281 | the drag ends and is disarmed |
| DrillPress.DrillPressState.HandleDrag | modules/DrillPressSystem.js:283-322 | an armed press becomes a drag only beyond 5 pixels; while dragging the selected marker follows the board point, snapped to the other markers unless SHIFT is held (the listener as written never calls it on an armed press: see the 106-114 Findings row) |
| DrillPress.DrillPressState.OnMouseMoveAsWritten | modules/DrillPressSystem.js:106-114 | as written: without a drag already under way no drag starts and the selected marker stays put |
| DrillPress.DrillPressState.OnMouseMove | modules/DrillPressSystem.js:106-114 | corrected: an armed press is passed to the drag handler, so a move beyond 5 pixels starts the drag and the marker follows the board point |
| DrillPress.DrillPressState.HandleSurfaceClick | modules/DrillPressSystem.js:196-246 | corrected: with the surface test of the 222-225 Findings row, the first click chooses the board and its face (a board without part data is refused); later clicks select a placed marker or place a new one once a surface is chosen |
| DrillPress.DrillPressState.SelectDrillBit | modules/DrillPressSystem.js:601-635 | the current size changes, and so does the selected marker's |
| DrillPress.RemoveMarker | modules/DrillPressSystem.js:871-874 | `splice(indexOf(m), 1)` drops one occurrence of the marker; with no duplicates it is gone and the rest stay |
| DrillPress.FirstNearNone | modules/DrillPressSystem.js:888-907 | when no marker is near, the scan finds none |
| DrillPress.FirstNearPrefix | modules/DrillPressSystem.js:888-907 | a near marker after only far or excluded ones is the one the scan stops at |
| DrillPress.PressThenMoveAsWritten | modules/DrillPressSystem.js:100-114 | as written: a press on a placed marker followed by any move never drags it |
| DrillPress.PressThenMove | modules/DrillPressSystem.js:100-114 | corrected: a press on a placed marker followed by a move beyond 5 pixels drags it onto the board point or its snap |
| ScrollCutting.Smoothed | modules/ScrollCuttingSystem.js:726-761 | same length; paths under three points are unchanged; the end points stay and every interior point is the weighted average of itself and its neighbours |
| ScrollCutting.MidpointIsFixed | modules/ScrollCuttingSystem.js:738-749 | a point already midway between its neighbours is not moved by smoothing |
| ScrollCutting.SmoothPointTranslates | modules/ScrollCuttingSystem.js:738-749 | smoothing commutes with shifting the path |
| ScrollCutting.EvenLineIsSmooth | modules/ScrollCuttingSystem.js:726-761 | an evenly spaced straight path is a fixed point of smoothing |
| ScrollCutting.ControlIndices | modules/ScrollCuttingSystem.js:917-932 | four control indices above ten points, three above five, else two; the first is 0, the last n−1, strictly increasing and in range |
| ScrollCutting.Positions | modules/ScrollCuttingSystem.js:1141-1143 | the control points' positions, one per control point, in order |
| ScrollCutting.PathIndices | modules/ScrollCuttingSystem.js:957-961 | the control points' path indices, one per control point, in order |
| ScrollCutting.Segment | modules/ScrollCuttingSystem.js:311-322 | eight interpolated points, the last being the target control point |
| ScrollCutting.Rebuilt | modules/ScrollCuttingSystem.js:287-332 | a rebuilt path has 1 + 8·(k−1) points for k control points and ends at the last one |
| ScrollCutting.RebuiltPassesThroughControlPoints | modules/ScrollCuttingSystem.js:287-332 | the rebuilt path passes through every control point, the k-th at index 8k |
| ScrollCutting.DraggedPathAsWritten | modules/ScrollCuttingSystem.js:222-234 | as written, a dragged point whose path index is past the current path leaves the path unchanged |
| ScrollCutting.DraggedPath | modules/ScrollCuttingSystem.js:208-234 | intended: with two or more control points the path is rebuilt and passes through the dragged point's new position |
| ScrollCutting.DragAfterRebuildIsIgnored | modules/ScrollCuttingSystem.js:222-234 | after one rebuild of four control points (25 points) dragging a point created at index 25 or later is ignored as written, while the intended update follows it |
| ScrollCutting.SmoothPath | modules/ScrollCuttingSystem.js:726-761 | the smoothing loop returns exactly the smoothed path |
| ScrollCutting.RebuildPath | modules/ScrollCuttingSystem.js:298-328 | the rebuild loops produce exactly the interpolated path |
| ScrollCutting.AppendSegment | modules/ScrollCuttingSystem.js:310-322 | the inner loop appends exactly the eight interpolated points |
| ScrollCutting.FirstWideEnough | modules/ScrollCuttingSystem.js:1451-1455 | the first increment at least 42 pixels wide on screen; when none is found, every increment is narrower |
| ScrollCutting.CalculateOptimalTickSpacing | modules/ScrollCuttingSystem.js:1443-1459 | the first nice increment wide enough on screen, else 1.0 |
| ScrollCutting.FallbackIsDenserThanLargest | modules/ScrollCuttingSystem.js:1443-1459 | at 5.25 pixels per unit the spacing is 8, just below that the fallback 1.0: zooming out makes the ticks denser |
| ScrollCutting.ScrollCutState.constructor | modules/ScrollCuttingSystem.js:20-41 | not drawing, with no path, no smoothed path, no control points and no selection |
| ScrollCutting.ScrollCutState.StartDrawing | modules/ScrollCuttingSystem.js:649-665 | a point on the workpiece plane starts a new path holding only that point |
| ScrollCutting.ScrollCutState.AddPointToPath | modules/ScrollCuttingSystem.js:670-685 | a point on the workpiece plane is appended to the path |
| ScrollCutting.ScrollCutState.ClearCurrentPath | modules/ScrollCuttingSystem.js:1206-1211 | the path and smoothed path are emptied and drawing stops; control points stay |
| ScrollCutting.ScrollCutState.ClearCurrentCutPath | modules/ScrollCuttingSystem.js:2881-2891 | the path, smoothed path and every control point go |
| ScrollCutting.ScrollCutState.ApplySmoothingToPath | modules/ScrollCuttingSystem.js:726-761 | returns exactly the smoothed path |
| ScrollCutting.ScrollCutState.CreateBezierControlPoints | modules/ScrollCuttingSystem.js:908-972 | on a path of three or more points the control points are exactly one per chosen index, at that path point; otherwise nothing changes |
| ScrollCutting.ScrollCutState.FinishDrawing | modules/ScrollCuttingSystem.js:690-721 | a stroke under two points is discarded; otherwise drawing stops, the smoothed path is the smoothing of the stroke and control points are laid on it |
| ScrollCutting.ScrollCutState.RegenerateSmoothedPathFromControlPoints | modules/ScrollCuttingSystem.js:287-332 | with two or more control points the path becomes their interpolation; with fewer nothing changes |
| ScrollCutting.ScrollCutState.HandleControlPointDrag | modules/ScrollCuttingSystem.js:208-245 | corrected: with the rebuild of the 222-234 Findings row, the selected control point moves to the new point and the path follows; without a selection or a plane point nothing changes |
| ScrollCutting.ScrollCutState.DeleteControlPoint | modules/ScrollCuttingSystem.js:1104-1157 | the point goes and the selection clears; two or more remaining points become the path itself, fewer clear the cut path |
| RouterBit.Tokens | modules/RouterBitSystem_OLD.js:891 | the tokens of `trim().split(/\s+/)` hold no whitespace, a blank line gives the one token "", a non-blank line gives no empty token, and written one after another they are the trimmed line's non-whitespace characters in order; a non-blank trimmed line is exactly its tokens interleaved with non-empty whitespace runs |
| RouterBit.FaceIndexOfNumber | modules/RouterBitSystem_OLD.js:903-907 | a plain vertex number n refers to index n − 1, and vertex 0 to nothing |
| RouterBit.FaceIndexDropsWords | modules/RouterBitSystem_OLD.js:903-907 | a face token starting with a letter refers to no vertex |
| RouterBit.FaceRefs | modules/RouterBitSystem_OLD.js:902-908 | one reference per face token, in order |
| RouterBit.Present | modules/RouterBitSystem_OLD.js:904-907 | only references that name a vertex are kept, so never more than there were |
| RouterBit.PresentAllSome | modules/RouterBitSystem_OLD.js:904-907 | when every token names a vertex, all of them are kept in order |
| RouterBit.Triangles | modules/RouterBitSystem_OLD.js:911-919 | no triangle below three indices; the first three indices; a quad adds the triangle 0-2-3; larger faces give only their first triangle |
| RouterBit.ClassifyLine | modules/RouterBitSystem_OLD.js:893-921 | a vertex line iff `v` with three coordinates, a face line iff `f` with three tokens; a face never names more vertices than it has tokens |
| RouterBit.ObjLines | modules/RouterBitSystem_OLD.js:885-892 | one classified entry per line of the file, in order |
| RouterBit.Positions | modules/RouterBitSystem_OLD.js:893-899 | three coordinates per vertex line |
| RouterBit.Indices | modules/RouterBitSystem_OLD.js:911-919 | the triangle indices come in whole triangles |
| RouterBit.IndicesComeFromFaces | modules/RouterBitSystem_OLD.js:900-919 | every triangle index is one some face line of the file names |
| RouterBit.MeshOf | modules/RouterBitSystem_OLD.js:925-927 | "No vertices found in OBJ file" exactly when there is no vertex line; otherwise whole vertices and whole triangles |
| RouterBit.CollectFaceIndices | modules/RouterBitSystem_OLD.js:902-908 | the token loop collects exactly the references that name a vertex |
| RouterBit.ReadLine | modules/RouterBitSystem_OLD.js:890-921 | one pass adds a vertex line's three coordinates and a face line's triangles, and nothing for other lines |
| RouterBit.PushTriangles | modules/RouterBitSystem_OLD.js:913-919 | the face list grows by exactly the face's triangles: the first three indices, and 0-2-3 again for a quad |
| RouterBit.CreateMeshFromObj | modules/RouterBitSystem_OLD.js:883-927 | the parse loop and its check produce exactly the mesh the lines define |
| RouterBit.NonPrintableCount | modules/RouterBitSystem_OLD.js:859-863 | the count never exceeds the bytes counted |
| RouterBit.Head | modules/RouterBitSystem_OLD.js:860 | the first min(length, 100) bytes |
| RouterBit.DetectBinaryContent | modules/RouterBitSystem_OLD.js:857-865 | the counting loop decides exactly the binary test: more than a tenth of the length non-printable among the first 100 bytes |
| RouterBit.PrintableIsText | modules/RouterBitSystem_OLD.js:857-865 | text of printable bytes, tabs and line breaks is never binary |
| RouterBit.ControlRunIsBinary | modules/RouterBitSystem_OLD.js:857-865 | a header of at most 100 bytes that starts with eleven or more control bytes is binary |
| RouterBit.CountPrefix | modules/RouterBitSystem_OLD.js:859-863 | counting a longer prefix never gives fewer |
| RouterBit.LongInputIsText | modules/RouterBitSystem_OLD.js:857-865 | input longer than 1000 bytes is never binary, since only 100 bytes are counted against the whole length |
| RouterBit.FormatOf | modules/RouterBitSystem_OLD.js:961-991 | each format is the answer exactly when every earlier test (GLB magic, glTF JSON, OBJ marker, ASCII STL, binary STL) failed and its own holds; Unknown exactly when all five fail |
| RouterBit.GlbWinsOverText | modules/RouterBitSystem_OLD.js:965-967 | the GLB magic decides before any look at the text |
| RouterBit.RouterMesh.constructor | modules/RouterBitSystem_OLD.js:1929-1940 | a mesh records whether it is a work bench or project part |
| RouterBit.Edge.constructor | modules/RouterBitSystem_OLD.js:1629-1672 | an edge records its type and its part |
| RouterBit.IndexOfEdge | modules/RouterBitSystem_OLD.js:1794 | `indexOf`: the first position of the edge, or the length when absent |
| RouterBit.RemoveFromDistinct | modules/RouterBitSystem_OLD.js:1794-1796 | splicing an edge out of a repeat-free selection removes it altogether and nothing else |
| RouterBit.IndexOfTwin | modules/RouterBitSystem_OLD.js:1504 | the first selected edge for the same geometric edge, or the length when there is none |
| RouterBit.ReclickSelectsTwinAsWritten | modules/RouterBitSystem_OLD.js:1489-1506 | as written: a second object for a selected edge is appended beside it, so the selection holds that edge twice |
| RouterBit.ReclickDeselects | modules/RouterBitSystem_OLD.js:1502-1509 | corrected: a second click on the same geometric edge deselects it |
| RouterBit.ToggledKeepsNoTwins | modules/RouterBitSystem_OLD.js:1502-1509 | corrected: the toggle never selects an edge twice, flips whether the clicked edge is selected and leaves every other edge as it was |
| RouterBit.TogglesAgreeOnTheSameObject | modules/RouterBitSystem_OLD.js:1502-1509 | when the hovered object is the very one selected, the written and the corrected click agree |
| RouterBit.FirstIndexOfEdge | modules/RouterBitSystem_OLD.js:1794 | in a selection without twins, `indexOf` finds an object at its own position |
| RouterBit.RouterBitState.constructor | modules/RouterBitSystem_OLD.js:18-27 | inactive, no profile, no hovered edge, no selection, no focus part |
| RouterBit.RouterBitState.FocusExcludesOthers | modules/RouterBitSystem_OLD.js:1929-1940 | once a part has focus, no other part is routable |
| RouterBit.RouterBitState.ClearEdgeHover | modules/RouterBitSystem_OLD.js:1766-1772 | no hovered edge; the selection and focus stay |
| RouterBit.RouterBitState.HoverEdge | modules/RouterBitSystem_OLD.js:1479-1496 | an edge under the mouse becomes hovered, a miss clears the hover, a hit without an edge keeps it |
| RouterBit.RouterBitState.SelectEdge | modules/RouterBitSystem_OLD.js:1777-1787 | the edge is appended to the selection |
| RouterBit.RouterBitState.DeselectEdge | modules/RouterBitSystem_OLD.js:1793-1818 | the first occurrence of the edge is spliced out; an unselected edge changes nothing |
| RouterBit.RouterBitState.HandleEdgeSelection | modules/RouterBitSystem_OLD.js:1502-1522 | corrected: as in the 1489-1504 Findings row, a click on the hovered edge removes the selected object for the same geometric edge or adds the hovered one, so the selection never holds an edge twice and every other edge stays; without a hovered edge a clicked part becomes the focus unless one already is |
| RouterBit.RouterBitState.ClearAll | modules/RouterBitSystem_OLD.js:2985-2994 | no hovered edge and an empty selection |
| RouterBit.RouterBitState.Activate | modules/RouterBitSystem_OLD.js:2966-2970 | active with the given profile, "roundover" by default, and an empty selection |
| RouterBit.RouterBitState.Deactivate | modules/RouterBitSystem_OLD.js:2975-2980 | inactive with no profile, no focus part and nothing selected |
| Tools.HandleName | tools.js:786-787 | every handle other than move is named `resize-…` |
| Tools.Moved | tools.js:249-265 | a move drag keeps the kind of shape and its size |
| Tools.MovedBack | tools.js:249-265 | dragging back by the opposite delta restores the shape |
| Tools.MovedComposes | tools.js:249-265 | two moves make one move by the summed delta |
| Tools.ResizedRect | tools.js:270-326 | width and height end at least 0.1; a drag from the left or top keeps the right or bottom side fixed, otherwise the left or top side stays |
| Tools.BottomRightFollowsMouse | tools.js:292-295 | until the minimum is reached the bottom-right corner moves with the mouse |
| Tools.ResizedCircle | tools.js:356-380 | the centre stays; the radius is at least 0.05 and at least the mouse's distance along the handle's axis |
| Tools.ResizedLine | tools.js:328-353 | the end not dragged stays; with a unit direction the line is never shorter than 0.1 |
| Tools.UnitStep | tools.js:341-351 | a point 0.1 along a unit direction is exactly 0.1 away |
| Tools.LineEndFollowsMouse | tools.js:328-353 | until the minimum is reached the dragged end is where the mouse moved it |
| Tools.RectFromCorners | tools.js:556-583 | no rectangle when either side is under 0.01; otherwise it spans the two points from its top-left corner with non-negative size |
| Tools.RectFromCornersSymmetric | tools.js:556-583 | the rectangle does not depend on which corner the drag started from |
| Tools.LineFromPoints | tools.js:479-513 | a line exactly when it is longer than 0.01, and then from the press to the release point |
| Tools.CircleFromPoints | tools.js:642-677 | a circle exactly when the radius is at least 0.005, centred at the press point |
| Tools.ResizeNamesContainR | tools.js:786-797 | every resize handle name contains an `r`, so the tests for `r` always pass |
| Tools.SideHandlesGetDiagonalCursors | tools.js:786-797 | as written, the top and bottom side handles and the bottom-left corner get diagonal cursors of the wrong kind |
| Tools.CursorFor | tools.js:786-797 | intended: top-left and bottom-right share one diagonal cursor, top-right and bottom-left the other, sides an axis cursor, move the move cursor |
| Tools.SideCursor | tools.js:786-797 | a side handle other than top, bottom or left gets its axis cursor as written |
| Tools.CursorAsWrittenElsewhere | tools.js:786-797 | apart from the three handles of the finding the written tests give the intended cursor |
| Tools.HoverCursor | tools.js:390-415 | corrected: with the cursors of the 786-797 Findings row, a handle of the single selected object wins, then an object under the mouse gives the hand cursor, else "default" |
| Tools.DrawingObject.constructor | tools.js:499-512 | a new object holds its shape and is not selected |
| Tools.Without | tools.js:879-888 | exactly the objects not deleted, in their order |
| Tools.WithoutKeepsDistinct | tools.js:879-888 | deleting keeps the object list free of repeats |
| Tools.IndexOfObject | tools.js:883 | `indexOf`: the first position of the object, or the length when absent |
| Tools.SpliceIsRemove | tools.js:883-886 | splicing out the `indexOf` position removes the first occurrence |
| Tools.RemoveIsWithout | tools.js:882-887 | removing one more object from a repeat-free list is filtering it out too |
| Tools.SelectionFlags | tools.js:447-452 | after clearing the selection and selecting the hit object, it alone is flagged |
| Tools.StaleFlagAsWritten | tools.js:216-221 | as written, clicking another object while one is selected leaves the old one flagged; the intended update flags only the new one (`handleCircleDown` at lines 606-611 sets the flags the same way) |
| Tools.ToolManager.constructor | tools.js:28-42 | the select tool, with no drawing, drag or snapshot in progress |
| Tools.ToolManager.CancelCurrentOperation | tools.js:51-58 | no drawing, no start point, no temporary shape, no drag and no snapshot; objects and selection stay |
| Tools.ToolManager.SetActiveTool | tools.js:44-49 | the new tool is active and any operation in progress is abandoned |
| Tools.ToolManager.ClearSelection | tools.js:803-809 | every selected object loses its flag and the selection empties |
| Tools.ToolManager.SelectOnly | tools.js:447-452 | the hit object alone is selected and flagged |
| Tools.ToolManager.HandleSelectDown | tools.js:196-230 | corrected: with the cursors of the 786-797 Findings row and the cleared flags of the 214-221 row, a handle of the single selected object starts a drag from a snapshot; otherwise the object under the mouse becomes the selection, or empty space clears it, the active handle is reset when one object was selected, and the tool, drawing flag, cursor and drag state stay |
| Tools.ToolManager.HandleSelectMove | tools.js:232-385 | the held object becomes the snapshot dragged by the total mouse delta since the press |
| Tools.ToolManager.HandleSelectUp | tools.js:418-435 | corrected: with the cursors of the 786-797 Findings row, the drag ends and the cursor is the hover cursor |
| Tools.ToolManager.HandleSelectHover | tools.js:390-415 | without a drag the cursor is the hover cursor and nothing else changes |
| Tools.ToolManager.StartShape | tools.js:457-465 | drawing starts at the point with the temporary shape |
| Tools.ToolManager.HandleLineDown | tools.js:438-466 | a click on an object selects it alone and switches to the select tool; otherwise a zero-length line starts and the selection and tool stay |
| Tools.ToolManager.HandleCircleDown | tools.js:599-627 | corrected: as in the 606-611 Findings row, a click on an object clears the old flags, selects it alone and switches to the select tool; otherwise a zero-radius circle starts and the selection and tool stay |
| Tools.ToolManager.HandleRectangleDown | tools.js:519-537 | an empty rectangle starts at the point |
| Tools.ToolManager.HandleRectangleMove | tools.js:539-554 | the preview spans the start point and the mouse with non-negative size |
| Tools.ToolManager.HandleLineMove | tools.js:468-477 | the preview line ends at the mouse |
| Tools.ToolManager.HandleCircleMove | tools.js:629-640 | the preview radius is the mouse's distance from the centre |
| Tools.ToolManager.AddObject | src/main.js:519-570 | the old selection is cleared and unflagged, and exactly one fresh object with the shape is appended, flagged and alone selected |
| Tools.ToolManager.FinishShape | tools.js:492-513 | the operation ends; a decided shape is appended and becomes the only selection, an undecided one is dropped and the selection kept |
| Tools.ToolManager.HandleLineUp | tools.js:479-513 | the drawing ends and a line is added, and alone selected, exactly when longer than the minimum |
| Tools.ToolManager.HandleRectangleUp | tools.js:556-596 | the drawing ends and the spanned rectangle is added, and alone selected, unless a side is under the minimum |
| Tools.ToolManager.HandleCircleUp | tools.js:642-680 | the drawing ends and the circle is added, and alone selected, unless its radius is under the minimum |
| Tools.ToolManager.DeleteSelected | tools.js:879-891 | every selected object is spliced out, the others keep their order, and the selection empties |
| Tools.DeleteAll | tools.js:882-887 | the splicing loop leaves exactly the objects not selected |
| Drawing.Reduce | src/modules/drawing_backup.js:545-551 | dividing both terms by common divisors keeps them positive |
| Drawing.ReduceFraction | src/modules/drawing_backup.js:543-551 | the loop that divides in place ends with the fraction in lowest terms, as the fraction table gives it |
| Drawing.ReducedSixteenths | src/modules/drawing_backup.js:541-552 | for 1 to 15 sixteenths the loop ends in lowest terms: an odd numerator over a power of two, equal in value to the sixteenths |
| Drawing.PartsAsWritten | src/modules/drawing_backup.js:529-541 | a non-negative length splits into whole feet, 0 to 11 inches and 0 to 16 sixteenths |
| Drawing.Carried | src/modules/drawing_backup.js:529-563 | carrying 16 sixteenths into an inch and 12 inches into a foot keeps the length and leaves proper parts |
| Drawing.PartsAreNearest | src/modules/drawing_backup.js:529-541 | the written parts are within 1/32" of the length |
| Drawing.ZeroIsZeroInches | src/modules/drawing_backup.js:559-568 | a length of zero is labelled `0"` |
| Drawing.MetricUnitSuffix | src/modules/drawing_backup.js:571-578 | a metric label is in metres exactly from 1000 on, in millimetres below |
| Drawing.DimensionTextIsNearest | src/modules/drawing_backup.js:527-569 | the intended label's parts are proper and within 1/32" of the length |
| Drawing.AsWrittenAgreesWithoutCarry | src/modules/drawing_backup.js:527-579 | whenever no carry is needed the written label is the intended one |
| Drawing.PartsOfAlmostThree | src/modules/drawing_backup.js:529-541 | 2.99" splits into 0 feet, 2 inches and 16 sixteenths |
| Drawing.WholeInchesText | src/modules/drawing_backup.js:559-562 | a length of whole inches is labelled with its digit and the inch mark |
| Drawing.AlmostThreeInches | src/modules/drawing_backup.js:527-569 | 2.99" is labelled `2"` as written, a whole inch short, and `3"` as intended |
| Drawing.FormatDimensionValue | src/modules/drawing_backup.js:527-579 | corrected: the method with the reducing loop returns exactly the intended label of the 527-569 Findings row, with a rounded 16/16 carried into the inches |
| Drawing.SegmentParameter | src/modules/drawing_backup.js:609-611 | the projection parameter is clamped to [0, 1] |
| Drawing.HitTest | src/modules/drawing_backup.js:581-634 | the topmost object the point hits, scanning from the last one drawn; none only when no object is hit |
| Drawing.LineEndsHit | src/modules/drawing_backup.js:601-619 | both ends of a line, and so a zero-length line's point, are hit with any non-negative tolerance |
| Drawing.PointsOnSegmentHit | src/modules/drawing_backup.js:609-619 | every point between the ends of a line is on it |
| Drawing.CircleCentreHits | src/modules/drawing_backup.js:594-599 | a circle's centre is on it whenever radius plus tolerance is not negative |
| Grid.SpacingsIncrease | src/modules/grid_spanky_new.js:9 | the seven minor spacings run strictly from finest to coarsest |
| Grid.Coarsened | src/modules/grid_spanky_new.js:63-76 | the coarsening loop only moves to coarser levels and stops where lines are at least 25 px apart or at the coarsest level |
| Grid.Refined | src/modules/grid_spanky_new.js:78-103 | the refining loop only moves to finer levels and stops where neither switch-finer branch applies |
| Grid.RefinedKeepsLinesApart | src/modules/grid_spanky_new.js:86-101 | refining never lands on a level whose lines are closer than 25 px, because each step checks the finer level first |
| Grid.SettledLevel | src/modules/grid_spanky_new.js:53-103 | an unknown spacing restarts at the coarsest level; the result is always a level of the ladder |
| Grid.FirstIndex | src/modules/grid_spanky_new.js:53 | `indexOf` finds the first position holding the spacing |
| Grid.SettledIsStable | src/modules/grid_spanky_new.js:63-103 | after both loops, neither loop would move the level again |
| Grid.SettledLinesAreReadable | src/modules/grid_spanky_new.js:63-103 | the settled lines are at least 25 px apart unless the coarsest level is reached |
| Grid.LodFor | src/modules/grid_spanky_new.js:370-384 | the 3D state's rank is one more than the number of radius boundaries (25, 50, 100, 200, 400, 800) at or below the radius |
| Grid.LodIsMonotone | src/modules/grid_spanky_new.js:370-384 | a farther camera never gets a finer 3D state |
| Grid.SettingsFor | src/modules/grid_spanky_new.js:389-427 | every 3D state draws major lines every four minor lines |
| Grid.SettingsFollowDistance | src/modules/grid_spanky_new.js:370-427 | a farther camera gets a minor spacing at least as coarse and minor lines at least as faint |
| Grid.SpacingFractionsInLowestTerms | src/modules/grid_spanky_new.js:639-659 | every entry of the fraction list is k/32 of an inch for 1 <= k <= 31, written in lowest terms |
| Grid.TextsFrom1To3 | src/modules/grid_spanky_new.js:640-642 | the lowest-terms texts of 1/32 to 3/32 are the list's own texts |
| Grid.TextsFrom4To6 | src/modules/grid_spanky_new.js:643-645 | the lowest-terms texts of 4/32 to 6/32 are the list's own texts |
| Grid.TextsFrom7To10 | src/modules/grid_spanky_new.js:646-648 | the lowest-terms texts of 7/32 to 10/32 are the list's own texts |
| Grid.TextsFrom12To16 | src/modules/grid_spanky_new.js:649-651 | the lowest-terms texts of 12/32 to 16/32 are the list's own texts |
| Grid.TextsFrom18To22 | src/modules/grid_spanky_new.js:652-654 | the lowest-terms texts of 18/32 to 22/32 are the list's own texts |
| Grid.TextsFrom24To28 | src/modules/grid_spanky_new.js:655-657 | the lowest-terms texts of 24/32 to 28/32 are the list's own texts |
| Grid.TextsOf30 | src/modules/grid_spanky_new.js:658 | the lowest-terms text of 30/32 is the list's own text |
| Grid.MatchingFraction | src/modules/grid_spanky_new.js:661-665 | the search returns the first entry within 1e-5 of the spacing, or none when no entry is that close |
| Grid.DropTrailing | src/modules/grid_spanky_new.js:669-674 | dropping a trailing run leaves a prefix that does not end in the character, and only that character was dropped |
| Grid.NotANumberLabel | src/modules/grid_spanky_new.js:627-629 | the label is "N/A" exactly when the spacing is missing or NaN |
| Grid.WholeSpacingLabel | src/modules/grid_spanky_new.js:634-636 | a whole number of inches from one on is labelled by its digits and the inch mark |
| Grid.NumeratorsIncrease | src/modules/grid_spanky_new.js:639-659 | the fraction list is in increasing order |
| Grid.FractionMatchIsUnique | src/modules/grid_spanky_new.js:661-665 | a value within the tolerance of one entry matches that entry and no other |
| Grid.FractionSpacingLabel | src/modules/grid_spanky_new.js:661-665 | each listed fraction of an inch is labelled by its own text |
| Grid.LodFractionLabel | src/modules/grid_spanky_new.js:9 | the five fractional grid spacings are labelled 1/32, 1/16, 1/8, 1/4 and 1/2 |
| Grid.LodWholeLabels | src/modules/grid_spanky_new.js:9 | the one- and two-inch grid spacings are labelled 1 and 2 |
| Grid.SnapIsNearestMultiple | src/modules/grid_spanky_new.js:681-682 | a snapped coordinate is a whole multiple of the spacing within half a spacing of the input |
| Grid.HalfBound | src/modules/grid_spanky_new.js:681-682 | rounding moves the quotient by at most a half, so the snap moves by at most half a spacing |
| Grid.SnapOfMultiple | src/modules/grid_spanky_new.js:681-682 | a multiple of the spacing snaps to itself |
| Grid.SnapToGrid | src/modules/grid_spanky_new.js:677-683 | a spacing of 0 or less leaves the point unchanged |
| Grid.SnapToGridIdempotent | src/modules/grid_spanky_new.js:677-683 | snapping a snapped point changes nothing |
| Grid.GridRenderer.constructor | src/modules/grid_spanky_new.js:4-35 | the renderer starts at the coarsest spacing with major lines four spacings apart and no 3D state |
| Grid.GridRenderer.UpdateGridSpacingForLOD | src/modules/grid_spanky_new.js:45-107 | the new minor spacing is the ladder level both loops settle on, and major lines are ten minor spacings apart |
| Grid.GridRenderer.CoarsenSpacing | src/modules/grid_spanky_new.js:63-76 | the loop ends at the level the coarsening specification gives, with the spacing of that level |
| Grid.GridRenderer.RefineSpacing | src/modules/grid_spanky_new.js:78-103 | the loop ends at the level the refining specification gives, with the spacing of that level |
| Grid.GridRenderer.Update3DGridLOD | src/modules/grid_spanky_new.js:361-430 | without a material or a camera nothing changes; otherwise the state follows the radius and the material is reset only when the state changes |
| Grid.GridRenderer.Snap | src/modules/grid_spanky_new.js:677-683 | the snapped point is on the grid, within half a spacing of the input on each axis |
| Camera.OrDefault | src/modules/camera.js:35-37 | `a \|\| fallback` keeps a present non-zero number and takes the fallback for a missing or zero one |
| Camera.ZoomClamp | src/modules/camera.js:176 | the clamped zoom lies between ordered limits, equals the zoom when it is already inside, and the nearer limit otherwise |
| Camera.RotateUnrotate | src/modules/camera.js:285-288 | for a true rotation, rotating by the angle and by its negative undo each other |
| Camera.ScreenWorldRoundTrip | src/modules/camera.js:274-326 | `screenToWorld` and `worldToScreen` are inverse to each other at any non-zero zoom |
| Camera.ZoomFactor | src/modules/camera.js:174 | the wheel zooms out (factor below 1) exactly when scrolling down |
| Camera.ZoomKeepsPointUnderMouse | src/modules/camera.js:162-190 | after the corrected zoom, the world point that was under the mouse is drawn under the mouse again |
| Camera.OffsetAfterZoom | src/modules/camera.js:180-182 | the new offset from the anchor is the old offset scaled by the zoom ratio |
| Camera.ZoomCancels | src/modules/camera.js:180-182 | undoing the old zoom and applying the new one after scaling by old over new returns the screen offset |
| Camera.RotateScales | src/modules/camera.js:306-326 | rotation commutes with scaling |
| Camera.AsWrittenZoomDrifts | src/modules/camera.js:170-182 | as written, one zoom-in step at 100 px per inch with the mouse 100 px right of centre moves the point under the mouse 21 px |
| Camera.LimitsShareSign | src/modules/camera.js:526-537 | the limits are 9600/dpr and 25/dpr, both of the pixel ratio's sign, so the zoom between them is never 0 |
| Camera.CameraController.constructor | src/modules/camera.js:26-81 | missing sizes fall back to 800 by 600 and the pixel ratio to 1; the zoom shows 24 inches top to bottom, clamped to the limits |
| Camera.CameraController.CalculateZoomLimits | src/modules/camera.js:526-537 | the limits come from the pixel ratio and are swapped into order; nothing else changes |
| Camera.CameraController.ApplyZoomConstraints | src/modules/camera.js:539-557 | the zoom is clamped into the limits, and a zoom already inside is kept |
| Camera.CameraController.HandleZoom | src/modules/camera.js:162-190 | corrected: with the anchor of the 162-190 Findings row, nothing happens while rotating; otherwise the zoom moves one clamped wheel step and, when it changes, the camera moves so the point under the mouse stays there |
| Camera.CameraController.SaveCurrent2DState | src/modules/camera.js:478-485 | the saved view is the current position, zoom and rotation |
| Camera.CameraController.Restore2DState | src/modules/camera.js:497-506 | a saved view comes back with its zoom clamped; without one nothing changes |
| Camera.CameraController.VisibleWorldHeight | src/modules/camera.js:383-390 | the visible height is Infinity exactly at zoom 0, and otherwise times the zoom gives the CSS height |
| SketchEditor.SegmentDistance2 | main-fixed.js:1907-1926 | the squared distance is never negative, and for a zero-length segment it is the distance to its one point |
| SketchEditor.DistanceAlong | main-fixed.js:1908-1922 | the squared distance to the point a fraction of the way along the segment is a quadratic in that fraction |
| SketchEditor.ExpandedDistanceAlong | main-fixed.js:1908-1922 | the same quadratic written out on the coordinate differences |
| SketchEditor.ExpandSquare | main-fixed.js:1921-1925 | one coordinate's squared difference expands into the quadratic's terms |
| SketchEditor.SegmentDistanceIsLeast | main-fixed.js:1907-1926 | no point of the segment is closer to the point than the distance returned |
| SketchEditor.ProjectionIsLeast | main-fixed.js:1917-1922 | the clamped projection is at least as close as any point of the segment |
| SketchEditor.ClosestIsAlong | main-fixed.js:1917-1922 | the clamped projection is the point at the clamped parameter along the segment |
| SketchEditor.ParameterIsLeast | main-fixed.js:1917-1918 | the clamped parameter minimises the distance quadratic over [0, 1] |
| SketchEditor.QuadraticLeast | main-fixed.js:1917-1918 | on [0, 1] the quadratic is least at dot over length squared, clamped |
| SketchEditor.UnitQuadraticLeast | main-fixed.js:1917-1918 | on [0, 1] the unit quadratic is least at the clamped parameter |
| SketchEditor.SegmentEnds | main-fixed.js:1907-1926 | both ends are at distance 0, and no point is farther from the segment than from either end |
| SketchEditor.PointInsideShape | main-fixed.js:1877-1902 | missing corners and unknown types are never inside; a rectangle holds exactly the points within its bounds, edges included; a circle exactly the points no farther than its radius |
| SketchEditor.PointsOfLineAreInside | main-fixed.js:1884-1885 | every point of a sketched line is inside it at any non-negative tolerance |
| SketchEditor.CornersAndCentreAreInside | main-fixed.js:1886-1898 | a rectangle holds both defining corners, and a circle its centre and rim point |
| SketchEditor.SnapToGrid | main-fixed.js:611-622 | with a dynamic grid the point is snapped by the grid's own snapping |
| SketchEditor.FallbackSnapsToFeet | main-fixed.js:616-621 | without a dynamic grid each coordinate becomes the nearest multiple of 12, at most 6 away |
| SketchEditor.HandleCursor | main-fixed.js:2301-2328 | unknown handles get the default cursor; the top-left and bottom-right corners exactly the nw cursor, the other two corners exactly the ne cursor |
| SketchEditor.CursorsAgreeWithTools | main-fixed.js:2301-2328 | each rectangle handle's cursor points the same way as the 2D tool's corrected cursor for that handle |
| SketchEditor.DraggedBox | main-fixed.js:2409-2436 | each edge the handle holds moves with the drag (vertical inverted), and every other edge stays |
| SketchEditor.OrderedBox | main-fixed.js:2437-2447 | each axis's two values come out as their minimum and maximum |
| SketchEditor.OrderedBoxIdempotent | main-fixed.js:2437-2447 | ordering twice is ordering once, and ordered bounds are left alone |
| SketchEditor.SmallDragKeepsOppositeEdges | main-fixed.js:2408-2448 | a drag smaller than the rectangle keeps every edge the handle does not hold |
| SketchEditor.RectBounds.constructor | main-fixed.js:2392 | the bounds object holds the given bounds |
| SketchEditor.UpdateRectangleFromHandle | main-fixed.js:2408-2448 | the bounds become the dragged bounds put in order, so start never exceeds end on either axis |
| TransformEditor.Mesh.constructor | add_scale_observers.py:14 | a mesh holds the given pose and saved record |
| TransformEditor.ConfirmedPosition | replace_modal.py:92-95 | the tracked coordinate moves by the entered inches and the other two stay at the start position |
| TransformEditor.ConfirmedRotation | replace_modal.py:96-99 | the tracked angle moves by the entered degrees in radians and the other two stay at the start rotation |
| TransformEditor.ConfirmShownDistance | replace_modal.py:44-95 | the move modal's untouched `toFixed(2)` text reads back through `parseFloat` as a number, and confirming it puts the tracked coordinate within 0.005" of where the drag left it and every other one at the start |
| TransformEditor.ConfirmShownDegrees | replace_modal.py:53-99 | the rotation modal's untouched `toFixed(1)` text reads back through `parseFloat` as a number, and confirming it puts the tracked angle within 0.05 degrees (in radians) of where the drag left it and the other angles at the start |
| TransformEditor.CancelKeepsDraggedScaleAsWritten | replace_modal.py:116-128 | as written, cancelling a scale modal keeps the dragged scale instead of the start scale |
| TransformEditor.CancelledPose | replace_modal.py:116-128 | cancelling puts back exactly the attribute the modal is about, scale included, and leaves the other two |
| TransformEditor.CancelDiffersOnlyOnScale | replace_modal.py:116-128 | the corrected cancel agrees with the written one except for a scale modal whose scale changed |
| TransformEditor.DrawingWorld.constructor | replace_modal.py:20-25 | the editor starts with no tracked axis, no ghost, no modal and nothing saved |
| TransformEditor.DrawingWorld.StartPose | replace_modal.py:116-122 | the pose cancel returns to is the recorded start position, rotation and, once a scale drag started, scale |
| TransformEditor.DrawingWorld.ShowTransformConfirmationModal | replace_modal.py:20-86 | a missing axis defaults to x; a move modal's input starts with the drag along that axis printed by `toFixed(2)` inches, a rotation modal's with the degrees printed by `toFixed(1)`, a scale modal has no input, and a move or rotation on the uniform axis throws |
| TransformEditor.DrawingWorld.CloseModal | replace_modal.py:109-112 | the clean-up removes the ghost, forgets the axis and closes the modal, changing nothing else |
| TransformEditor.DrawingWorld.Confirm | replace_modal.py:89-113 | the tracked attribute becomes the start value plus the entered amount, a part's record takes the new pose and is autosaved once, and the modal closes; a scale modal throws and changes nothing |
| TransformEditor.DrawingWorld.PressEnter | replace_modal.py:81-85 | Enter in the input confirms the entered amount; a scale modal has no input to press it in |
| TransformEditor.DrawingWorld.Cancel | replace_modal.py:116-128 | corrected: as in the 116-128 Findings row, the mesh takes the cancelled pose, its scale included, nothing is saved, and the modal closes |
| TransformEditor.DrawingWorld.ScaleDragStart | add_scale_observers.py:13-24 | with an attached mesh, a ghost of its scale appears and the scale transform, the axis and the start scale are recorded |
| TransformEditor.DrawingWorld.ScaleDrag | add_scale_observers.py:26-38 | each drag step moves the dragged scale into the ghost and puts the mesh back at the start scale |
| TransformEditor.DrawingWorld.ScaleDragEnd | add_scale_observers.py:40-51 | the mesh takes the ghost's scale, the ghost goes and the scale modal opens |
| TransformEditor.ScaleDragSession | add_scale_observers.py:12-51 | over a whole drag the mesh stays at its start scale, then ends with the last dragged scale and the scale modal open |
| ChatPanel.FreshState | claude-vscode-extension/dist/opusChatPanel.js:97-103 | a fresh day's counters are dated today and all zero |
| ChatPanel.LoadTokenState | claude-vscode-extension/dist/opusChatPanel.js:96-117 | the stored counters come back when they are today's; counters from another day, or no readable file, give a fresh all-zero state for today |
| ChatPanel.EventKeepsTotals | claude-vscode-extension/dist/opusChatPanel.js:273-292 | every stream event keeps the grand total equal to outbound plus inbound, and keeps the inbound total in step with the reply's output tracker |
| ChatPanel.EventsKeepTotals | claude-vscode-extension/dist/opusChatPanel.js:253-305 | any sequence of events keeps the same two balances and the date |
| ChatPanel.ApplyEventsAppend | claude-vscode-extension/dist/opusChatPanel.js:253-305 | handling two runs of events one after the other is handling them joined |
| ChatPanel.BoundaryIndex | claude-vscode-extension/dist/opusChatPanel.js:253 | `indexOf('\n\n')` finds the first blank line, or reports that there is none |
| ChatPanel.Frames | claude-vscode-extension/dist/opusChatPanel.js:253-255 | the frames, each followed by the blank line, and then the leftover rebuild the buffer, and the leftover holds no blank line |
| ChatPanel.FrameIsUnbroken | claude-vscode-extension/dist/opusChatPanel.js:253-254 | the text before the first blank line holds no blank line itself |
| ChatPanel.FramesAreUnbroken | claude-vscode-extension/dist/opusChatPanel.js:253-255 | no frame a buffer splits into holds a blank line |
| ChatPanel.FramesAfterGlue | claude-vscode-extension/dist/opusChatPanel.js:253-255 | splitting glued frames followed by a tail gives those frames back, then the tail's frames |
| ChatPanel.GlueStep | claude-vscode-extension/dist/opusChatPanel.js:253-255 | one glued frame in front adds exactly that frame to the split |
| ChatPanel.GlueCons | claude-vscode-extension/dist/opusChatPanel.js:254-255 | glued frames are the first frame, the blank line, then the rest glued |
| ChatPanel.GlueHead | claude-vscode-extension/dist/opusChatPanel.js:253-255 | a frame followed by a blank line splits off as the first frame |
| ChatPanel.FramesOfGlue | claude-vscode-extension/dist/opusChatPanel.js:253-255 | framing is lossless: frames glued back with a leftover free of blank lines split into the same frames and leftover |
| ChatPanel.ChunksFrameAsOne | claude-vscode-extension/dist/opusChatPanel.js:250-255 | decoded text cut into chunks between any two characters gives the same frames and leftover as the whole text received at once |
| ChatPanel.FirstBoundaryAfter | claude-vscode-extension/dist/opusChatPanel.js:253 | a frame without a blank line ends at the first boundary |
| ChatPanel.FramesStep | claude-vscode-extension/dist/opusChatPanel.js:253-255 | a buffer's frames are the text before its first blank line, then the frames of what follows |
| ChatPanel.ConsumeFrame | claude-vscode-extension/dist/opusChatPanel.js:253-255 | taking the first frame off the buffer keeps the loop's account of the frames |
| ChatPanel.HandleFrame | claude-vscode-extension/dist/opusChatPanel.js:257-304 | handling one more frame adds the events of its data lines, in order |
| ChatPanel.Payloads | claude-vscode-extension/dist/opusChatPanel.js:257-261 | a frame's payloads come only from its lines, so there are never more payloads than lines |
| ChatPanel.Decoded | claude-vscode-extension/dist/opusChatPanel.js:258-262 | there is one decoded event per payload, in order |
| ChatPanel.FrameEventsAppend | claude-vscode-extension/dist/opusChatPanel.js:253-305 | the events of frames plus one more frame are the first frames' events, then that frame's |
| ChatPanel.FrameEventsConcat | claude-vscode-extension/dist/opusChatPanel.js:253-305 | the events of two runs of frames are the events of each, joined |
| ChatPanel.ChunksActAsOne | claude-vscode-extension/dist/opusChatPanel.js:250-306 | the counters and the reply end the same wherever the decoded text is cut into chunks between two characters |
| ChatPanel.OpusChatPanel.constructor | claude-vscode-extension/dist/opusChatPanel.js:145-151 | the counters come from loading the token state, and no prompt or reply is tracked yet |
| ChatPanel.OpusChatPanel.ResetTokenCounts | claude-vscode-extension/dist/opusChatPanel.js:195-205 | every counter goes back to zero for today and is saved |
| ChatPanel.OpusChatPanel.StartReply | claude-vscode-extension/dist/opusChatPanel.js:206-224 | without an API key nothing starts; a new non-continue prompt gets the id prompt_ and the time; the prompt's stitched reply is emptied; the stream starts empty |
| ChatPanel.ReplyStream.constructor | claude-vscode-extension/dist/opusChatPanel.js:224-249 | a reply stream starts with an empty buffer and no output tokens counted |
| ChatPanel.ReplyStream.OnData | claude-vscode-extension/dist/opusChatPanel.js:250-306 | after a chunk of decoded text, the buffer holds what follows the last blank line, and the counters and reply have seen every complete frame's events in order |
| ChatPanel.ReplyStream.HandleMessage | claude-vscode-extension/dist/opusChatPanel.js:257-304 | one frame's data lines are handled in order, each as its decoded event |
| ChatPanel.ReplyStream.HandleEvent | claude-vscode-extension/dist/opusChatPanel.js:263-299 | a text delta extends the stitched reply, message_start adds input tokens, message_delta adds the output tokens' increase, message_stop records the reply's tokens and saves |
| ChatPanel.PayloadsAppend | claude-vscode-extension/dist/opusChatPanel.js:258-261 | one more line adds its payload exactly when it starts with `data: ` |
| ChatPanel.DecodedAppend | claude-vscode-extension/dist/opusChatPanel.js:258-262 | one more payload adds its decoded event at the end |
| ChatPanel.LastChars | claude-vscode-extension/dist/opusChatPanel.js:341 | `slice(-300)` gives the last characters of the reply, or all of a shorter one, and they end it (characters, not UTF-16 code units) |
| ChatPanel.Labelled | claude-vscode-extension/dist/opusChatPanel.js:329-334 | an empty text adds no part, and any other text adds one labelled part |
| ChatPanel.TextParts | claude-vscode-extension/dist/opusChatPanel.js:326-343 | sendAll gives a labelled part for each text that is not empty; chat and chatWithFiles the prompt; continue the tail of the last reply; any other mode nothing |
| ChatPanel.BuildFullPrompt | claude-vscode-extension/dist/opusChatPanel.js:323-361 | the prompt is at most one text block |
| ChatPanel.FilesOnlyWhenAsked | claude-vscode-extension/dist/opusChatPanel.js:349 | outside sendAll and chatWithFiles the files make no difference to the prompt |
| ChatPanel.SendAllEmptyOnlyWhenAllEmpty | claude-vscode-extension/dist/opusChatPanel.js:328-347 | without files, a sendAll prompt is empty exactly when the vision, task and prompt texts all are |
| ChatPanel.FilesFollowTheText | claude-vscode-extension/dist/opusChatPanel.js:349-358 | with files, the prompt is one block: the text (or nothing), a blank line, then each file fenced under its name |
| ChatPanel.ContinueQuotesTheTail | claude-vscode-extension/dist/opusChatPanel.js:341 | a continue prompt quotes at most the last 300 characters of the last reply, and all of a shorter one |
| ProjectStore.ReadDatabase | save-project.php:25-31 | a missing file reads as a database with no users and no projects; otherwise the stored database |
| ProjectStore.Or | save-project.php:55-59 | `??` keeps a present value and takes the default for a missing one |
| ProjectStore.FirstWithID | save-project.php:81-99 | the search finds the first project with the id, or reports that no project has it |
| ProjectStore.NewProject | save-project.php:53-59 | a saved project is active, belongs to the user, is modified now, and takes "Untitled Project", "" and "work" for a missing name, description and bench |
| ProjectStore.Upsert | save-project.php:81-116 | the first project with the id is replaced keeping its creation time and every other project stays; without one the project is appended after the others |
| ProjectStore.UpsertFinds | save-project.php:78-116 | after a save the project's id leads to the saved project |
| ProjectStore.FirstWithIDUnique | save-project.php:81-99 | a project with the id and none before it is the one the search finds |
| ProjectStore.UpsertKeepsIDsUnique | save-project.php:81-116 | saving never makes two projects share an id |
| ProjectStore.ActiveSummaries | save-project.php:162-173 | the listing is never longer than the stored projects |
| ProjectStore.Summarize | save-project.php:165-171 | a listed project keeps its id and name |
| ProjectStore.ListingIsActiveOfUser | save-project.php:161-174 | a summary is listed exactly when it summarises an active project of the user |
| ProjectStore.FirstOwned | save-project.php:153-158 | the search finds the first active project of the user with the id, or reports there is none |
| ProjectStore.FindUser | save-project.php:63-70 | the user loop reports a user exactly when one has the id |
| ProjectStore.SavePost | save-project.php:44-137 | a missing body, user id or project data fails with "Invalid input data" and an unknown user with "User not found", changing nothing; otherwise the project is upserted under its own or a generated id, reported created or updated, and the database changes only when the write succeeds |
| ProjectStore.LoadGet | save-project.php:139-175 | a falsy user id fails; a truthy project id loads the first active project of the user with that id or fails with "Project not found"; otherwise the user's active projects are listed |
| ProjectStore.FirstOwnedIs | save-project.php:153-158 | an owned project with none before it is the one loaded |
| MaterialsStore.ArrayKey | save-materials.php:58 | a JSON name that is not a canonical decimal integer stays a string key |
| MaterialsStore.KeyTextOfArrayKey | save-materials.php:60 | a key prints as the JSON name it came from, in the error messages too |
| MaterialsStore.PositiveValue | save-materials.php:58 | a canonical decimal without a leading zero has a positive value |
| MaterialsStore.CanonicalRoundTrip | save-materials.php:58 | a canonical decimal name turned into an integer key prints back as the same digits |
| MaterialsStore.MaterialProblem | save-materials.php:59-77 | a material has no problem exactly when its material_id is set and strictly equal to its key and it has a category, a common name, physical and economic properties |
| MaterialsStore.FirstProblem | save-materials.php:58-78 | no problem is reported exactly when every material is valid |
| MaterialsStore.ValidateMaterialsData | save-materials.php:44-81 | the loop reports the first failing check, and nothing exactly when the submission is valid |
| MaterialsStore.NumericNameNeedsNumericID | save-materials.php:58-61 | a material stored under "42" whose material_id is the string "42" fails the strict comparison, because the key becomes the integer 42 |
| MaterialsStore.SortByTime | save-materials.php:98-100 | sorting by modification time keeps the same backups and puts them oldest first |
| MaterialsStore.InsertByTime | save-materials.php:98-100 | inserting a backup after every one no newer keeps the list sorted and adds exactly that backup |
| MaterialsStore.AppendNewest | save-materials.php:98-100 | a backup no older than every listed one can go at the end of a sorted list |
| MaterialsStore.PruneBackups | save-materials.php:95-105 | with more than ten backups all but the newest ten are deleted, none deleted is newer than one kept, and none is lost or made up |
| MaterialsStore.CreateBackup | save-materials.php:86-108 | without a database there is nothing to back up; a failed copy fails; otherwise ten backups at most are kept, every listed backup is either kept or deleted, and no deleted one is newer than a kept one |
| MaterialsStore.EmptyDatabase | save-materials.php:116-128 | the default database has no materials, is version 1.0, stamped now, with three categories of distinct keys |
| MaterialsStore.HandleGetRequest | save-materials.php:113-153 | a missing file gives the default database and a readable one its stored data; an unreadable file fails exactly with "Failed to read database file" and one that is not JSON exactly with "Invalid JSON in database file" |
| MaterialsStore.HandlePostRequest | save-materials.php:158-237 | for a submission with distinct keys, as any decoded PHP array has: no body, a body that is not JSON and an invalid submission each fail with their message; for a valid one a failed backup copy gives "Failed to create backup before saving", then a failed write "Failed to write temporary file", then a failed rename "Failed to finalize save operation"; the database is saved exactly when all pass, reporting the material count |

## Left out

General:
- The 3D scene graph is left out because these are foreign library calls. This covers meshes, materials, picking, gizmos, camera animation, the GUI and the renderers. What the model needs from a pick or a mesh lookup is passed in as a parameter.
- CSG subtract, intersect and union, and the geometry rewriting around them, are left out: they are a foreign library and float geometry. This covers `executeCut` in the cut tool, `executeCut` in the saw, the drill press's `drillAllHoles`, the router's cut and the scroll saw's cut.
- The cut tool's `executeCut` splices the two new pieces into `workBenchParts`. That list update is left out with the CSG that produces the pieces. The registry side of a cut is modelled in `partmanager.dfy`.
- Trigonometry and square roots are not modelled:
  - cosines and sines enter as parameters: the camera's `Turn`, a line's resize direction;
  - distances are compared as squares;
  - a root that is really needed, such as a circle's radius, is passed in.
- Projection, ray-plane intersection, quaternions, world/local conversion, the router's profile generators and the dovetail and sign angles are left out because they are float geometry.
- The DOM is left out as UI. This covers modals, HTML strings, event-listener wiring, notifications and the on-screen text of `toFixed` values, except the transform modal's input text, which Confirm reads back and which the model keeps. It is also why the model has no cursor changes beyond the cursor names the code chooses.
- I/O, the clock and generated ids are parameters or left out. This covers `localStorage`, `fetch`, `FileReader`, the PHP file reads and writes, `upload-material-image.php`, `server.js`, `Date.now()` and random ids.
- JavaScript numbers are exact reals. Rounding error of doubles is not modelled. NaN and the infinities are modelled only where the source can produce them from user input ("0/0").
- The other Python scripts in the repository rewrite files once with regular expressions. They are not part of this model.
- The near-duplicate copies of the modelled files are not part of this model. This covers the other entry points, grids, cameras, join tool and router files, the page templates and the extension's webview script.

By module:
- Measurement: negative lengths are formatted as the code does, but no read-back is claimed for them.
- SawTool.SawToolState.Activate: the source returns `undefined` from one path. The model returns a boolean.
- SawTool: the second `deactivate` at `modules/SawToolSystem.js:1408` is the one that takes effect, and it touches no modelled state. The projection of the mouse onto the cut line is a parameter.
- PartRegistry: part records omit `modifications`, `routedEdges`, `materialId`, `materialName` and the mesh reference. Position and rotation are taken whole, so the `|| 0` fallback of a NaN coordinate is not modelled. Persistence is left out. Parts are values, so two references to one part object are not modelled.
- JoinTool: the board object is folded into a flag. The hover visuals are left out. After a collision the tool stays in the second-snap step, as the code does.
- DrillPress: the earlier `deactivate` (`modules/DrillPressSystem.js:159`) is shadowed by the later one at line 1090, which is the one modelled. The hole cylinders themselves are left out; only their heights are modelled.
- ScrollCutting:
  - left out: tangent handles, `updatePathFromBezierHandle`, `addSymmetricalPoints` (called but not defined in the file), the orthographic camera, the ruler drawing and the cut;
  - also left out: control-point selection, `finishControlPointDrag` and `deselectControlPoint`, which are highlight and UI code;
  - the smoothing level is the constant 0.7, so its level-0 branch never runs and is not modelled.
- RouterBit:
  - faces with five or more corners give only their first triangle, as the code does;
  - face indices are not checked against the vertex count;
  - NaN coordinates are kept;
  - `detectEdgeFromPick`'s geometry is a parameter.
- Tools: extrude, rotate, the tool dispatch, highlights, names and ids are left out. The grid snap is applied by the caller.
- Drawing: only `formatDimensionValue` and `hitTest` are modelled from this file.
- Grid:
  - left out: the orthographic and perspective grid renderers and the 3D grid meshes;
  - the spacing labels keep the backslash that the template literal writes before the inch mark;
  - a NaN or infinite spacing in `snapToGrid` is not modelled.
- Camera: the 3D camera sync, panning, rotation and the render callback are left out.
- SketchEditor.SegmentDistanceIsLeast: a segment of zero squared length is only treated as a point when its ends are equal. In floating point two distinct ends can have a squared length that underflows to 0.
- SketchEditor:
  - the header of the `switch` in `updateRectangleFromHandle` is missing from the source text. It is modelled as the evident switch on the handle type;
  - `updateCircleFromHandle` is left out;
  - the line-width tolerance is a parameter.
- TransformEditor:
  - confirming a scale modal throws in the source (it has no value field), so the model treats it as a no-op;
  - a position or rotation modal for the uniform axis throws before it opens, so the model leaves it closed;
  - the body of `createGhostMesh` is not in the source; the ghost is assumed to start with the mesh's scaling;
  - a NaN typed into the modal is not modelled.
- ChatPanel: `fetch`, webview messages, the chat log and the UI state are left out. JSON decoding of an event is a parameter.
- ChatPanel.ReplyStream.OnData: the chunk is already decoded text. The source decodes each network chunk on its own (`chunk.toString('utf8')`), so a multi-byte UTF-8 character split between two chunks becomes U+FFFD there. ChatPanel.ChunksFrameAsOne and ChatPanel.ChunksActAsOne therefore cover only cuts between characters.
- ChatPanel.LastChars: counts characters, where `slice(-300)` counts UTF-16 code units; the two differ for text outside the Basic Multilingual Plane.
- ProjectStore:
  - a corrupt database file and request bodies that are not arrays are not modelled;
  - the debug details of a failed write are left out.
- MaterialsStore:
  - `usort` is modelled as a stable sort;
  - keys at `PHP_INT_MAX` and `material` entries that are not arrays are not modelled;
  - the debug details and the logs are left out;
  - the file copy and the deletions are left out; the model computes which backups are kept and which are removed.

## Findings

| source | as written | input that shows it | evidently intended | confidence | as-written member | corrected member |
|---|---|---|---|---|---|---|
| modules/CutToolSystem_backup_20250726_162737.js:1289-1295 | the optional whole-number group of the fraction pattern may take the first digit of an unspaced numerator | "15/16" is read as 1 + 5/16 = 1.3125 | an unspaced "N/D" is the fraction N/D (0.9375); a whole part needs a space before the fraction | high; not executed | Measurement.AsWrittenMisreadsTwoDigitNumerator | Measurement.IntendedReadsFraction |
| modules/SawToolSystem.js:1185-1202 | the nearest sixteenth is looked up among 0/16 to 15/16 only, so the round-up branch, which needs the match 0, never runs when the fraction is near the next inch | 2.99 is shown as 2 15/16" | 3", the nearest sixteenth carried into the next inch | high; not executed | SawTool.AsWrittenMissesNextInch | SawTool.ShownIsNearest |
| tools.js:786-797 | `includes('r')` and `includes('t')` also match the letters of the word "resize" | the handle "resize-b" gets "nwse-resize", "resize-t" gets "nesw-resize" and "resize-bl" gets "nwse-resize" | side handles get the axis cursors, and the bottom-left corner gets "nesw-resize" | high; not executed | Tools.SideHandlesGetDiagonalCursors | Tools.CursorFor |
| replace_modal.py:116-128 | cancel restores position or rotation only, so a cancelled scale modal keeps the dragged scale | scale the mesh by dragging, then press Cancel | the scale goes back to its value when the drag started | medium; not executed | TransformEditor.CancelKeepsDraggedScaleAsWritten | TransformEditor.CancelledPose |
| modules/CutToolSystem_backup_20250726_162737.js:1228-1252 | "0/0" parses to NaN, and NaN fails both range comparisons, so it is never rejected | piece size "0/0" | only a number strictly between 0 and the cut dimension is accepted | high; not executed | CutTool.PreciseCutAcceptsNaN | CutTool.PreciseCutPosition |
| modules/PlaneToolSystem.js:363-369 | the same NaN gets through the thickness check | final thickness "0/0" | only a number strictly between 0 and the original thickness is accepted | high; not executed | PlaneTool.PlaneAcceptsNaN | PlaneTool.AcceptedThickness |
| modules/DrillPressSystem.js:1034-1036 | the conditional operator binds looser than the logical or, so the test reads as (marker depth, or the current depth equal to "through"), and every marker with a depth of its own is called "through" | a 1/4" marker with depth "0.5" is summarised as `0.25" through` | `0.25" 0.5" deep`, matching the hole actually cut | high; not executed | DrillPress.SummaryCallsPartialHolesThrough | DrillPress.SummaryMatchesCylinder |
| modules/DrillPressSystem.js:222-225 | `if (this.selectedSurface)` treats face index 0 as "no surface chosen" | a board chosen through face 0: a later click on one of its markers does not select it | any chosen face counts, 0 included | medium; not executed | DrillPress.FirstFaceCountsAsNoSurface | DrillPress.DrillPressState.HandleSurfaceClick |
| modules/ScrollCuttingSystem.js:222-234 | a control point keeps the index it had in the original path, but the rebuilt path is shorter, so the test on `smoothedPath[pathIndex]` fails | four control points, one of them created at path index 25 or later: after the first rebuild (25 points) dragging it changes nothing | the path is rebuilt through the dragged point | medium; not executed | ScrollCutting.DragAfterRebuildIsIgnored | ScrollCutting.DraggedPath |
| tools.js:214-221 | the call to clear the selection is inside a comment, so the previously selected object keeps its `selected` flag | select one object, then click another | only the clicked object is flagged as selected | high; not executed | Tools.StaleFlagAsWritten | Tools.SelectionFlags |
| src/modules/drawing_backup.js:527-569 | the inches are floored before the sixteenths are rounded, and a rounded 16/16 is dropped instead of carried | 2.99 inches is labelled 2" | 3" | high; not executed | Drawing.AlmostThreeInches | Drawing.DimensionTextIsNearest |
| src/modules/camera.js:162-190 | the zoom anchors the world x on screen row 0 and the world y on column 0, and scales by the new zoom over the old one instead of its inverse | 800 by 600 view at 100 px per inch, mouse at (500, 300), zoom to 110: the point under the mouse moves to x = 521 | the world point under the mouse stays under the mouse | high; not executed | Camera.AsWrittenZoomDrifts | Camera.ZoomKeepsPointUnderMouse |
| tools.js:606-611 | `handleCircleDown` flags the clicked object and makes it the selection without clearing the old flags | select one object, switch to the circle tool, click another object: both stay flagged | only the clicked object is flagged, as `handleLineDown` does it | high; not executed | Tools.StaleFlagAsWritten | Tools.ToolManager.HandleCircleDown |
| modules/DrillPressSystem.js:106-114 | the `mousemove` listener calls `handleDrag` only when `isDragging` is already true, and only `handleDrag` sets it, so a drag never starts | press on a placed marker of the chosen board and move the mouse 50 px: the marker does not move | the armed press becomes a drag and the marker follows the mouse | high; not executed | DrillPress.PressThenMoveAsWritten | DrillPress.PressThenMove |
| modules/RouterBitSystem_OLD.js:1489-1504 | each hover builds a new edge object and `includes` compares objects, so a selected edge hovered again is not recognised | select an edge, move the mouse along it, click again: the selection holds that edge twice | the second click deselects the edge | medium; not executed | RouterBit.ReclickSelectsTwinAsWritten | RouterBit.ToggledKeepsNoTwins |
