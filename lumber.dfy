/**
 * The pieces of a workbench part record that several tools share: its
 * dimensions in inches and the entries of its processing history.
 */
module Lumber {
  import opened Wrappers

  /** A board's length, width and thickness, in inches. */
  datatype Dimensions = Dimensions(length: real, width: real, thickness: real)

  /** One entry of a part's `processingHistory`. */
  datatype HistoryEntry = HistoryEntry(operation: string, timestamp: string, details: string)

  /** `processingHistory || []`. */
  function ProcessingHistory(h: Option<seq<HistoryEntry>>): seq<HistoryEntry>
  {
    if h.Some? then h.value else []
  }

  /** Centimetres per inch: the scene works in centimetres, the records in inches. */
  const CmPerInch: real := 2.54
}
