/** The refund request row as the provider jobs see it. */
module RefundRow {
  import opened Wrappers
  import opened CreditBooks

  /** `reference` and `marked` are the two attempt markers; the amount is in minor units. */
  datatype Row = Row(status: Status, amount: Option<nat>, reference: bool, marked: bool)

  /** A provider call for this request may have happened. */
  predicate Attempted(row: Row) { row.reference || row.marked }
}
