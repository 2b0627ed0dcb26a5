/** Rows of `run-summary.csv`, with the columns that the comparison and the
    scheduler read back. */
module SummaryTable {
  import opened Wrappers

  /** `quality` is `None` when the evaluation did not run. */
  datatype SummaryRow = SummaryRow(
    runDate: string, condition: string, promptId: string, model: string,
    terminalReason: string, measurable: string, quality: Option<real>,
    processed: real, cost: real, tax: real)
}
