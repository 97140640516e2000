/** The optional-value wrapper used for the dataset's nullable cells. */
module Wrappers {

  /** A value that may be missing (a NaN cell of the spreadsheet). */
  datatype Option<+T> = None | Some(value: T)
}
