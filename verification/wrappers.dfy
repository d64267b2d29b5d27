/** Plain optional-value and result datatypes used across the model. */
module Wrappers {

  /** A value that may be absent: a missing spreadsheet cell is `None`. */
  datatype Option<+T> = None | Some(value: T)

  /** Either a successful value or an error value. */
  datatype Result<+R, +E> = Success(value: R) | Failure(error: E)
}
