/** Option and Result, the two failure-carrying shapes the rest of the model returns. */
module Wrappers {

  /** A value that may be absent: a row that was not found, a `null` threshold, a NaN parse. */
  datatype Option<+T> = None | Some(value: T) {
    function GetOr(default: T): T {
      match this
      case Some(v) => v
      case None => default
    }
  }

  /** The outcome of an operation that either succeeds with a value or fails with an error. */
  datatype Result<+R, +E> = Ok(value: R) | Err(error: E)
}
