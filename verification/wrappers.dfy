/** Option and Result, the failure-carrying values used across the model. */
module Wrappers {

  /** A value that may be absent: a pandas cell holding NaN, a label that does not parse. */
  datatype Option<+T> = None | Some(value: T)

  /** The outcome of an operation that Python could abort with an exception. */
  datatype Result<+T, +E> = Success(value: T) | Failure(error: E)
}
