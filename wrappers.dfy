/** Failure-carrying return values, standing in for Go's `(value, error)` pairs. */
module Wrappers {

  /** A value, or the absence of one (an error whose details do not matter). */
  datatype Option<+T> = None | Some(value: T)

  /** A value, or an error that says which stage went wrong. */
  datatype Result<+T, +E> = Success(value: T) | Failure(error: E)
}
