/** Failure-aware result types used by the order-book operations. */
module Wrappers {

  datatype Option<+T> = None | Some(value: T)

  /** A value, or the error that prevented computing it. */
  datatype Result<+T, +E> = Success(value: T) | Failure(error: E)

  /** Success without a value, or an error. */
  datatype Outcome<+E> = Pass | Fail(error: E)
}
