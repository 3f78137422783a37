/** Option and Result, the usual failure-carrying wrappers. */
module Wrappers {

  /** A value that may be absent (Java's nullable reference). */
  datatype Option<+T> = None | Some(value: T)

  /** A value, or the error that an operation raised instead. */
  datatype Result<+R, +E> = Success(value: R) | Failure(error: E)
}
