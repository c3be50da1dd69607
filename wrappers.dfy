/** Failure-carrying results shared by the modules of this project. */
module Wrappers {

  /** A value that may be absent (a null pointer, a regular expression that did not match). */
  datatype Option<+T> = None | Some(value: T)

  /** A value, or the exception the operation throws instead of returning one. */
  datatype Result<+T, +E> = Success(value: T) | Failure(error: E)

  /** Completion of an operation that returns nothing: normally, or by throwing. */
  datatype Outcome<+E> = Pass | Fail(error: E)
}
