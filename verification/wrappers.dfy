/** Failure-carrying datatypes used in place of Python's `None` and exceptions. */
module Wrappers {

  /** A value that may be absent: Python's `Optional[...]`. */
  datatype Option<+T> = None | Some(value: T)

  /** The outcome of an operation that may raise: a value or the error it raised. */
  datatype Result<+R, +E> = Success(value: R) | Failure(error: E)
}
