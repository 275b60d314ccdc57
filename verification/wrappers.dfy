/** Failure-compatible wrappers shared by the other modules. */
module Wrappers {

  /** A value that may be missing: Python's `None` versus a present value. */
  datatype Option<T> = None | Some(value: T)

  /** The outcome of an operation that either produces a value or stops with an error. */
  datatype Result<T, E> = Success(value: T) | Failure(error: E)
}
