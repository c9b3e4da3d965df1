/** Failure-compatible wrappers shared by the other modules. */
module Wrappers {

  datatype Option<+T> = None | Some(value: T)

  /** The outcome of an operation that can throw: a value, or the thrown error. */
  datatype Result<+R, +E> = Success(value: R) | Failure(error: E)
}
