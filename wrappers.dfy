/** Failure-compatible wrappers used across the model. */
module Wrappers {

  datatype Option<+T> = None | Some(value: T)

  datatype Result<+R, +E> = Success(value: R) | Failure(error: E)

  /** Outcome of an event handler: it either ran to the end or threw. */
  datatype Outcome<+E> = Pass | Fail(error: E)
}
