/** Failure-compatible wrappers shared by the model. */
module Wrappers {

  /** A value that may be absent (Python's `Optional`). */
  datatype Option<+T> = None | Some(value: T)

  /** Either a value or the error that aborted the computation. */
  datatype Result<+T, +E> = Ok(value: T) | Err(error: E)
}
