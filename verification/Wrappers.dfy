/** Failure-compatible wrappers shared by the whole model. */
module Wrappers {

  /** A value that may be absent: JavaScript's `undefined` or `NaN` where the source can produce one. */
  datatype Option<+T> = None | Some(value: T)

  /** The outcome of a handler: a success value or a failure kind. */
  datatype Result<+T, +E> = Ok(value: T) | Err(error: E)
}
