/** Option and Result, the failure-carrying values used across the model. */
module Wrappers {

  datatype Option<+T> = None | Some(value: T)

  /** The outcome of a call that can throw: its value, or the error it throws. */
  datatype Result<+T, +R> = Success(value: T) | Failure(error: R)
}
