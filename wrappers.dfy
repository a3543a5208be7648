/** Failure-carrying wrappers shared by the service model. */
module Wrappers {

  /** A value that may be absent: Go's nil pointer or a missing error. */
  datatype Option<+T> = None | Some(value: T)

  /** A computation that either produced a value or failed with an error. */
  datatype Result<+T, +E> = Ok(value: T) | Err(error: E)
}
