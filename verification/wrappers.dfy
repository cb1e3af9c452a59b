/** The Option and Result types used throughout the model. */
module Wrappers {

  /** Python's `X | None`: a value that may be absent. */
  datatype Option<+T> = None | Some(value: T)

  /** A computation that either produced a value or raised an error. */
  datatype Result<+R, +E> = Ok(value: R) | Err(error: E)
}
