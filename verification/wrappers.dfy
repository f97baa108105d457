/** Small failure-compatible wrappers shared by the rest of the model. */
module Wrappers {

  /** A value that may be absent, such as an unset environment variable. */
  datatype Option<+T> = None | Some(value: T)

  /** The outcome of an operation that either returns a value or raises. */
  datatype Result<+T, +E> = Ok(value: T) | Err(error: E)
}
