/** Option and Result values shared by every module of the model. */
module Wrappers {

  /** A value that JavaScript may leave `undefined` or `null` (None). */
  datatype Option<+T> = None | Some(value: T)

  /** The outcome of an operation that may throw: Err carries the error message. */
  datatype Result<+T, +E> = Ok(value: T) | Err(error: E)
}
