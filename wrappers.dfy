/** Option and Result, used where the source has `null` slots and thrown errors. */
module Wrappers {

  /** A slot that may be `null`. */
  datatype Option<+T> = None | Some(value: T)

  /** The outcome of an operation that may throw. */
  datatype Result<+T, +E> = Ok(value: T) | Err(error: E)
}
