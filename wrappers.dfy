/** Option and Result values used for the command's error paths. */
module Wrappers {

  datatype Option<+T> = None | Some(value: T)

  /** A computation that either yields a value or raises the exception `error`. */
  datatype Result<+T, +E> = Ok(value: T) | Err(error: E)
}
