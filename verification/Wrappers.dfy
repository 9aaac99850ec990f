/** The two result shapes the other modules share. */
module Wrappers {

  /** A nil-able Go value: a pointer, a file handle or a missing map entry. */
  datatype Option<+T> = None | Some(value: T)

  /** A Go `(value, error)` pair. */
  datatype Result<+T, +E> = Ok(value: T) | Err(error: E)
}
