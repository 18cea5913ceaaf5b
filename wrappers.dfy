/** Failure-carrying wrappers shared by the other modules. */
module Wrappers {

  /** A value that may be absent (Go's nil map, a read that produced nothing). */
  datatype Option<+T> = None | Some(value: T)

  /** The outcome of a call that returns a value or an error, as Go's `(T, error)` pair. */
  datatype Result<+T, +E> = Ok(value: T) | Err(error: E)
}
