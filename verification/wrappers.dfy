/** Values that stand for the error returns of the modelled services. */
module Wrappers {
  /** A value that may be absent: a nil pointer, or a "not found" error. */
  datatype Option<+T> = None | Some(value: T)

  /** The outcome of a call that either returns a value or reports an error. */
  datatype Result<+T, +E> = Ok(value: T) | Err(error: E)
}
