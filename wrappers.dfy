/** Optional values and results with an error, as the rest of the model uses them. */
module Wrappers {

  /** A value that may be missing: JavaScript's `null` or `undefined`. */
  datatype Option<+T> = None | Some(value: T)

  /** The outcome of an operation that either succeeds with a value or fails with an error. */
  datatype Result<+T, +E> = Ok(value: T) | Err(error: E)
}
