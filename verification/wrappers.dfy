/** Optional values and fallible results used across the model. */
module Wrappers {

  /** A value that may be absent (Python's `False`/`None` returns). */
  datatype Option<+T> = None | Some(value: T)

  /** A computation that either yields a value or stops with an error. */
  datatype Result<+T, +E> = Success(value: T) | Failure(error: E)
}
