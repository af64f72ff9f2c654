/** Optional values and error returns shared by every module. */
module Prelude {

  /** Python's `T | None`. */
  datatype Option<+T> = None | Some(value: T)

  /** The outcome of a call that may raise. */
  datatype Result<+T, +E> = Ok(value: T) | Err(error: E)
}
