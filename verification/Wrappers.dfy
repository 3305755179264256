/** Optional values and results, shared by every module. */
module Wrappers {
  datatype Option<+T> = None | Some(value: T)

  /** A value, or the error the source would have thrown instead. */
  datatype Result<+T, +E> = Ok(value: T) | Err(error: E)
}
