/** Optional values and outcomes of calls that can fail. */
module Wrappers {

  /** A value that may be absent (`null` or `undefined` in the source). */
  datatype Option<+T> = None | Some(value: T)

  /** The outcome of a call that either resolves with a value or throws. */
  datatype Result<+R, +E> = Ok(value: R) | Err(error: E)
}
