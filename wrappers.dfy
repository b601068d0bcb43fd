/** Optional values and results, standing for `null`/`undefined` and for thrown errors. */
module Wrappers {

  /** A value that may be missing (`null` or `undefined` in the source). */
  datatype Option<+T> = None | Some(value: T)

  /** A value, or the message of the error that was thrown instead of returning it. */
  datatype Result<+T, +E> = Success(value: T) | Failure(error: E)
}
