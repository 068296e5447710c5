/** Optional values and success/failure results, standing in for `undefined`/`null` and for thrown errors. */
module Wrappers {

  /** A value that may be absent (`undefined` or `null` in the source). */
  datatype Option<+T> = None | Some(value: T)

  /** The outcome of a call that may throw: the returned value, or the error's message. */
  datatype Result<+T, +E> = Success(value: T) | Failure(error: E)
}
