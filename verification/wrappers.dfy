/** Optional values and fallible results, used for the optional arguments of
    `translate` and for the error it raises on a missing key. */
module Wrappers {

  /** A value that may be absent (a JavaScript argument left `undefined`). */
  datatype Option<+T> = None | Some(value: T)

  /** The outcome of an operation that may throw. */
  datatype Result<+T, +E> = Success(value: T) | Failure(error: E)
}
