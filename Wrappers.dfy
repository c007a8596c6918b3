/** Optional values and results with an error, as used by the word-list store
    and the practice engine. */
module Wrappers {

  /** A value that may be absent: `undefined`/`null` in the application. */
  datatype Option<+T> = None | Some(value: T)

  /** The outcome of an operation that may be rejected. */
  datatype Result<+R, +E> = Success(value: R) | Failure(error: E)
}
