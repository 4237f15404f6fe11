/** Optional values and results with an error, as used throughout the model. */
module Wrappers {

  /** A value that may be absent: JavaScript's `null`/`undefined` is `None`. */
  datatype Option<+T> = None | Some(value: T)

  /** The outcome of an evaluation that may throw. */
  datatype Result<+R, +E> = Success(value: R) | Failure(error: E)
}
