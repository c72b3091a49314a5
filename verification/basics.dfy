/** Optional values and error results, used where the app returns `null`
    or throws. */
module Basics {

  /** A value that may be absent; `None` stands for the app's `null`. */
  datatype Option<+T> = None | Some(value: T)

  /** The outcome of an operation that can fail with an error of type `E`. */
  datatype Result<+R, +E> = Success(value: R) | Failure(error: E)
}
