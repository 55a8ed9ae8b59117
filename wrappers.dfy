/** Nullable values and thrown exceptions of the Kotlin code, as values. */
module Wrappers {

  /** A Kotlin nullable `T?`: `None` stands for `null`. */
  datatype Option<+T> = None | Some(value: T)

  /** The outcome of an operation that either returns a value or throws. */
  datatype Result<+R, +E> = Success(value: R) | Failure(error: E)
}
