/** Optional values and results with an error, as used by the rest of the model. */
module Wrappers {

  /** A value that may be missing (a cell that did not coerce to a number is `None`). */
  datatype Option<+T> = None | Some(value: T)

  /** The outcome of an operation that can raise one of the errors `E`. */
  datatype Result<+R, +E> = Success(value: R) | Failure(error: E)
}
