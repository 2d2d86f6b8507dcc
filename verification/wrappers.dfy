/** Failure-carrying datatypes shared by the rest of the model. */
module Wrappers {

  /** A value that may be absent (Python's `None`). */
  datatype Option<+T> = None | Some(value: T)

  /** Either a value or an error description. */
  datatype Result<+R, +E> = Success(value: R) | Failure(error: E)
}
