/** Failure-carrying datatypes used by the rest of the model. */
module Wrappers {

  /** A value that may be absent, as Go's `(v, err)` pairs are when only
      success or failure matters. */
  datatype Option<+T> = None | Some(value: T)

  /** A value or an error. */
  datatype Result<+R, +E> = Success(value: R) | Failure(error: E)
}
