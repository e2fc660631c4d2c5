/** Failure-carrying return types shared by the modules of this model. */
module Wrappers {

  /** A value that may be missing: a JSON `null` or an absent document field. */
  datatype Option<+T> = None | Some(value: T)

  /** The outcome of an operation that can stop with an error message. */
  datatype Result<+T, +E> = Success(value: T) | Failure(error: E)
}
