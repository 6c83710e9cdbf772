/** Failure-carrying values used across the model. */
module Wrappers {

  /** A value that may be missing; `None` stands for the NaN placeholder column entries. */
  datatype Option<+T> = None | Some(value: T)

  /** The outcome of a step that either produces a value or aborts with an error. */
  datatype Result<+T, +E> = Success(value: T) | Failure(error: E)
}
