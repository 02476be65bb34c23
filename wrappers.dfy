/** Small failure-carrying datatypes shared by the model. */
module Wrappers {

  /** A value that may be absent: Python's `Optional[...]` / `None`. */
  datatype Option<+T> = None | Some(value: T)

  /** The outcome of a validation: the validated value, or the errors found. */
  datatype Result<+R, +E> = Success(value: R) | Failure(error: E)
}
