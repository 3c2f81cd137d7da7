/** The optional-value and result datatypes shared by the model's modules. */
module Wrappers {

  /** A value that may be absent: JavaScript's `undefined`, `null` or an empty object. */
  datatype Option<+T> = None | Some(value: T)

  /** The outcome of an operation that may throw. */
  datatype Result<+R, +E> = Success(value: R) | Failure(error: E)
}
