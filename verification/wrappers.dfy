/** Shared by the model: an optional value and a value-or-error result,
    standing in for JavaScript's `undefined` and for a thrown `Error`. */
module Wrappers {

  /** A value that may be absent (`undefined` in the source). */
  datatype Option<+T> = None | Some(value: T)

  /** Either a returned value or a thrown error. */
  datatype Result<+R, +E> = Success(value: R) | Failure(error: E)
}
