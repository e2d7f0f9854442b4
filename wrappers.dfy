/** Failure-compatible wrappers shared by the other modules. */
module Wrappers {

  /** A value that may be absent; JavaScript's `NaN` and `undefined` become `None`. */
  datatype Option<+T> = None | Some(value: T)

  /** A value or the reason it could not be produced. */
  datatype Result<+R, +E> = Success(value: R) | Failure(error: E)
}
