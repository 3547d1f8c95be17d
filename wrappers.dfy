/** Option and Result values shared by every module of the model. */
module Wrappers {

  /** A value that may be missing (`null` / `undefined` in the application). */
  datatype Option<+T> = None | Some(value: T)

  /** A computation that succeeded with a value or failed with an error. */
  datatype Result<+R, +E> = Success(value: R) | Failure(error: E)
}
