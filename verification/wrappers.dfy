/** Option and Result types used across the model. */
module Wrappers {

  /** Some value, or nothing (a NULL pointer, an undefined outcome). */
  datatype Option<+T> = None | Some(value: T)

  /** A value, or the error the source would raise instead of returning. */
  datatype Result<+R, +E> = Success(value: R) | Failure(error: E)
}
