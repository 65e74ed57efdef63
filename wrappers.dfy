/** Failure-carrying results shared by every module of the model. */
module Wrappers {

  /** A value or nothing; Python's `None` where the source returns an optional object. */
  datatype Option<+T> = None | Some(value: T)

  /** A value or an error; the error is what the source raises. */
  datatype Result<+T, +E> = Ok(value: T) | Err(error: E)

  /** Django REST framework's `ValidationError({field: message})`. */
  datatype ValidationError = ValidationError(field: string, message: string)
}
