/** Option and Result, used for the error paths of the model. */
module Wrappers {

  datatype Option<+T> = None | Some(value: T)

  /** A Go `(value, error)` return: either the value or the error's text. */
  datatype Result<+T> = Ok(value: T) | Err(error: string)
}
