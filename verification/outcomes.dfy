/** Option and Result values standing in for Go's nil pointers, optional
    Terraform attributes and `(value, error)` returns. */
module Outcomes {

  datatype Option<+T> = None | Some(value: T)

  /** A Go `(value, error)` pair: either a value or the error's text. */
  datatype Result<+T> = Ok(value: T) | Err(error: string)
}
