/** Option and Result values used in place of Go's nil pointers and (value, error) pairs. */
module Wrappers {

  datatype Option<+T> = None | Some(value: T)

  /** A Go `(value, err)` pair where exactly one side is meaningful. Errors are their messages. */
  datatype Result<+T> = Ok(value: T) | Err(error: string)
}
