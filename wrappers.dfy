/** Success/failure wrappers used for the Go code's `(value, error)` returns. */
module Wrappers {

  datatype Option<+T> = None | Some(value: T)

  /** A Go `(T, error)` pair in which exactly one side is meaningful;
      the error is its `Error()` text. */
  datatype Result<+T> = Ok(value: T) | Err(error: string)
}
