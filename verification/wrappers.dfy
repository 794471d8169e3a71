/** Failure-carrying wrappers shared by the whole model. */
module Wrappers {

  /** A value that may be absent (Go's nil pointer or missing map entry). */
  datatype Option<+T> = None | Some(value: T)

  /** A value or an error. */
  datatype Result<+T, +E> = Ok(value: T) | Err(error: E)

  /** Go's `(value, error)` return pair with the error reduced to whether it
      is nil. Unlike `Result`, the value is present in both cases, because the
      Go callers that discard the error go on to use it. */
  datatype Checked<+T> = Checked(value: T, ok: bool)
}
