/** Option and Result, the two failure-carrying types every script module uses. */
module Wrappers {

  /** Python's `None` or a present value. */
  datatype Option<+T> = None | Some(value: T) {
    function GetOr(default: T): T {
      match this
      case Some(v) => v
      case None => default
    }
  }

  /** A value, or the exception a Python function would have raised. */
  datatype Result<+T, +E> = Ok(value: T) | Err(error: E)
}
