/** Option and Result, the failure-carrying types used throughout the model. */
module Wrappers {

  /** A value that may be absent: a nullable column or a query's `first()`. */
  datatype Option<+T> = None | Some(value: T) {

    /** The value, or `default` when absent: PHP's `$x ?? $default`. */
    function GetOr(default: T): T {
      match this
      case Some(v) => v
      case None => default
    }
  }

  /** The outcome of an operation that either succeeds or reports an error. */
  datatype Result<+T, +E> = Ok(value: T) | Err(error: E)
}
