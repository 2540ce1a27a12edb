/** Option and Result, for values that may be absent and computations that may abort. */
module Wrappers {

  datatype Option<+T> = None | Some(value: T) {

    /** The value inside Some, or a default. */
    function GetOr(default: T): T {
      match this
      case Some(v) => v
      case None => default
    }
  }

  datatype Result<+T, +E> = Ok(value: T) | Err(error: E)
}
