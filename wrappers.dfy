/** Optional values and success/failure results shared by the whole model. */
module Wrappers {

  /** A value that may be absent (JavaScript `null`/`undefined`). */
  datatype Option<+T> = None | Some(value: T) {
    function GetOr(default: T): T
    {
      match this
      case Some(v) => v
      case None => default
    }
  }

  /** The outcome of a request handler: the accepted record or the error payload sent back. */
  datatype Result<+T, +E> = Ok(value: T) | Err(error: E)
}
