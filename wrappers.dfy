/** Option and Result, used for the source's `None` values and raised exceptions. */
module Wrappers {

  datatype Option<+T> = None | Some(value: T) {
    function GetOr(default: T): T {
      match this
      case Some(v) => v
      case None => default
    }
  }

  /** A computation that either returns a value or raises the named Python exception. */
  datatype Result<+T> = Ok(value: T) | Err(error: string)
}
