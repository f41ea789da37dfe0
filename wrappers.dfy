/** Optional values and the results of operations that can fail with a typed error. */
module Wrappers {

  datatype Option<+T> = None | Some(value: T) {
    /** The value, or `default` when there is none (JavaScript's `x ?? default`). */
    function GetOr(default: T): T {
      match this
      case Some(v) => v
      case None => default
    }
  }

  /** The outcome of a service call: the value it returns or the error it throws. */
  datatype Result<+T, +E> = Ok(value: T) | Err(error: E)
}
