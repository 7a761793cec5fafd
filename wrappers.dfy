/** Option and Result, the shapes used for JavaScript's `null` / `undefined`
    returns and for the errors the source throws. */
module Wrappers {

  datatype Option<+T> = None | Some(value: T) {
    /** The value, or a default when there is none (JavaScript's `a || b` on an optional). */
    function GetOr(default: T): T {
      match this
      case Some(v) => v
      case None => default
    }
  }

  datatype Result<+T> = Success(value: T) | Failure(message: string)
}
