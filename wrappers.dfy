/** Optional values and results with an error message: the model's stand-ins for
    Python's `None` and for exceptions that a caller sees. */
module Wrappers {

  datatype Option<+T> = None | Some(value: T) {
    function GetOr(default: T): T {
      match this
      case Some(v) => v
      case None => default
    }
  }

  /** A value, or the message of the exception raised instead of returning one. */
  datatype Result<+T> = Success(value: T) | Failure(error: string)
}
