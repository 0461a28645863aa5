/** Failure-compatible wrappers used across the model: an optional value (a
    JavaScript property that may be `undefined`) and a result that is either a
    value or the error the service would throw. */
module Wrappers {

  datatype Option<+T> = None | Some(value: T) {

    /** The value if present, otherwise the given default. */
    function GetOr(default: T): T {
      match this
      case Some(v) => v
      case None => default
    }
  }

  datatype Result<+T, +E> = Success(value: T) | Failure(error: E)
}
