/** The two failure-carrying shapes used throughout the model: an optional
    value (a JavaScript `null`/`undefined` answer) and a result that is either
    a value or an error message (a resolved or a rejected promise). */
module Wrappers {

  datatype Option<+T> = None | Some(value: T) {
    function GetOr(default: T): T {
      match this
      case Some(v) => v
      case None => default
    }
  }

  datatype Result<+T, +E> = Success(value: T) | Failure(error: E)
}
