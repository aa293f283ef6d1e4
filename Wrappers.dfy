/** Option and Result: a value that may be absent, and an outcome that may be an
    exception. Python's `dict.get(key, default)` and raised exceptions are modelled
    with these. */
module Wrappers {

  datatype Option<+T> = None | Some(value: T) {
    /** The value, or `default` when absent (Python's `dict.get(key, default)`). */
    function GetOr(default: T): T {
      match this
      case Some(v) => v
      case None => default
    }
  }

  /** The outcome of a step that may raise: `Failure` carries the exception's message. */
  datatype Result<+R> = Success(value: R) | Failure(error: string)
}
