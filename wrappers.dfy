/** Optional values and results with an error, used wherever the source returns
    `None`, raises, or answers with an error value. */
module Wrappers {

  datatype Option<+T> = None | Some(value: T) {
    /** `value` when present, otherwise `default` (Python's `x if x is not None else default`). */
    function GetOr(default: T): T {
      match this
      case Some(v) => v
      case None => default
    }
  }

  datatype Result<+T, +E> = Success(value: T) | Failure(error: E)
}
