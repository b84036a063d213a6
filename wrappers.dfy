/** Optional values and results, used for JavaScript's `undefined`/`null` and for failing operations. */
module Wrappers {

  /** `None` stands for a value that is `undefined` or `null`. */
  datatype Option<+T> = None | Some(value: T) {
    function GetOr(default: T): T {
      match this
      case Some(v) => v
      case None => default
    }
  }

  datatype Result<+R, +E> = Success(value: R) | Failure(error: E)
}
