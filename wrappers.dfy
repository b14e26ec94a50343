/** Optional values and results, as the rule engine's `dict.get` lookups and
    error returns need them. */
module Wrappers {

  /** A value that may be absent: `dict.get(key)` returning `None`. */
  datatype Option<+T> = None | Some(value: T) {

    /** `dict.get(key, default)`: the value, or the default when absent. */
    function GetOr(default: T): T {
      match this
      case Some(v) => v
      case None => default
    }
  }

  /** A computation that either produces a value or fails with an error. */
  datatype Result<+R, +E> = Success(value: R) | Failure(error: E)
}
