/** Absent-or-present values and success-or-error results, standing for
    JavaScript's `null`/`undefined` fields and the application's early-return
    error paths. */
module Wrappers {

  datatype Option<+T> = None | Some(value: T) {
    /** The value, or `default` when absent: JavaScript's `x ?? default`, which
        agrees with `x || default` on strings when the default is `""`. */
    function GetOr(default: T): T {
      match this
      case Some(v) => v
      case None => default
    }
  }

  datatype Result<+R, +E> = Success(value: R) | Failure(error: E)
}
