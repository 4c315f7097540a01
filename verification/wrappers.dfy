/** The optional value used wherever the source returns `null`, `undefined`
    or `NaN` instead of a result. */
module Wrappers {

  datatype Option<+T> = None | Some(value: T) {

    /** `x ?? d` and `x || d`: the held value, falling back to `default`. */
    function GetOr(default: T): T {
      match this
      case Some(v) => v
      case None => default
    }
  }
}
