/** The optional value used wherever the program returns `null` or leaves a field `undefined`. */
module Opt {

  datatype Option<+T> = None | Some(value: T) {

    /** The value, or `default` when absent (JavaScript's `x ?? d` / `x || d` on present-or-missing values). */
    function GetOr(default: T): T {
      match this
      case Some(v) => v
      case None => default
    }
  }
}
