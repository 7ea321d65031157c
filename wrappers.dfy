/** Option, the one wrapper the model needs: a value that may be missing
    (a JavaScript `null`, a Python `None`, a missing dictionary key). */
module Wrappers {

  datatype Option<+T> = None | Some(value: T) {

    /** The value, or `default` when there is none (JavaScript `x ?? default`). */
    function GetOr(default: T): T {
      match this
      case Some(v) => v
      case None => default
    }
  }
}
