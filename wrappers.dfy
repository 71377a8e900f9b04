/** The optional value used throughout the model for JavaScript's `null` and
    `undefined`: `None` is the absent value, `Some(v)` a present one. */
module Wrappers {

  datatype Option<+T> = None | Some(value: T) {

    /** The value, or `default` when absent (a JavaScript default parameter). */
    function GetOr(default: T): T {
      match this
      case Some(v) => v
      case None => default
    }
  }
}
