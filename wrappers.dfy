/** Option, the model's stand-in for JavaScript's null / undefined results. */
module Wrappers {

  datatype Option<+T> = None | Some(value: T) {

    /** Returns the value in Some, or `default` (the JS `x || default` idiom for a present-or-absent value). */
    function GetOr(default: T): T {
      match this
      case Some(v) => v
      case None => default
    }
  }
}
