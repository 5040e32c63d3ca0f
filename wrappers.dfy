/** The optional-value datatype used throughout the model. */
module Wrappers {

  /** A value that may be missing: JavaScript's `undefined` where a lookup finds nothing. */
  datatype Option<+T> = None | Some(value: T) {

    /** The value, or `default` when it is missing. */
    function GetOr(default: T): T {
      match this
      case Some(v) => v
      case None => default
    }
  }
}
