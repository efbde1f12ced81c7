/** The absent-or-present value used throughout the model for JavaScript's
    `null`/`undefined` versus a value. */
module Wrappers {
  datatype Option<+T> = None | Some(value: T) {
    function GetOr(default: T): T {
      match this
      case Some(v) => v
      case None => default
    }
  }
}
