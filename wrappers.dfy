/** Option, the possibly-absent value used across the model. */
module Wrappers {

  /** An absent or present value: JavaScript's `null`/`undefined` versus a value. */
  datatype Option<+T> = None | Some(value: T) {
    function GetOr(default: T): T
    {
      match this
      case Some(v) => v
      case None => default
    }
  }
}
