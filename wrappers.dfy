/** Small value types shared by the whole model. */
module Wrappers {

  /** An optional value: `None` stands for JavaScript's `null`/`undefined`. */
  datatype Option<+T> = None | Some(value: T) {
    function GetOr(default: T): T {
      match this
      case Some(v) => v
      case None => default
    }
  }

  /** A JavaScript number as the model sees it: an exact real, or NaN (what 0/0 gives). */
  datatype Number = NaN | Num(v: real)
}
