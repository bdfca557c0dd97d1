/** The optional value used wherever the source has None, null or undefined. */
module Wrappers {
  datatype Option<+T> = None | Some(value: T) {
    /** The value, or a default where there is none (JavaScript's `??`). */
    function GetOr(default: T): T {
      match this
      case None => default
      case Some(v) => v
    }
  }
}
