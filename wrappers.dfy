/** An Option type for values that may be absent (a Go `error` that may be nil,
    a point that may not be built, a request that may not be sent). */
module Wrappers {

  datatype Option<+T> = None | Some(value: T) {

    /** The wrapped value, or `default` when there is none. */
    function GetOr(default: T): T {
      match this
      case Some(v) => v
      case None => default
    }
  }
}
