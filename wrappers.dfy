/** Optional values: a field the request or the session may not hold. */
module Wrappers {

  datatype Option<+T> = None | Some(value: T) {

    /** The held value, or `default` where PHP's `get` would give null. */
    function GetOr(default: T): (v: T) {
      match this
      case Some(x) => x
      case None => default
    }
  }
}
