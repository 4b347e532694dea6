/** Optional values, used where the source has a missing field, a `None`, or an
    exception that is caught. */
module Wrappers {

  datatype Option<+T> = None | Some(value: T) {
    function GetOr(default: T): T {
      match this
      case Some(v) => v
      case None => default
    }
  }
}
