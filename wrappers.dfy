/** Optional values, used for SQL NULL, a missing dictionary key, a failed
    external call and a parse that does not succeed. */
module Wrappers {

  datatype Option<+T> = None | Some(value: T) {
    function GetOr(default: T): T {
      match this
      case Some(v) => v
      case None => default
    }
  }
}
