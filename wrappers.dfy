/** Optional values, used for Go's fields that may be nil, for lookups that may miss and for
    parsers that may fail. */
module Wrappers {

  datatype Option<+T> = None | Some(value: T) {

    /** The value, or the given default when there is none. */
    function GetOr(default: T): T {
      match this
      case Some(v) => v
      case None => default
    }
  }
}
