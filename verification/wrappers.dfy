/** Optional values: a form field that may be missing, a backend reply field that may be absent. */
module Wrappers {

  datatype Option<+T> = None | Some(value: T) {

    /** Returns the wrapped value, or `default` when there is none (JavaScript's `x || default`
        for values that are truthy whenever present). */
    function GetOr(default: T): T {
      match this
      case Some(v) => v
      case None => default
    }
  }
}
