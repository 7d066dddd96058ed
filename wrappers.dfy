/** Optional values: JavaScript's `undefined`/`null`, a fetch that did not
    succeed, and a numeric result that is NaN are all written `None`. */
module Wrappers {

  datatype Option<+T> = None | Some(value: T) {

    /** The value, or `default` when there is none (JavaScript's `x ?? d`). */
    function GetOr(default: T): T
    {
      match this
      case Some(v) => v
      case None => default
    }
  }
}
