/** Optional values: JavaScript's `null` / `undefined` / `NaN` results are `None`. */
module Wrappers {

  datatype Option<+T> = None | Some(value: T) {

    /** What a Some carries; the given fallback stands in for None. */
    function GetOr(default: T): T {
      match this
      case Some(v) => v
      case None => default
    }
  }
}
