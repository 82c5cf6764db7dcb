/** Optional values: `None` stands for JavaScript's `undefined` wherever a field may be absent. */
module Wrappers {

  datatype Option<+T> = None | Some(value: T) {

    /** The value held, or `default` when absent (JavaScript's `x ?? default` on an optional). */
    function GetOr(default: T): T {
      match this
      case Some(v) => v
      case None => default
    }

    /** `this ?? other`: the first present of the two. */
    function OrElse(other: Option<T>): Option<T> {
      if Some? then this else other
    }
  }
}
