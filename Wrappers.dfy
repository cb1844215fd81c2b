/** Optional values, standing for JavaScript's `undefined` and for optional chaining (`a?.b`). */
module Wrappers {

  datatype Option<+T> = None | Some(value: T) {

    /** Returns the value in Some, or `default` for None. */
    function GetOr(default: T): T {
      match this
      case Some(v) => v
      case None => default
    }

    /** Optional chaining: `this?.f`, None when this is None. */
    function Then<U>(f: T -> Option<U>): (r: Option<U>)
      ensures None? ==> r == None
      ensures Some? ==> r == f(value)
    {
      match this
      case Some(v) => f(v)
      case None => None
    }
  }
}
