/** Small helper datatypes shared by the modules of this project. */
module Wrappers {

  /** A value that may be absent. */
  datatype Option<+T> = None | Some(value: T) {

    /**
     * The value, or `default` when there is none.  This agrees with
     * JavaScript's `x || default` when `default` is itself falsy (`false`, `""`).
     */
    function GetOr(default: T): (r: T)
      ensures Some? ==> r == value
      ensures None? ==> r == default
    {
      match this
      case Some(v) => v
      case None => default
    }
  }
}
