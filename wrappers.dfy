/** Option, for a lookup that may find nothing (IndexedDB `get` resolves to
    `undefined` for a missing key) and for a field that a record may lack. */
module Wrappers {

  datatype Option<+T> = None | Some(value: T) {

    /** The value, or `default` when absent: JavaScript's `x || default`
        for a parsed number, where a missing or unparseable value is `None`. */
    function GetOr(default: T): (r: T)
      ensures Some? ==> r == value
      ensures None? ==> r == default
    {
      match this
      case Some(v) => v
      case None => default
    }
  }
}
