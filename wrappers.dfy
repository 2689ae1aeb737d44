/** Python's `X | None`, written as a datatype. */
module Wrappers {

  datatype Option<+T> = None | Some(value: T) {

    /** `x or default`, for an optional value whose present form is always truthy. */
    function GetOr(default: T): T {
      match this
      case Some(v) => v
      case None => default
    }
  }
}
