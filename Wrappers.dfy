/** A value that may be absent: a nullable column, or a form field left empty. */
module Wrappers {

  datatype Option<T> = None | Some(value: T) {

    /** The value, or `default` when it is absent (JavaScript's `x || default` on a non-falsy value). */
    function GetOr(default: T): T {
      match this
      case Some(v) => v
      case None => default
    }
  }
}
