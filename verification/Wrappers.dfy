/** A value that may be missing: Go's nil pointers, slices and maps, JSON's null and absent fields. */
module Wrappers {
  datatype Option<+T> = None | Some(value: T) {
    function GetOr(default: T): T {
      match this
      case None => default
      case Some(v) => v
    }
  }
}
