/** The Option type used wherever the source returns `null`, leaves a key out
    of an object, or reads an absent JSON field. */
module Wrappers {
  datatype Option<+T> = None | Some(value: T) {
    function GetOr(default: T): T {
      match this
      case Some(v) => v
      case None => default
    }
  }
}
