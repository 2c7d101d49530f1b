/** The optional value used wherever the runtime hands back a pointer that
    may be null (a path that was not found, a registry slot out of range). */
module Wrappers {

  datatype Option<+T> = None | Some(value: T) {

    /** Returns the value held in Some, or the given default for None. */
    function GetOr(default: T): T {
      match this
      case Some(v) => v
      case None => default
    }
  }
}
