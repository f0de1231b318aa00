/** The nil-able pointer of the source: `None` is nil, `Some(v)` a pointer to v. */
module Wrappers {

  datatype Option<+T> = None | Some(value: T) {
    /** The value pointed to, or `default` for nil. */
    function GetOr(default: T): T {
      match this
      case Some(v) => v
      case None => default
    }
  }
}
