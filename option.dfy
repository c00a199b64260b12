/** Optional values: Python's `None` versus a present value. */
module Opt {

  datatype Option<+T> = None | Some(value: T) {

    /** The value, or `default` when it is absent (Python's `x or default` for a missing x). */
    function GetOr(default: T): T
    {
      match this
      case Some(v) => v
      case None => default
    }
  }
}
