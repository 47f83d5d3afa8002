/** A value that may be missing. */
module Wrappers {
  datatype Option<+T> = None | Some(value: T)
  {
    function GetOr(default: T): T {
      if Some? then value else default
    }

    function ToSeq(): seq<T> {
      if Some? then [value] else []
    }
  }
}
