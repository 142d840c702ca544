/** Optional values: `None` stands for JavaScript's null/undefined and Python's missing value. */
module Wrappers {

  datatype Option<T> = None | Some(value: T)
  {
    /** The value, or `default` for `None` (JavaScript's `x ?? default` for non-null values). */
    function GetOr(default: T): T
    {
      if Some? then value else default
    }
  }
}
