/** Optional values, used for JavaScript's `null`/`undefined`/`NaN` results. */
module Wrappers {
  datatype Option<T> = None | Some(value: T)
  {
    function GetOr(default: T): T
    {
      if this.Some? then value else default
    }
  }

  /** `Number(x) || 0` and `parseFloat(x) || 0`, with `None` for `NaN`. */
  function NumberOrZero(parsed: Option<real>): (r: real)
    ensures parsed.Some? ==> r == parsed.value
    ensures parsed.None? ==> r == 0.0
  {
    if parsed.Some? && parsed.value != 0.0 then parsed.value else 0.0
  }
}
