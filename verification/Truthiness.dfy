/** Python's `x or fallback` on the optional request fields: None and the zero value
    of the type are both falsy, so both fall through to the fallback. */
module Truthiness {
  import opened Wrappers

  function OrInt(x: Option<int>, fallback: int): int {
    if x.Some? && x.value != 0 then x.value else fallback
  }

  function OrReal(x: Option<real>, fallback: real): real {
    if x.Some? && x.value != 0.0 then x.value else fallback
  }

  function OrString(x: Option<string>, fallback: string): string {
    if x.Some? && x.value != "" then x.value else fallback
  }
}
