/** The fallbacks the form handlers apply to what the number inputs parse to
    (`parseInt(v) || d`, `parseFloat(v) || d`) and to optional text
    (`s || null`). The parse itself is an input here: `None` stands for NaN.
    In JavaScript `x || d` is `d` for every falsy `x`, and among numbers the
    falsy ones are `0` and NaN. */
module Inputs {
  import opened Wrappers

  /** `parseInt(v) || fallback` and `parseFloat(v) || fallback`. */
  function NumberOr<T(==)>(parsed: Option<T>, zero: T, fallback: T): (r: T)
    ensures parsed.None? || parsed.value == zero ==> r == fallback
    ensures parsed.Some? && parsed.value != zero ==> r == parsed.value
    ensures fallback != zero ==> r != zero
  {
    if parsed.Some? && parsed.value != zero then parsed.value else fallback
  }

  function IntOr(parsed: Option<int>, fallback: int): int {
    NumberOr(parsed, 0, fallback)
  }

  function RealOr(parsed: Option<real>, fallback: real): real {
    NumberOr(parsed, 0.0, fallback)
  }

  /** `s || null` on a text field: the empty text is stored as `null`. */
  function TextOrNull(s: string): (r: Option<string>)
    ensures r.None? <==> s == ""
    ensures r.Some? ==> r.value == s
  {
    if s == "" then None else Some(s)
  }
}
