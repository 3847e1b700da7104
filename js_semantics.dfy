/** The pieces of JavaScript semantics that the request handlers depend on:
    truthiness of request fields, Date values and their comparison, and
    `Array.prototype.slice(0, end)`. The date library itself (parsing and
    `toDateString`) and the string-to-number conversion are not modelled:
    they enter the model as function parameters. */
module JsSemantics {
  import opened Options

  /** A query-string or form field: `undefined` (None) or a string. */
  type Field = Option<string>

  /** JavaScript truthiness of a field: present and not the empty string. */
  predicate Truthy(f: Field)
  {
    f.Some? && f.value != ""
  }

  /** The time value of a `Date` object; None is an Invalid Date (NaN). */
  type TimeValue = Option<int>

  /** `new Date(s)`, as the time value it yields. */
  type DateParser = string -> TimeValue

  /** `Date.prototype.toDateString` on a valid time value. */
  type DateFormatter = int -> string

  /** What `toDateString` returns for an Invalid Date. */
  const InvalidDateString: string := "Invalid Date"

  /** `Date.prototype.toDateString`, including the invalid case. */
  function ToDateString(t: TimeValue, format: DateFormatter): string
  {
    match t
    case None => InvalidDateString
    case Some(v) => format(v)
  }

  /** `a >= b` on two Date objects: both compare as numbers, and any
      comparison with NaN is false. */
  predicate AtOrAfter(a: TimeValue, b: TimeValue)
  {
    a.Some? && b.Some? && a.value >= b.value
  }

  /** `a <= b` on two Date objects. */
  predicate AtOrBefore(a: TimeValue, b: TimeValue)
  {
    a.Some? && b.Some? && a.value <= b.value
  }

  /** The result of ToIntegerOrInfinity(ToNumber(s)): NaN becomes 0,
      fractions are truncated toward zero, infinities stay. */
  datatype IntegerOrInfinity = Finite(n: int) | PositiveInfinity | NegativeInfinity

  /** ToIntegerOrInfinity(ToNumber(s)) on a query-string value. */
  type IntegerConversion = string -> IntegerOrInfinity

  function Min(a: int, b: int): int { if a <= b then a else b }
  function Max(a: int, b: int): int { if a >= b then a else b }

  /** The index at which `slice(0, end)` stops on an array of length `len`:
      a negative end counts from the back, and the result is clamped to
      the array. */
  function SliceEndIndex(len: nat, end: IntegerOrInfinity): (k: nat)
    ensures k <= len
  {
    match end
    case NegativeInfinity => 0
    case PositiveInfinity => len
    case Finite(n) =>
      if n < 0 then (if len + n < 0 then 0 else len + n)
      else if n < len then n else len
  }

  /** `s.slice(0, end)`. */
  function SliceFromStart<T>(s: seq<T>, end: IntegerOrInfinity): (r: seq<T>)
    ensures r <= s
    ensures end.Finite? && end.n >= 0 ==> |r| == Min(end.n, |s|)
    ensures end.Finite? && end.n < 0 ==> |r| == Max(|s| + end.n, 0)
    ensures end.PositiveInfinity? ==> r == s
    ensures end.NegativeInfinity? ==> r == []
  {
    s[..SliceEndIndex(|s|, end)]
  }
}
