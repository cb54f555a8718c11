/** Small failure-carrying datatypes shared by the front end and the back end,
    and the decimal rendering Python's f-strings apply to an `int`. */
module Common {

  datatype Option<+T> = None | Some(value: T)

  /** A computation that either yields a value or raises with a message. */
  datatype Result<+T> = Success(value: T) | Failure(error: string)

  /** A check that either passes or raises with a message (a Python function returning None). */
  datatype Outcome = Pass | Fail(error: string)

  function DigitChar(d: nat): (c: char)
    requires d < 10
    ensures '0' <= c <= '9'
  {
    "0123456789"[d]
  }

  /** `str(n)` for a non-negative integer: its decimal digits, most significant first. */
  function NatToString(n: nat): (s: string)
    ensures |s| >= 1
    ensures forall i :: 0 <= i < |s| ==> '0' <= s[i] <= '9'
  {
    if n < 10 then [DigitChar(n)] else NatToString(n / 10) + [DigitChar(n % 10)]
  }
}
