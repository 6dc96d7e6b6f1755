/**
  Values shared by every module of the model: Rust's `Option` and `Result`,
  `std::time::Duration` (kept as a number of nanoseconds), the decimal
  rendering that Rust's `{}` formatter gives an unsigned integer, and the
  power of two used by the retry backoff.
*/
module Base {

  datatype Option<+T> = None | Some(value: T) {
    function GetOr(default: T): T {
      match this
      case Some(v) => v
      case None => default
    }
  }

  datatype Result<+T, +E> = Ok(value: T) | Err(error: E)

  /** `Duration`, as a whole number of nanoseconds. */
  type Duration = nat

  const NanosPerMilli: nat := 1_000_000
  const NanosPerSec: nat := 1_000_000_000

  /** `Duration::from_millis` */
  function FromMillis(ms: nat): (d: Duration)
    ensures d / NanosPerMilli == ms && d % NanosPerMilli == 0
  {
    ms * NanosPerMilli
  }

  /** `Duration::from_secs` */
  function FromSecs(s: nat): (d: Duration)
    ensures d / NanosPerMilli == s * 1000 && d % NanosPerMilli == 0
  {
    s * NanosPerSec
  }

  /** `Duration::as_millis`, which truncates */
  function AsMillis(d: Duration): nat {
    d / NanosPerMilli
  }

  /** `2u64.pow(k)`, without the 64-bit bound */
  function Pow2(k: nat): (p: nat)
    ensures p >= 1
  {
    if k == 0 then 1 else 2 * Pow2(k - 1)
  }

  predicate IsDigit(c: char) {
    '0' <= c <= '9'
  }

  function DigitChar(d: nat): (c: char)
    requires d < 10
    ensures IsDigit(c) && c as int - '0' as int == d
  {
    ('0' as int + d) as char
  }

  /** The decimal text that `format!("{}", n)` gives an unsigned integer. */
  function NatToString(n: nat): (s: string)
    ensures |s| >= 1
    ensures forall i :: 0 <= i < |s| ==> IsDigit(s[i])
    ensures (s[0] == '0') == (n == 0)
    decreases n
  {
    if n < 10 then [DigitChar(n)] else NatToString(n / 10) + [DigitChar(n % 10)]
  }

  /** Reads back a string of decimal digits. */
  function DigitsValue(s: string): nat
    requires forall i :: 0 <= i < |s| ==> IsDigit(s[i])
  {
    if s == [] then 0
    else
      assert IsDigit(s[|s| - 1]);
      10 * DigitsValue(s[..|s| - 1]) + (s[|s| - 1] as int - '0' as int)
  }

  /** The decimal rendering is faithful: reading it back gives the number. */
  lemma {:induction false} NatToStringRoundTrip(n: nat)
    ensures DigitsValue(NatToString(n)) == n
    decreases n
  {
    var s := NatToString(n);
    if n >= 10 {
      NatToStringRoundTrip(n / 10);
      assert s[..|s| - 1] == NatToString(n / 10);
    } else {
      assert s[..|s| - 1] == [];
    }
  }

  /** Hence distinct numbers render as distinct strings. */
  lemma NatToStringInjective(m: nat, n: nat)
    requires NatToString(m) == NatToString(n)
    ensures m == n
  {
    NatToStringRoundTrip(m);
    NatToStringRoundTrip(n);
  }
}
