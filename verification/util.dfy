/** Shared vocabulary: optional values, results, the panics a Rust caller can
    hit, and the two string operations the procedural macros rely on
    (`str::contains` and decimal rendering of a count with `format!`). */
module Util {

  datatype Option<+T> = None | Some(value: T)

  datatype Result<+T, +E> = Ok(value: T) | Err(error: E)

  /** A Rust panic, by its cause. */
  datatype Panic =
    | IndexOutOfBounds    // `v[i]` past the end
    | UnwrapOnNone        // `Option::unwrap` on `None`
    | DimensionMismatch   // a shape assertion inside nalgebra

  /** `pat` occurs in `s` starting at index `i`. */
  predicate MatchesAt(s: string, pat: string, i: nat)
  {
    i + |pat| <= |s| && s[i..i + |pat|] == pat
  }

  /** Naive left-to-right search for `pat` from position `start` on. */
  function ContainsFrom(s: string, pat: string, start: nat): (b: bool)
    ensures b <==> exists i: nat :: start <= i && MatchesAt(s, pat, i)
    decreases |s| - start
  {
    if start + |pat| > |s| then false
    else if MatchesAt(s, pat, start) then true
    else ContainsFrom(s, pat, start + 1)
  }

  /** Rust's `str::contains` with a string pattern. */
  function Contains(s: string, pat: string): (b: bool)
    ensures b <==> exists i: nat :: MatchesAt(s, pat, i)
  {
    ContainsFrom(s, pat, 0)
  }

  predicate IsDigit(c: char)
  {
    '0' <= c <= '9'
  }

  predicate AllDigits(s: string)
  {
    forall i :: 0 <= i < |s| ==> IsDigit(s[i])
  }

  function DigitChar(d: nat): (c: char)
    requires d < 10
    ensures IsDigit(c) && (c as int) - ('0' as int) == d
  {
    (('0' as int) + d) as char
  }

  /** `format!("{}", n)` for an unsigned integer: shortest decimal, no sign. */
  function NatToDecimal(n: nat): (s: string)
    ensures |s| >= 1 && AllDigits(s)
    ensures n == 0 <==> s == "0"
    ensures |s| > 1 ==> s[0] != '0'
    decreases n
  {
    if n < 10 then [DigitChar(n)] else NatToDecimal(n / 10) + [DigitChar(n % 10)]
  }

  /** The number a string of decimal digits denotes. */
  function DecimalValue(s: string): nat
    requires AllDigits(s)
    decreases |s|
  {
    if |s| == 0 then 0
    else 10 * DecimalValue(s[..|s| - 1]) + ((s[|s| - 1] as int) - ('0' as int))
  }

  /** Reading back a rendered count gives the count. */
  lemma {:induction false} DecimalRoundTrip(n: nat)
    ensures DecimalValue(NatToDecimal(n)) == n
    decreases n
  {
    if n >= 10 {
      var s := NatToDecimal(n);
      var prefix := NatToDecimal(n / 10);
      assert s[..|s| - 1] == prefix;
      DecimalRoundTrip(n / 10);
    }
  }

  /** Rendering is injective: two counts never share a name. */
  lemma DecimalInjective(a: nat, b: nat)
    requires NatToDecimal(a) == NatToDecimal(b)
    ensures a == b
  {
    DecimalRoundTrip(a);
    DecimalRoundTrip(b);
  }
}
