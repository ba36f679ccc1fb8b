/** The JavaScript string and number primitives the matching engine relies on:
    `String.prototype.toLowerCase`, `substring(0, n)`, integer-to-string
    conversion in template literals, and `Number.prototype.toFixed`. */
module JsText {

  /** ASCII lower-casing of one character; every other character is kept. */
  function LowerChar(c: char): char
  {
    if 'A' <= c <= 'Z' then (c as int + 32) as char else c
  }

  /** `s.toLowerCase()`, restricted to the ASCII letters. */
  function Lower(s: string): (r: string)
    ensures |r| == |s|
    ensures forall k :: 0 <= k < |r| ==> !('A' <= r[k] <= 'Z')
  {
    seq(|s|, k requires 0 <= k < |s| => LowerChar(s[k]))
  }

  /** Lower-casing twice is lower-casing once, so comparing `Lower` images is
      an equivalence that ignores case. */
  lemma LowerIdempotent(s: string)
    ensures Lower(Lower(s)) == Lower(s)
  {
    var once := Lower(s);
    var twice := Lower(once);
    forall k | 0 <= k < |s|
      ensures twice[k] == once[k]
    {
      assert !('A' <= once[k] <= 'Z');
    }
  }

  /** `s.substring(0, n)`: the first n characters, or all of s when shorter. */
  function Prefix(s: string, n: nat): (r: string)
    ensures |r| == if |s| < n then |s| else n
    ensures r <= s
  {
    if |s| <= n then s else s[..n]
  }

  predicate IsDigit(c: char)
  {
    '0' <= c <= '9'
  }

  predicate AllDigits(s: string)
  {
    forall k :: 0 <= k < |s| ==> IsDigit(s[k])
  }

  function DigitChar(d: nat): (c: char)
    requires d < 10
    ensures IsDigit(c) && c as int - '0' as int == d
  {
    ('0' as int + d) as char
  }

  /** The decimal numeral of a non-negative integer, as a template literal
      renders it: no leading zeros, "0" for zero. */
  function Digits(n: nat): (s: string)
    ensures |s| >= 1 && AllDigits(s)
    ensures (s[0] == '0') == (n == 0)
    decreases n
  {
    if n < 10 then [DigitChar(n)] else Digits(n / 10) + [DigitChar(n % 10)]
  }

  /** The number a string of decimal digits denotes. */
  function DecimalValue(s: string): nat
    requires AllDigits(s)
  {
    if |s| == 0 then 0 else DecimalValue(s[..|s| - 1]) * 10 + (s[|s| - 1] as int - '0' as int)
  }

  /** Reading the numeral back gives the number. */
  lemma {:induction false} DigitsRoundTrip(n: nat)
    ensures DecimalValue(Digits(n)) == n
    decreases n
  {
    if n >= 10 {
      var s := Digits(n);
      assert s[..|s| - 1] == Digits(n / 10);
      DigitsRoundTrip(n / 10);
    }
  }

  /** A leading zero does not change the value of a numeral. */
  lemma {:induction false} LeadingZero(s: string)
    requires AllDigits(s)
    ensures AllDigits("0" + s) && DecimalValue("0" + s) == DecimalValue(s)
    decreases |s|
  {
    if |s| > 0 {
      var t := "0" + s;
      assert t[..|t| - 1] == "0" + s[..|s| - 1];
      LeadingZero(s[..|s| - 1]);
    }
  }

  function Pow10(f: nat): (p: nat)
    ensures p >= 1
  {
    if f == 0 then 1 else 10 * Pow10(f - 1)
  }

  /** x * 10^f, the quantity whose nearest integer `toFixed(f)` prints. */
  function Scaled(x: real, f: nat): real
  {
    x * Pow10(f) as real
  }

  /** The integer closest to x, the larger of the two on a tie (the rule
      `toFixed` uses to pick its digits). */
  function RoundHalfUp(x: real): (n: int)
    ensures x - 0.5 < n as real <= x + 0.5
  {
    (x + 0.5).Floor
  }

  /** Left-pads a numeral with zeros up to `width` characters. */
  function ZeroPad(s: string, width: nat): (r: string)
    requires AllDigits(s)
    ensures AllDigits(r)
    ensures |r| == if |s| < width then width else |s|
    ensures DecimalValue(r) == DecimalValue(s)
    decreases width - |s|
  {
    if |s| >= width then s
    else
      LeadingZero(s);
      ZeroPad("0" + s, width)
  }

  /** The numeral of n / 10^f with exactly f digits after the point. */
  function PointNumeral(n: nat, f: nat): string
  {
    var m := ZeroPad(Digits(n), f + 1);
    if f == 0 then m else m[..|m| - f] + "." + m[|m| - f..]
  }

  /** `x.toFixed(f)` for x >= 0 (below 1e21): the numeral of the nearest
      multiple of 10^-f. */
  function FixedNonNegative(x: real, f: nat): string
    requires x >= 0.0
  {
    PointNumeral(RoundHalfUp(Scaled(x, f)) as nat, f)
  }

  /** `x.toFixed(f)`: a negative number is written with a leading '-'. */
  function ToFixed(x: real, f: nat): string
  {
    if x < 0.0 then "-" + FixedNonNegative(-x, f) else FixedNonNegative(x, f)
  }

  /** For f > 0, the numeral of n / 10^f is a whole part of at least one
      digit, a '.', and exactly f fraction digits; together those digits
      read back as n. */
  lemma PointNumeralReadsBack(n: nat, f: nat)
    requires f > 0
    ensures exists whole: string, fraction: string ::
      PointNumeral(n, f) == whole + "." + fraction &&
      |whole| >= 1 && |fraction| == f && AllDigits(whole) && AllDigits(fraction) &&
      AllDigits(whole + fraction) && DecimalValue(whole + fraction) == n
  {
    var m := ZeroPad(Digits(n), f + 1);
    var whole, fraction := m[..|m| - f], m[|m| - f..];
    assert whole + fraction == m;
    DigitsRoundTrip(n);
    assert PointNumeral(n, f) == whole + "." + fraction;
  }

  /** `x.toFixed(f)` for x >= 0 and f > 0 has exactly f fraction digits, and
      its digits read back as x * 10^f rounded to the nearest integer. */
  lemma FixedReadsBack(x: real, f: nat)
    requires x >= 0.0 && f > 0
    ensures exists whole: string, fraction: string ::
      ToFixed(x, f) == whole + "." + fraction &&
      |whole| >= 1 && |fraction| == f && AllDigits(whole) && AllDigits(fraction) &&
      AllDigits(whole + fraction) && DecimalValue(whole + fraction) == RoundHalfUp(Scaled(x, f))
  {
    PointNumeralReadsBack(RoundHalfUp(Scaled(x, f)) as nat, f);
  }
}
