/**
 * The two number conversions the query string goes through: `parseInt` when a
 * `monthOffset` is read, and `Number.prototype.toString` when it is written back.
 * A JavaScript number produced by `parseInt` is either NaN or an integer.
 */
module Numbers {

  datatype ParsedInt = NaN | Int(n: int)

  predicate IsDigit(c: char) {
    '0' <= c <= '9'
  }

  predicate AllDigits(s: string) {
    forall i | 0 <= i < |s| :: IsDigit(s[i])
  }

  predicate IsSpace(c: char) {
    c == ' ' || c == '\t' || c == '\n' || c == '\r'
  }

  function DigitValue(c: char): (d: nat)
    requires IsDigit(c)
    ensures d < 10
  {
    (c as int) - ('0' as int)
  }

  function DigitChar(d: nat): (c: char)
    requires d < 10
    ensures IsDigit(c) && DigitValue(c) == d
  {
    (('0' as int) + d) as char
  }

  /** Leading white space, which `parseInt` skips. */
  function TrimStart(s: string): string {
    if s != [] && IsSpace(s[0]) then TrimStart(s[1..]) else s
  }

  /** The longest prefix of decimal digits: `parseInt` stops at the first non-digit. */
  function DigitPrefix(s: string): (r: string)
    ensures AllDigits(r)
  {
    if s == [] || !IsDigit(s[0]) then [] else [s[0]] + DigitPrefix(s[1..])
  }

  /** The value of a string of decimal digits, most significant first. */
  function DigitsValue(s: string): nat
    requires AllDigits(s)
  {
    if s == [] then 0 else DigitsValue(s[..|s| - 1]) * 10 + DigitValue(s[|s| - 1])
  }

  /** `parseInt(s)` in base 10: optional white space, an optional sign, then at least one digit. */
  function ParseInt(s: string): ParsedInt {
    var t := TrimStart(s);
    var signed := t != [] && (t[0] == '-' || t[0] == '+');
    var digits := DigitPrefix(if signed then t[1..] else t);
    if digits == [] then NaN
    else
      var magnitude: int := DigitsValue(digits);
      Int(if signed && t[0] == '-' then -magnitude else magnitude)
  }

  /** Decimal digits of a natural number, no leading zero. */
  function NatToString(n: nat): (r: string)
    ensures r != [] && AllDigits(r)
    ensures r[0] == '0' ==> n == 0
  {
    if n < 10 then [DigitChar(n)] else NatToString(n / 10) + [DigitChar(n % 10)]
  }

  /** 10^21: from this magnitude on, `Number.prototype.toString` writes exponent notation. */
  const ExponentThreshold: int := 1_000_000_000_000_000_000_000

  /** The significant digits of a positive number, as a number: its trailing zeros dropped. */
  function Significand(m: nat): (r: nat)
    requires m > 0
    ensures 0 < r <= m && r % 10 != 0
  {
    if m % 10 == 0 then Significand(m / 10) else m
  }

  /**
   * Exponent notation of a positive number: the first significant digit, then a point
   * and the other significant digits when there are any, then `e+` and the exponent.
   */
  function Exponential(m: nat): string
    requires m > 0
  {
    var digits := NatToString(Significand(m));
    [digits[0]] + (if |digits| > 1 then "." + digits[1..] else "") + "e+" + NatToString(|NatToString(m)| - 1)
  }

  /** `Number.prototype.toString` on what `parseInt` can produce. */
  function NumberToString(p: ParsedInt): string {
    match p
    case NaN => "NaN"
    case Int(n) =>
      var m: nat := if n < 0 then -n else n;
      var magnitude := if m < ExponentThreshold then NatToString(m) else Exponential(m);
      if n < 0 then "-" + magnitude else magnitude
  }

  lemma {:induction false} DigitsRoundTrip(n: nat)
    ensures DigitsValue(NatToString(n)) == n
  {
    if n >= 10 {
      var s := NatToString(n);
      assert s[..|s| - 1] == NatToString(n / 10);
      DigitsRoundTrip(n / 10);
    }
  }

  lemma {:induction false} DigitPrefixOfDigits(s: string)
    requires AllDigits(s)
    ensures DigitPrefix(s) == s
  {
    if s != [] {
      DigitPrefixOfDigits(s[1..]);
    }
  }

  lemma ParseDigits(s: string)
    requires s != [] && AllDigits(s)
    ensures ParseInt(s) == Int(DigitsValue(s))
  {
    assert TrimStart(s) == s;
    DigitPrefixOfDigits(s);
  }

  lemma ParseNegativeDigits(s: string)
    requires s != [] && AllDigits(s)
    ensures ParseInt("-" + s) == Int(0 - DigitsValue(s))
  {
    var t := "-" + s;
    assert TrimStart(t) == t;
    assert t[1..] == s;
    DigitPrefixOfDigits(s);
  }

  /** Reading back what was written gives the same number, NaN included. */
  /** Below 10^21 in magnitude, reading back what was written gives the same number. */
  lemma NumberRoundTrip(p: ParsedInt)
    requires p.NaN? || -ExponentThreshold < p.n < ExponentThreshold
    ensures ParseInt(NumberToString(p)) == p
  {
    match p
    case NaN =>
      assert TrimStart("NaN") == "NaN";
      assert DigitPrefix("NaN") == [];
    case Int(n) =>
      var m: nat := if n < 0 then -n else n;
      DigitsRoundTrip(m);
      if n < 0 {
        ParseNegativeDigits(NatToString(m));
      } else {
        ParseDigits(NatToString(m));
      }
  }

  /** `parseInt` stops at the first character that is not a digit. */
  lemma {:induction false} DigitPrefixIsLongest(s: string)
    ensures DigitPrefix(s) <= s
    ensures |DigitPrefix(s)| < |s| ==> !IsDigit(s[|DigitPrefix(s)|])
  {
    if s != [] && IsDigit(s[0]) {
      DigitPrefixIsLongest(s[1..]);
    }
  }

  /** Text without a digit where `parseInt` needs one is NaN; this includes the empty string. */
  lemma {:induction false} ParseIntNoDigits(s: string)
    requires forall i | 0 <= i < |s| :: !IsDigit(s[i])
    ensures ParseInt(s) == NaN
  {
    if s != [] && IsSpace(s[0]) {
      ParseIntNoDigits(s[1..]);
      assert TrimStart(s) == TrimStart(s[1..]);
    } else if s != [] && (s[0] == '-' || s[0] == '+') && |s| > 1 {
      assert TrimStart(s) == s;
      assert DigitPrefix(s[1..]) == [];
    }
  }

  /** Exponent notation opens with one digit followed by a point or an `e`. */
  lemma ExponentialLeadingDigit(m: nat)
    requires m > 0
    ensures |Exponential(m)| > 1 && IsDigit(Exponential(m)[0])
    ensures DigitPrefix(Exponential(m)) == [Exponential(m)[0]]
  {
  }

  /** A single digit, signed or not, parses to its value. */
  lemma ParseSingleDigit(c: char, rest: string)
    requires IsDigit(c) && DigitPrefix(rest) == []
    ensures ParseInt([c] + rest) == Int(DigitValue(c))
    ensures ParseInt("-" + [c] + rest) == Int(-(DigitValue(c) as int))
  {
    var t := [c] + rest;
    assert t[1..] == rest;
    assert DigitPrefix(t) == [c];
    assert DigitsValue([c]) == DigitValue(c) by {
      assert [c][..0] == [];
    }
    assert TrimStart(t) == t;
    var u := "-" + t;
    assert TrimStart(u) == u;
    assert u[1..] == t;
  }

  /**
   * From 10^21 in magnitude on, the round trip is lost: `parseInt` stops at the point or
   * the `e` of the exponent notation and reads only the first significant digit.
   */
  lemma ExponentNotationLosesValue(n: int)
    requires n <= -ExponentThreshold || ExponentThreshold <= n
    ensures ParseInt(NumberToString(Int(n))).Int?
    ensures -10 < ParseInt(NumberToString(Int(n))).n < 10
    ensures ParseInt(NumberToString(Int(n))) != Int(n)
  {
    var m: nat := if n < 0 then -n else n;
    var e := Exponential(m);
    ExponentialLeadingDigit(m);
    assert e == [e[0]] + e[1..];
    assert DigitPrefix(e[1..]) == [] by {
      assert !IsDigit(e[1..][0]) by {
        DigitPrefixIsLongest(e);
      }
    }
    ParseSingleDigit(e[0], e[1..]);
    assert NumberToString(Int(n)) == if n < 0 then "-" + e else e;
  }
}
