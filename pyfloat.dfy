/**
 * Python's `float(text)` on a string, as the screener uses it for every
 * numeric field and channel value: surrounding whitespace is ignored, an
 * optional sign, then a decimal number with optional fraction and exponent,
 * or `inf`, `infinity` or `nan` in any letter case. Anything else raises
 * `ValueError`, modelled as `None`. Values are exact reals: binary rounding
 * and overflow to infinity are not modelled.
 */
module PyFloat {
  import opened Wrappers
  import opened PyText

  /** A Python float: a finite value, a signed infinity, or NaN. */
  datatype Num = Finite(value: real) | Infinity(negative: bool) | NaN

  predicate IsDigit(c: char) {
    '0' <= c <= '9'
  }

  predicate AllDigits(s: string) {
    forall i :: 0 <= i < |s| ==> IsDigit(s[i])
  }

  function DigitValue(c: char): (d: nat)
    requires IsDigit(c)
    ensures d < 10
  {
    c as int - '0' as int
  }

  /** The value of a string of decimal digits, most significant first. */
  function DigitsValue(s: string): nat
    requires AllDigits(s)
  {
    if s == [] then 0 else DigitsValue(s[..|s| - 1]) * 10 + DigitValue(s[|s| - 1])
  }

  function Pow10(n: nat): (p: nat)
    ensures p >= 1
  {
    if n == 0 then 1 else 10 * Pow10(n - 1)
  }

  /** 10 raised to an integer power, as a real. */
  function Scale(e: int): (r: real)
    ensures r > 0.0
  {
    if e >= 0 then Pow10(e) as real else 1.0 / Pow10(-e) as real
  }

  /** Position of the first exponent marker `e` or `E`, or the length when there is none. */
  function ExponentAt(s: string): (k: nat)
    ensures k <= |s|
    ensures k < |s| ==> s[k] == 'e' || s[k] == 'E'
  {
    if s == [] || s[0] == 'e' || s[0] == 'E' then 0 else 1 + ExponentAt(s[1..])
  }

  /** `digits`, `digits.`, `.digits` or `digits.digits`, with at least one digit. */
  function ParseMantissa(m: string): Option<real>
  {
    if '.' in m then
      var i := IndexOf(m, '.');
      var whole, frac := m[..i], m[i + 1..];
      if AllDigits(whole) && AllDigits(frac) && |whole| + |frac| > 0
      then Some(DigitsValue(whole) as real + DigitsValue(frac) as real / Pow10(|frac|) as real)
      else None
    else if AllDigits(m) && m != [] then Some(DigitsValue(m) as real)
    else None
  }

  /** An optionally signed, non-empty string of digits. */
  function ParseExponent(e: string): Option<int>
  {
    var neg := e != [] && e[0] == '-';
    var digits := if e != [] && (e[0] == '+' || e[0] == '-') then e[1..] else e;
    if AllDigits(digits) && digits != [] then
      Some(if neg then -(DigitsValue(digits) as int) else DigitsValue(digits) as int)
    else None
  }

  /** An unsigned decimal number: mantissa, then optionally an exponent marker and exponent. */
  function ParseDecimal(body: string): Option<real>
  {
    var k := ExponentAt(body);
    match ParseMantissa(body[..k])
    case None => None
    case Some(m) =>
      if k == |body| then Some(m)
      else match ParseExponent(body[k + 1..])
        case None => None
        case Some(e) => Some(m * Scale(e))
  }

  /** `float(s)`: `Some` of the value, or `None` where Python raises `ValueError`. */
  function ParseNum(s: string): (r: Option<Num>)
    ensures r.Some? ==> Strip(s) != []
  {
    ParseStripped(Strip(s))
  }

  /** `float` on text already stripped of surrounding whitespace: an optional sign, then the unsigned part. */
  function ParseStripped(t: string): (r: Option<Num>)
    ensures r.Some? ==> t != []
  {
    if t != [] && (t[0] == '+' || t[0] == '-') then ParseUnsigned(t[0] == '-', t[1..])
    else ParseUnsigned(false, t)
  }

  /** The text after the sign: `inf`, `infinity` or `nan` in any letter case, or a decimal number. */
  function ParseUnsigned(neg: bool, body: string): (r: Option<Num>)
    ensures r.Some? ==> body != []
  {
    var word := Lower(body);
    if word == "inf" || word == "infinity" then Some(Infinity(neg))
    else if word == "nan" then Some(NaN)
    else match ParseDecimal(body)
      case None => None
      case Some(x) => Some(Finite(if neg then -x else x))
  }

  /** The decimal text of a natural number, without leading zeros (`str(n)`). */
  function NatText(n: nat): (s: string)
    ensures s != [] && AllDigits(s)
  {
    if n < 10 then ['0' + n as char] else NatText(n / 10) + ['0' + (n % 10) as char]
  }

  /** The decimal text of an integer (`str(i)`). */
  function IntText(i: int): (s: string)
  {
    if i < 0 then "-" + NatText(-i) else NatText(i)
  }

  /** Reading back the digits of `str(n)` gives `n`. */
  lemma {:induction false} NatTextValue(n: nat)
    ensures DigitsValue(NatText(n)) == n
  {
    var s := NatText(n);
    if n >= 10 {
      NatTextValue(n / 10);
      assert s[..|s| - 1] == NatText(n / 10);
    }
  }

  lemma DigitsHaveNoMarkers(s: string)
    requires AllDigits(s)
    ensures '.' !in s && 'e' !in s && 'E' !in s
    ensures ExponentAt(s) == |s|
    ensures Lower(s) == s
    ensures s != [] ==> s != "inf" && s != "infinity" && s != "nan"
  {
    DigitsExponentAt(s);
    DigitsLower(s);
    if s != [] {
      assert IsDigit(s[0]);
    }
  }

  lemma {:induction false} DigitsExponentAt(s: string)
    requires AllDigits(s)
    ensures ExponentAt(s) == |s|
  {
    if s != [] {
      DigitsExponentAt(s[1..]);
    }
  }

  lemma {:induction false} DigitsLower(s: string)
    requires AllDigits(s)
    ensures Lower(s) == s
  {
    if s != [] {
      DigitsLower(s[1..]);
      assert s == [s[0]] + s[1..];
    }
  }

  /** An unsigned run of digits reads as its decimal value. */
  lemma ParseDigits(d: string)
    requires AllDigits(d) && d != []
    ensures ParseDecimal(d) == Some(DigitsValue(d) as real)
  {
    DigitsHaveNoMarkers(d);
    assert d[..|d|] == d;
  }

  /** A run of digits after an optional sign reads as its signed decimal value. */
  lemma ParseUnsignedOfDigits(neg: bool, d: string, n: nat)
    requires AllDigits(d) && d != [] && DigitsValue(d) == n
    ensures ParseUnsigned(neg, d) == Some(Finite(if neg then -(n as real) else n as real))
  {
    DigitsHaveNoMarkers(d);
    ParseDigits(d);
  }

  /** Unsigned digits read as their decimal value. */
  lemma ParseUnsignedDigits(d: string, n: nat)
    requires AllDigits(d) && d != [] && DigitsValue(d) == n
    ensures ParseNum(d) == Some(Finite(n as real))
  {
    assert IsDigit(d[0]);
    StripUnpadded(d);
    ParseUnsignedOfDigits(false, d, n);
  }

  /** A minus sign followed by digits reads as the negated decimal value of the digits. */
  lemma ParseNegatedDigits(d: string, n: nat)
    requires AllDigits(d) && d != [] && DigitsValue(d) == n
    ensures ParseNum("-" + d) == Some(Finite(-(n as real)))
  {
    var t := "-" + d;
    assert t[0] == '-' && t[1..] == d;
    assert t[|t| - 1] == d[|d| - 1];
    StripUnpadded(t);
    ParseUnsignedOfDigits(true, d, n);
  }

  /** `float(str(i)) == i` for every integer `i`. */
  lemma ParseIntText(i: int)
    ensures ParseNum(IntText(i)) == Some(Finite(i as real))
  {
    if i < 0 {
      ParseNegativeText(i);
    } else {
      ParseNaturalText(i);
    }
  }

  lemma ParseNegativeText(i: int)
    requires i < 0
    ensures ParseNum(IntText(i)) == Some(Finite(i as real))
  {
    ParseMinusNatText(-i, i);
  }

  lemma ParseMinusNatText(n: nat, i: int)
    requires i == -(n as int)
    ensures ParseNum("-" + NatText(n)) == Some(Finite(i as real))
  {
    var d := NatText(n);
    NatTextValue(n);
    ParseNegatedDigits(d, n);
    assert -(n as real) == i as real;
  }

  lemma ParseNaturalText(n: nat)
    ensures ParseNum(IntText(n)) == Some(Finite(n as real))
  {
    var d := NatText(n);
    NatTextValue(n);
    ParseUnsignedDigits(d, n);
  }

  /** A blank or empty field is not a number (`float('')` raises). */
  lemma ParseBlank(s: string)
    requires forall i :: 0 <= i < |s| ==> IsSpace(s[i])
    ensures ParseNum(s) == None
  {
    StripBlank(s);
  }

  /** `str(i)` is a non-empty run of digits, possibly after a minus sign. */
  lemma IntTextChars(i: int)
    ensures var s := IntText(i);
      && s != [] && IsDigit(s[|s| - 1]) && (s[0] == '-' || IsDigit(s[0]))
      && forall k :: 0 <= k < |s| ==> s[k] == '-' || IsDigit(s[k])
  {
    var s := IntText(i);
    if i < 0 {
      var d := NatText(-i);
      assert forall k :: 1 <= k < |s| ==> s[k] == d[k - 1];
    }
  }
}
