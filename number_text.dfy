/**
 * `Double.parseDouble` over the texts a calculator screen can hold: an optional
 * sign, then `NaN`, `Infinity`, or decimal digits with at most one point and an
 * optional exponent.  The value is exact; a text that is not of this form is a
 * `NumberFormatException`, here `None`.
 */
module NumberText {
  import opened Wrappers
  import opened JavaDouble

  predicate IsDigit(c: char)
  {
    '0' <= c <= '9'
  }

  predicate AllDigits(s: seq<char>)
  {
    forall i :: 0 <= i < |s| ==> IsDigit(s[i])
  }

  function DigitValue(c: char): (d: nat)
    requires IsDigit(c)
    ensures d <= 9
  {
    c as int - '0' as int
  }

  /** The character Java appends for `screen + digit`. */
  function DigitChar(d: int): (c: char)
    requires 0 <= d <= 9
    ensures IsDigit(c) && DigitValue(c) == d
  {
    ('0' as int + d) as char
  }

  /** The value of a string of decimal digits, most significant first. */
  function DigitsValue(s: seq<char>): nat
    requires AllDigits(s)
  {
    if s == [] then 0 else DigitsValue(s[..|s| - 1]) * 10 + DigitValue(s[|s| - 1])
  }

  function Pow10(n: nat): (r: nat)
    ensures r >= 1
  {
    if n == 0 then 1 else 10 * Pow10(n - 1)
  }

  /** The position of the first character of `s` that is in `cs`, or `|s|` when there is none. */
  function FirstIndexOf(s: seq<char>, cs: set<char>): (k: nat)
    ensures k <= |s|
    ensures forall i :: 0 <= i < k ==> s[i] !in cs
    ensures k < |s| ==> s[k] in cs
  {
    if s == [] || s[0] in cs then 0 else 1 + FirstIndexOf(s[1..], cs)
  }

  /** `x * 10^e`. */
  function Scale(x: real, e: int): real
  {
    if e >= 0 then x * Pow10(e) as real else x / Pow10(-e) as real
  }

  /** The exponent after `E`: an optional sign and at least one digit. */
  function ParseExponent(e: seq<char>): Option<int>
  {
    if |e| > 1 && (e[0] == '+' || e[0] == '-') && AllDigits(e[1..]) then
      Some(if e[0] == '-' then -(DigitsValue(e[1..]) as int) else DigitsValue(e[1..]))
    else if |e| > 0 && AllDigits(e) then
      Some(DigitsValue(e))
    else
      None
  }

  /** The value of the digits after a decimal point. */
  function FractionValue(f: seq<char>): (x: real)
    requires AllDigits(f)
    ensures f == [] ==> x == 0.0
  {
    DigitsValue(f) as real / Pow10(|f|) as real
  }

  /** Digits with at most one point, and at least one digit in all. */
  function ParseMantissa(m: seq<char>): Option<real>
  {
    var k := FirstIndexOf(m, {'.'});
    var whole := m[..k];
    var fraction := if k < |m| then m[k + 1..] else [];
    if AllDigits(whole) && AllDigits(fraction) && |whole| + |fraction| > 0 then
      Some(DigitsValue(whole) as real + FractionValue(fraction))
    else
      None
  }

  function ParseDecimal(s: seq<char>): Option<real>
  {
    var k := FirstIndexOf(s, {'E', 'e'});
    var m := ParseMantissa(s[..k]);
    if m.None? || k == |s| then m
    else match ParseExponent(s[k + 1..])
      case None => None
      case Some(e) => Some(Scale(m.value, e))
  }

  function ParseUnsigned(s: seq<char>): Option<Double>
  {
    if s == "NaN" then Some(NaN)
    else if s == "Infinity" then Some(Infinity(false))
    else match ParseDecimal(s)
      case None => None
      case Some(x) => Some(Finite(x))
  }

  /** `Double.parseDouble(s)`. */
  function Parse(s: seq<char>): (r: Option<Double>)
    ensures |s| > 0 && AllDigits(s) ==> r == Some(Finite(DigitsValue(s) as real))
    ensures |s| > 0 && !IsDigit(s[0]) && s[0] !in "+-." && s != "NaN" && s != "Infinity" ==> r.None?
  {
    if |s| > 0 && s[0] == '-' then
      match ParseUnsigned(s[1..])
      case None => None
      case Some(d) => Some(Negate(d))
    else if |s| > 0 && s[0] == '+' then
      ParseUnsigned(s[1..])
    else
      DigitsAreDecimal(s);
      ParseUnsigned(s)
  }

  /** A plain string of digits is a decimal literal with neither point nor exponent. */
  lemma DigitsAreDecimal(s: seq<char>)
    ensures |s| > 0 && AllDigits(s) ==> ParseDecimal(s) == Some(DigitsValue(s) as real)
  {
    if |s| > 0 && AllDigits(s) {
      NoMarkerAmongDigits(s, {'E', 'e'});
      assert s[..|s|] == s;
      DigitsAreMantissa(s);
    }
  }

  lemma NoMarkerAmongDigits(s: seq<char>, cs: set<char>)
    requires AllDigits(s)
    requires forall c :: c in cs ==> !IsDigit(c)
    ensures FirstIndexOf(s, cs) == |s|
  {
  }

  lemma DigitsAreMantissa(s: seq<char>)
    requires |s| > 0 && AllDigits(s)
    ensures ParseMantissa(s) == Some(DigitsValue(s) as real)
  {
    NoMarkerAmongDigits(s, {'.'});
    assert s[..|s|] == s;
  }

  /** A text that starts with a sign is not an unsigned number. */
  lemma SignedTextIsNotUnsigned(s: seq<char>)
    requires |s| > 0 && (s[0] == '-' || s[0] == '+')
    ensures ParseUnsigned(s).None?
  {
    var k := FirstIndexOf(s, {'E', 'e'});
    var m := s[..k];
    if k > 0 {
      assert m[0] == s[0];
      var j := FirstIndexOf(m, {'.'});
      if j > 0 {
        assert m[..j][0] == m[0];
      }
    }
  }

  /** A minus written before an unsigned text negates the value read from it. */
  lemma MinusNegates(s: seq<char>)
    requires !(|s| > 0 && (s[0] == '-' || s[0] == '+'))
    ensures Parse(['-'] + s) == if Parse(s).Some? then Some(Negate(Parse(s).value)) else None
  {
    assert (['-'] + s)[1..] == s;
  }

  /** Toggling a leading minus negates the value read from a text without a leading `+`. */
  lemma ToggledSignNegates(s: seq<char>)
    requires !(|s| > 0 && s[0] == '+')
    ensures Parse(s).Some? ==>
      Parse(if |s| > 0 && s[0] == '-' then s[1..] else ['-'] + s) == Some(Negate(Parse(s).value))
  {
    if |s| > 0 && s[0] == '-' {
      var t := s[1..];
      assert s == ['-'] + t;
      if |t| > 0 && (t[0] == '-' || t[0] == '+') {
        SignedTextIsNotUnsigned(t);
        MinusOfSigned(t);
      } else {
        MinusNegates(t);
      }
    } else {
      MinusNegates(s);
    }
  }

  lemma MinusOfSigned(s: seq<char>)
    requires ParseUnsigned(s).None?
    ensures Parse(['-'] + s).None?
  {
    assert (['-'] + s)[1..] == s;
  }
}
