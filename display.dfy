/**
 * The post-processing the calculator applies to the text of a computed result
 * before it becomes the screen.  The equals key applies all three steps; the
 * unary keys apply a weaker version that only replaces `NaN`.
 */
module Display {

  const ErrorText: seq<char> := "Error"

  /** A text containing a point is cut to `CutWidth` characters once it is longer than `MaxWidth`. */
  const MaxWidth: nat := 11
  const CutWidth: nat := 10

  predicate AtMostOneDot(s: seq<char>)
  {
    multiset(s)['.'] <= 1
  }

  predicate IsNonFiniteText(s: seq<char>)
  {
    s == "Infinity" || s == "-Infinity" || s == "NaN"
  }

  predicate EndsWithPointZero(s: seq<char>)
  {
    |s| >= 2 && s[|s| - 2..] == ".0"
  }

  lemma PrefixHasNoMoreDots(s: seq<char>, k: nat)
    requires k <= |s|
    ensures multiset(s[..k])['.'] <= multiset(s)['.']
  {
    assert s == s[..k] + s[k..];
  }

  /** The width cut shared by every path. */
  function CutToWidth(s: seq<char>): seq<char>
  {
    if '.' in s && |s| > MaxWidth then s[..CutWidth] else s
  }

  /** The formatting after a unary key: only `NaN` becomes `Error`, then the width cut. */
  function FormatUnary(raw: seq<char>): seq<char>
  {
    CutToWidth(if raw == "NaN" then ErrorText else raw)
  }

  /** Drops a trailing `.0`, so that an integral result shows no point. */
  function StripPointZero(s: seq<char>): seq<char>
  {
    if EndsWithPointZero(s) then s[..|s| - 2] else s
  }

  /**
   * The formatting after the equals key: a non-finite text becomes `Error`, a
   * trailing `.0` is dropped, then the width cut.
   */
  function FormatBinary(raw: seq<char>): seq<char>
  {
    if IsNonFiniteText(raw) then ErrorText else CutToWidth(StripPointZero(raw))
  }

  lemma PrefixOfPrefix(a: seq<char>, b: seq<char>, c: seq<char>)
    requires a <= b && b <= c
    ensures a <= c
  {
    assert a == b[..|a|] == c[..|a|];
  }

  /** The cut keeps a prefix, bounds a text with a point by `MaxWidth`, and adds no point. */
  lemma CutToWidthShape(s: seq<char>)
    ensures CutToWidth(s) <= s
    ensures '.' in CutToWidth(s) ==> |CutToWidth(s)| <= MaxWidth
    ensures '.' !in s || |s| <= MaxWidth ==> CutToWidth(s) == s
    ensures '.' in s && |s| > MaxWidth ==> |CutToWidth(s)| == CutWidth
    ensures multiset(CutToWidth(s))['.'] <= multiset(s)['.']
  {
    if '.' in s && |s| > MaxWidth {
      PrefixHasNoMoreDots(s, CutWidth);
    }
  }

  lemma StripPointZeroShape(s: seq<char>)
    ensures StripPointZero(s) <= s
    ensures EndsWithPointZero(s) ==> StripPointZero(s) == s[..|s| - 2]
    ensures !EndsWithPointZero(s) ==> StripPointZero(s) == s
    ensures '.' !in s ==> StripPointZero(s) == s
    ensures multiset(StripPointZero(s))['.'] <= multiset(s)['.']
  {
    if EndsWithPointZero(s) {
      assert s[|s| - 2..][0] == '.';
      PrefixHasNoMoreDots(s, |s| - 2);
    }
  }

  /**
   * After a unary key: `NaN` shows as `Error`; any other text is kept or cut
   * to a prefix; a shown point means at most `MaxWidth` characters.
   */
  lemma FormatUnaryShape(raw: seq<char>)
    ensures raw == "NaN" ==> FormatUnary(raw) == ErrorText
    ensures raw != "NaN" ==> FormatUnary(raw) <= raw
    ensures raw != "NaN" && ('.' !in raw || |raw| <= MaxWidth) ==> FormatUnary(raw) == raw
    ensures raw != "NaN" && '.' in raw && |raw| > MaxWidth ==> FormatUnary(raw) == raw[..CutWidth]
    ensures '.' in FormatUnary(raw) ==> |FormatUnary(raw)| <= MaxWidth
    ensures FormatUnary(raw) != "NaN"
    ensures AtMostOneDot(raw) ==> AtMostOneDot(FormatUnary(raw))
  {
    var s := if raw == "NaN" then ErrorText else raw;
    assert '.' !in ErrorText;
    CutToWidthShape(s);
  }

  lemma PointZeroEndHasPoint(s: seq<char>)
    ensures EndsWithPointZero(s) ==> '.' in s
  {
    if EndsWithPointZero(s) {
      assert s[|s| - 2..][0] == s[|s| - 2];
    }
  }

  lemma NonFiniteTextHasNoPoint(raw: seq<char>)
    requires IsNonFiniteText(raw)
    ensures '.' !in raw
  {
  }

  /**
   * After the equals key: a non-finite text shows as `Error`; otherwise an
   * integral `d.0` shows as `d` and any text is kept, shortened or cut to a
   * prefix; a shown point means at most `MaxWidth` characters.
   */
  lemma FormatBinaryShape(raw: seq<char>)
    ensures IsNonFiniteText(raw) ==> FormatBinary(raw) == ErrorText
    ensures !IsNonFiniteText(raw) ==> FormatBinary(raw) <= raw
    ensures !IsNonFiniteText(raw) && '.' !in raw ==> FormatBinary(raw) == raw
    ensures EndsWithPointZero(raw) && '.' !in raw[..|raw| - 2] ==> FormatBinary(raw) == raw[..|raw| - 2]
    ensures !IsNonFiniteText(raw) && !EndsWithPointZero(raw) && ('.' !in raw || |raw| <= MaxWidth) ==>
      FormatBinary(raw) == raw
    ensures !IsNonFiniteText(raw) && !EndsWithPointZero(raw) && '.' in raw && |raw| > MaxWidth ==>
      FormatBinary(raw) == raw[..CutWidth]
    ensures '.' in FormatBinary(raw) ==> |FormatBinary(raw)| <= MaxWidth
    ensures AtMostOneDot(raw) ==> AtMostOneDot(FormatBinary(raw))
  {
    if IsNonFiniteText(raw) {
      NonFiniteTextHasNoPoint(raw);
      assert '.' !in ErrorText;
      PointZeroEndHasPoint(raw);
    } else {
      var t := StripPointZero(raw);
      StripPointZeroShape(raw);
      CutToWidthShape(t);
      PrefixOfPrefix(CutToWidth(t), t, raw);
    }
  }

  /** An integral text `d.0` with only digits before the point shows as `d`. */
  lemma IntegralTextShowsDigits(d: seq<char>)
    requires |d| > 0 && forall i :: 0 <= i < |d| ==> '0' <= d[i] <= '9'
    ensures FormatBinary(d + ".0") == d
  {
    var raw := d + ".0";
    assert raw[0] == d[0];
    assert raw[|raw| - 2..] == ".0";
    assert raw[..|raw| - 2] == d;
    assert '.' !in d;
  }
}
