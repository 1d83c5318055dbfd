/**
 * Key sequences run on a new calculator, with the screen they end on.  Each
 * scenario assumes only the `Double.toString` text of the values it produces
 * and, for a square root, the root itself.
 */
module Scenarios {
  import opened Wrappers
  import opened JavaDouble
  import opened NumberText
  import opened Display
  import opened CalculatorSpec
  import opened EqualsCases

  /** A key that does not throw hands the rest of the sequence its new state. */
  lemma RunStep(s: State, keys: seq<Key>, i: nat, t: State, rt: Runtime)
    requires i < |keys| && Press(s, keys[i], rt) == Outcome(t, None)
    ensures Run(s, keys[i..], rt) == Run(t, keys[i + 1..], rt)
    ensures i == 0 ==> Run(s, keys, rt) == Run(t, keys[1..], rt)
    ensures i + 1 == |keys| ==> Run(s, keys[i..], rt) == Outcome(t, None)
  {
    assert keys[i..][1..] == keys[i + 1..];
  }

  /* The single steps the scenarios are made of, each under the conditions that select its branch. */

  lemma DigitOnZero(s: State, d: int, rt: Runtime)
    requires 0 <= d <= 9 && s.screen == "0"
    ensures Press(s, DigitKey(d), rt) == Outcome(s.(screen := [DigitChar(d)]), None)
  {
  }

  lemma DigitReplaces(s: State, d: int, v: Double, rt: Runtime)
    requires 0 <= d <= 9 && s.screen != "0" && Parse(s.screen) == Some(v) && Same(s.latestValue, v)
    ensures Press(s, DigitKey(d), rt) == Outcome(s.(screen := [DigitChar(d)]), None)
  {
  }

  lemma DigitAppended(s: State, d: int, v: Double, rt: Runtime)
    requires 0 <= d <= 9 && s.screen != "0" && Parse(s.screen) == Some(v) && !Same(s.latestValue, v)
    ensures Press(s, DigitKey(d), rt) == Outcome(s.(screen := s.screen + [DigitChar(d)]), None)
  {
  }

  lemma SignPrepended(s: State, rt: Runtime)
    requires !(|s.screen| > 0 && s.screen[0] == '-')
    ensures Press(s, NegativeKey, rt) == Outcome(s.(screen := "-" + s.screen), None)
  {
  }

  lemma PointAppended(s: State, rt: Runtime)
    requires '.' !in s.screen
    ensures Press(s, DotKey, rt) == Outcome(s.(screen := s.screen + "."), None)
  {
  }

  lemma PointIgnored(s: State, rt: Runtime)
    requires '.' in s.screen
    ensures Press(s, DotKey, rt) == Outcome(s, None)
  {
  }

  lemma EqualsStep(s: State, t: State, rt: Runtime)
    requires PressEqualsKey(s, rt) == Outcome(t, None)
    ensures Press(s, EqualsKey, rt) == Outcome(t, None)
  {
  }

  lemma OperatorStores(s: State, op: seq<char>, v: Double, rt: Runtime)
    requires Parse(s.screen) == Some(v) && !(s.latestOperation != "" && Same(s.latestValue, v))
    ensures Press(s, BinaryKey(op), rt) ==
      Outcome(s.(latestValue := v, latestOperation := NormalizeOperator(op)), None)
  {
  }

  lemma OperatorSwaps(s: State, op: seq<char>, v: Double, rt: Runtime)
    requires Parse(s.screen) == Some(v) && s.latestOperation != "" && Same(s.latestValue, v)
    ensures Press(s, BinaryKey(op), rt) == Outcome(s.(latestOperation := NormalizeOperator(op)), None)
  {
  }

  lemma UnaryApplies(s: State, op: seq<char>, v: Double, rt: Runtime)
    requires Parse(s.screen) == Some(v) && IsUnarySymbol(op)
    ensures Press(s, UnaryKey(op), rt) ==
      Outcome(s.(screen := FormatUnary(ToText(ApplyUnary(op, v, rt), rt)), latestValue := v, latestOperation := op), None)
  {
  }

  /* The number texts the scenarios read back from the screen. */

  lemma ParsesDigit(d: int)
    requires 0 <= d <= 9
    ensures Parse([DigitChar(d)]) == Some(Finite(d as real))
  {
    assert [DigitChar(d)][..0] == [];
  }

  lemma ParsesTwenty()
    ensures Parse("20") == Some(Finite(20.0))
  {
    assert DigitsValue("20") == 20 by {
      assert "20"[..1] == "2";
    }
  }

  lemma ParsesNegativeDigit(d: int)
    requires 0 <= d <= 9
    ensures Parse(['-', DigitChar(d)]) == Some(Finite(-(d as real)))
  {
    assert ['-', DigitChar(d)][1..] == [DigitChar(d)];
    DigitsAreDecimal([DigitChar(d)]);
    assert [DigitChar(d)][..0] == [];
  }

  lemma ParsesOnePoint()
    ensures Parse("1.") == Some(Finite(1.0))
  {
    assert FirstIndexOf("1.", {'E', 'e'}) == 2;
    assert "1."[..2] == "1.";
    assert FirstIndexOf("1.", {'.'}) == 1;
    assert "1."[..1] == "1";
  }

  lemma ParsesOnePointSeven()
    ensures Parse("1.7") == Some(Finite(1.7))
  {
    assert FirstIndexOf("1.7", {'E', 'e'}) == 3;
    assert "1.7"[..3] == "1.7";
    assert FirstIndexOf("1.7", {'.'}) == 1;
    assert "1.7"[..1] == "1" && "1.7"[2..] == "7";
    assert "7"[..0] == [];
  }

  /** A nonzero digit and an operator on a new calculator: the digit becomes the pending value. */
  lemma DigitOperator(d: int, op: seq<char>, keys: seq<Key>, rt: Runtime)
    requires 1 <= d <= 9
    requires |keys| >= 2 && keys[0] == DigitKey(d) && keys[1] == BinaryKey(op)
    ensures Run(Initial, keys, rt) == Run(State([DigitChar(d)], Finite(d as real), NormalizeOperator(op), NaN, ""), keys[2..], rt)
  {
    var s1 := Initial.(screen := [DigitChar(d)]);
    var s2 := s1.(latestValue := Finite(d as real), latestOperation := NormalizeOperator(op));
    ParsesDigit(d);
    DigitOnZero(Initial, d, rt);
    RunStep(Initial, keys, 0, s1, rt);
    OperatorStores(s1, op, Finite(d as real), rt);
    RunStep(s1, keys, 1, s2, rt);
  }

  /**
   * A one-digit number, an operator and a one-digit number on a new
   * calculator: the second digit replaces the first on the screen, which is
   * the pending value.
   */
  lemma DigitOperatorDigit(d: int, op: seq<char>, e: int, keys: seq<Key>, rt: Runtime)
    requires 1 <= d <= 9 && 0 <= e <= 9
    requires |keys| >= 3 && keys[0] == DigitKey(d) && keys[1] == BinaryKey(op) && keys[2] == DigitKey(e)
    ensures Run(Initial, keys, rt) == Run(State([DigitChar(e)], Finite(d as real), NormalizeOperator(op), NaN, ""), keys[3..], rt)
  {
    var s2 := State([DigitChar(d)], Finite(d as real), NormalizeOperator(op), NaN, "");
    DigitOperator(d, op, keys, rt);
    ParsesDigit(d);
    assert DigitChar(d) != '0';
    DigitReplaces(s2, e, Finite(d as real), rt);
    RunStep(s2, keys, 2, s2.(screen := [DigitChar(e)]), rt);
  }

  lemma ParsesZeroPoint()
    ensures Parse("0.") == Some(Zero)
  {
    assert FirstIndexOf("0.", {'E', 'e'}) == 2;
    assert "0."[..2] == "0.";
    assert FirstIndexOf("0.", {'.'}) == 1;
    assert "0."[..1] == "0";
  }

  /* The integral results of the scenarios show without their `.0`. */

  lemma ShowsFive()
    ensures FormatBinary("5.0") == "5"
  {
    IntegralTextShowsDigits("5");
    assert "5" + ".0" == "5.0";
  }

  lemma ShowsSeven()
    ensures FormatBinary("7.0") == "7"
  {
    IntegralTextShowsDigits("7");
    assert "7" + ".0" == "7.0";
  }

  lemma ShowsEight()
    ensures FormatBinary("8.0") == "8"
  {
    IntegralTextShowsDigits("8");
    assert "8" + ".0" == "8.0";
  }

  lemma ShowsTwentyOne()
    ensures FormatBinary("21.0") == "21"
  {
    IntegralTextShowsDigits("21");
    assert "21" + ".0" == "21.0";
  }

  lemma ShowsForty()
    ensures FormatBinary("40.0") == "40"
  {
    IntegralTextShowsDigits("40");
    assert "40" + ".0" == "40.0";
  }

  /** Two, zero, plus, two, zero, equals shows `40`. */
  lemma TwentyPlusTwenty(rt: Runtime)
    requires rt.finiteText(40.0) == "40.0"
    ensures var o := Run(Initial, [DigitKey(2), DigitKey(0), BinaryKey("+"), DigitKey(2), DigitKey(0), EqualsKey], rt);
      o.thrown.None? && o.next.screen == "40"
  {
    var keys := [DigitKey(2), DigitKey(0), BinaryKey("+"), DigitKey(2), DigitKey(0), EqualsKey];
    var s1 := Initial.(screen := "2");
    var s2 := Initial.(screen := "20");
    var s3 := s2.(latestValue := Finite(20.0), latestOperation := "+");
    var s4 := s3.(screen := "2");
    var s5 := s3.(screen := "20");
    var s6 := State("40", Finite(40.0), "", Finite(20.0), "+");
    ParsesDigit(2);
    assert [DigitChar(2)] == "2";
    ParsesTwenty();
    DigitOnZero(Initial, 2, rt);
    RunStep(Initial, keys, 0, s1, rt);
    DigitAppended(s1, 0, Finite(2.0), rt);
    RunStep(s1, keys, 1, s2, rt);
    OperatorStores(s2, "+", Finite(20.0), rt);
    RunStep(s2, keys, 2, s3, rt);
    DigitReplaces(s3, 2, Finite(20.0), rt);
    RunStep(s3, keys, 3, s4, rt);
    DigitAppended(s4, 0, Finite(2.0), rt);
    RunStep(s4, keys, 4, s5, rt);
    EqualsAppliesPendingOperation(s5, Finite(20.0), rt);
    ShowsForty();
    EqualsStep(s5, s6, rt);
    RunStep(s5, keys, 5, s6, rt);
  }

  /** Two, square root shows the root cut to ten characters. */
  lemma SquareRootOfTwo(rt: Runtime)
    requires rt.finiteText(rt.sqrt(2.0)) == "1.4142135623730951"
    ensures var o := Run(Initial, [DigitKey(2), UnaryKey("√")], rt);
      o.thrown.None? && o.next.screen == "1.41421356"
  {
    var keys := [DigitKey(2), UnaryKey("√")];
    var s1 := Initial.(screen := "2");
    var s2 := State("1.41421356", Finite(2.0), "√", NaN, "");
    ParsesDigit(2);
    assert [DigitChar(2)] == "2";
    DigitOnZero(Initial, 2, rt);
    RunStep(Initial, keys, 0, s1, rt);
    UnaryApplies(s1, "√", Finite(2.0), rt);
    assert ToText(ApplyUnary("√", Finite(2.0), rt), rt) == "1.4142135623730951";
    assert FormatUnary("1.4142135623730951") == "1.41421356" by {
      assert "1.4142135623730951"[..CutWidth] == "1.41421356";
    }
    RunStep(s1, keys, 1, s2, rt);
  }

  /** Four, square root shows `2.0`: the unary formatting keeps a trailing `.0`. */
  lemma SquareRootOfFour(rt: Runtime)
    requires rt.sqrt(4.0) == 2.0 && rt.finiteText(2.0) == "2.0"
    ensures var o := Run(Initial, [DigitKey(4), UnaryKey("√")], rt);
      o.thrown.None? && o.next.screen == "2.0"
  {
    var keys := [DigitKey(4), UnaryKey("√")];
    var s1 := Initial.(screen := "4");
    var s2 := State("2.0", Finite(4.0), "√", NaN, "");
    ParsesDigit(4);
    assert [DigitChar(4)] == "4";
    DigitOnZero(Initial, 4, rt);
    RunStep(Initial, keys, 0, s1, rt);
    UnaryApplies(s1, "√", Finite(4.0), rt);
    assert FormatUnary("2.0") == "2.0";
    RunStep(s1, keys, 1, s2, rt);
  }

  /** Seven, divide, zero, equals shows `Error`. */
  lemma DivisionByZero(rt: Runtime)
    ensures var o := Run(Initial, [DigitKey(7), BinaryKey("/"), DigitKey(0), EqualsKey], rt);
      o.thrown.None? && o.next.screen == "Error"
  {
    var keys := [DigitKey(7), BinaryKey("/"), DigitKey(0), EqualsKey];
    var s3 := State("0", Finite(7.0), "/", NaN, "");
    var s4 := State("Error", NaN, "", Finite(0.0), "");
    DigitOperatorDigit(7, "/", 0, keys, rt);
    assert [DigitChar(0)] == "0";
    ParsesDigit(0);
    EqualsDivisionByZero(s3, Finite(0.0), rt);
    EqualsStep(s3, s4, rt);
    RunStep(s3, keys, 3, s4, rt);
  }

  /** Seven, sign, square root shows `Error`. */
  lemma SquareRootOfNegative(rt: Runtime)
    ensures var o := Run(Initial, [DigitKey(7), NegativeKey, UnaryKey("√")], rt);
      o.thrown.None? && o.next.screen == "Error"
  {
    var keys := [DigitKey(7), NegativeKey, UnaryKey("√")];
    var s1 := Initial.(screen := "7");
    var s2 := Initial.(screen := "-7");
    var s3 := State("Error", Finite(-7.0), "√", NaN, "");
    assert [DigitChar(7)] == "7";
    DigitOnZero(Initial, 7, rt);
    RunStep(Initial, keys, 0, s1, rt);
    SignPrepended(s1, rt);
    assert "-" + "7" == "-7";
    RunStep(s1, keys, 1, s2, rt);
    ParsesNegativeDigit(7);
    assert ['-', DigitChar(7)] == "-7";
    UnaryApplies(s2, "√", Finite(-7.0), rt);
    assert FormatUnary("NaN") == "Error";
    RunStep(s2, keys, 2, s3, rt);
  }

  /** One, point, seven, point, eight shows `1.78`: the second point is ignored. */
  lemma MultipleDecimalDots(rt: Runtime)
    ensures var o := Run(Initial, [DigitKey(1), DotKey, DigitKey(7), DotKey, DigitKey(8)], rt);
      o.thrown.None? && o.next.screen == "1.78"
  {
    var keys := [DigitKey(1), DotKey, DigitKey(7), DotKey, DigitKey(8)];
    var s1 := Initial.(screen := "1");
    var s2 := Initial.(screen := "1.");
    var s3 := Initial.(screen := "1.7");
    var s4 := Initial.(screen := "1.78");
    assert [DigitChar(1)] == "1";
    DigitOnZero(Initial, 1, rt);
    RunStep(Initial, keys, 0, s1, rt);
    PointAppended(s1, rt);
    assert "1" + "." == "1.";
    RunStep(s1, keys, 1, s2, rt);
    ParsesOnePoint();
    DigitAppended(s2, 7, Finite(1.0), rt);
    assert "1." + [DigitChar(7)] == "1.7";
    RunStep(s2, keys, 2, s3, rt);
    assert "1.7"[1] == '.';
    PointIgnored(s3, rt);
    RunStep(s3, keys, 3, s3, rt);
    ParsesOnePointSeven();
    DigitAppended(s3, 8, Finite(1.7), rt);
    assert "1.7" + [DigitChar(8)] == "1.78";
    RunStep(s3, keys, 4, s4, rt);
  }

  /** Nine, minus, four, equals shows `5`. */
  lemma NineMinusFour(rt: Runtime)
    requires rt.finiteText(5.0) == "5.0"
    ensures var o := Run(Initial, [DigitKey(9), BinaryKey("-"), DigitKey(4), EqualsKey], rt);
      o.thrown.None? && o.next.screen == "5"
  {
    var keys := [DigitKey(9), BinaryKey("-"), DigitKey(4), EqualsKey];
    var s3 := State("4", Finite(9.0), "-", NaN, "");
    var s4 := State("5", Finite(5.0), "", Finite(4.0), "-");
    DigitOperatorDigit(9, "-", 4, keys, rt);
    assert [DigitChar(4)] == "4";
    ParsesDigit(4);
    EqualsAppliesPendingOperation(s3, Finite(4.0), rt);
    ShowsFive();
    EqualsStep(s3, s4, rt);
    RunStep(s3, keys, 3, s4, rt);
  }

  /** Two, plus, three, equals, equals shows `8`: the second equals adds three again. */
  lemma RepeatedEquals(rt: Runtime)
    requires rt.finiteText(5.0) == "5.0" && rt.finiteText(8.0) == "8.0"
    ensures var o := Run(Initial, [DigitKey(2), BinaryKey("+"), DigitKey(3), EqualsKey, EqualsKey], rt);
      o.thrown.None? && o.next.screen == "8"
  {
    var keys := [DigitKey(2), BinaryKey("+"), DigitKey(3), EqualsKey, EqualsKey];
    var s3 := State("3", Finite(2.0), "+", NaN, "");
    var s4 := State("5", Finite(5.0), "", Finite(3.0), "+");
    var s5 := State("8", Finite(8.0), "", Finite(3.0), "+");
    DigitOperatorDigit(2, "+", 3, keys, rt);
    assert [DigitChar(3)] == "3";
    ParsesDigit(3);
    EqualsAppliesPendingOperation(s3, Finite(3.0), rt);
    ShowsFive();
    ShowsEight();
    EqualsStep(s3, s4, rt);
    RunStep(s3, keys, 3, s4, rt);
    assert [DigitChar(5)] == "5";
    ParsesDigit(5);
    EqualsRepeatsRememberedOperation(s4, Finite(5.0), rt);
    EqualsStep(s4, s5, rt);
    RunStep(s4, keys, 4, s5, rt);
  }

  /** Seven, plus, times, three, equals shows `21`: the second operator replaces the first. */
  lemma ChangedOperator(rt: Runtime)
    requires rt.finiteText(21.0) == "21.0"
    ensures var o := Run(Initial, [DigitKey(7), BinaryKey("+"), BinaryKey("*"), DigitKey(3), EqualsKey], rt);
      o.thrown.None? && o.next.screen == "21"
  {
    var keys := [DigitKey(7), BinaryKey("+"), BinaryKey("*"), DigitKey(3), EqualsKey];
    var s2 := State("7", Finite(7.0), "+", NaN, "");
    var s3 := s2.(latestOperation := "x");
    var s4 := s3.(screen := "3");
    var s5 := State("21", Finite(21.0), "", Finite(3.0), "x");
    DigitOperator(7, "+", keys, rt);
    assert [DigitChar(7)] == "7";
    ParsesDigit(7);
    OperatorSwaps(s2, "*", Finite(7.0), rt);
    RunStep(s2, keys, 2, s3, rt);
    DigitReplaces(s3, 3, Finite(7.0), rt);
    assert [DigitChar(3)] == "3";
    RunStep(s3, keys, 3, s4, rt);
    ParsesDigit(3);
    EqualsAppliesPendingOperation(s4, Finite(3.0), rt);
    ShowsTwentyOne();
    EqualsStep(s4, s5, rt);
    RunStep(s4, keys, 4, s5, rt);
  }

  /**
   * Five, plus, five, five shows `5`, not `55`: while the screen shows the
   * pending value, every digit key starts a new number.
   */
  lemma DigitEqualToPendingValueRestarts(rt: Runtime)
    ensures var o := Run(Initial, [DigitKey(5), BinaryKey("+"), DigitKey(5), DigitKey(5)], rt);
      o.thrown.None? && o.next.screen == "5"
  {
    var keys := [DigitKey(5), BinaryKey("+"), DigitKey(5), DigitKey(5)];
    var s3 := State("5", Finite(5.0), "+", NaN, "");
    DigitOperatorDigit(5, "+", 5, keys, rt);
    assert [DigitChar(5)] == "5";
    ParsesDigit(5);
    DigitReplaces(s3, 5, Finite(5.0), rt);
    RunStep(s3, keys, 3, s3, rt);
  }

  /** Zero, reciprocal shows `Infinity`: the unary formatting replaces only `NaN`. */
  lemma ReciprocalOfZero(rt: Runtime)
    ensures var o := Run(Initial, [DigitKey(0), UnaryKey("1/x")], rt);
      o.thrown.None? && o.next.screen == "Infinity"
  {
    var keys := [DigitKey(0), UnaryKey("1/x")];
    var s2 := State("Infinity", Zero, "1/x", NaN, "");
    ParsesDigit(0);
    assert [DigitChar(0)] == "0";
    DigitOnZero(Initial, 0, rt);
    RunStep(Initial, keys, 0, Initial, rt);
    UnaryApplies(Initial, "1/x", Zero, rt);
    assert FormatUnary("Infinity") == "Infinity";
    RunStep(Initial, keys, 1, s2, rt);
  }

  /**
   * Two, plus, three, plus, four, equals shows `7`, not `9`: the second
   * operator key only makes three the pending value, it computes nothing.
   */
  lemma SecondOperatorComputesNothing(rt: Runtime)
    requires rt.finiteText(7.0) == "7.0"
    ensures var o := Run(Initial, [DigitKey(2), BinaryKey("+"), DigitKey(3), BinaryKey("+"), DigitKey(4), EqualsKey], rt);
      o.thrown.None? && o.next.screen == "7"
  {
    var keys := [DigitKey(2), BinaryKey("+"), DigitKey(3), BinaryKey("+"), DigitKey(4), EqualsKey];
    var s3 := State("3", Finite(2.0), "+", NaN, "");
    var s4 := s3.(latestValue := Finite(3.0));
    var s5 := s4.(screen := "4");
    var s6 := State("7", Finite(7.0), "", Finite(4.0), "+");
    DigitOperatorDigit(2, "+", 3, keys, rt);
    assert [DigitChar(3)] == "3";
    ParsesDigit(3);
    OperatorStores(s3, "+", Finite(3.0), rt);
    RunStep(s3, keys, 3, s4, rt);
    DigitReplaces(s4, 4, Finite(3.0), rt);
    assert [DigitChar(4)] == "4";
    RunStep(s4, keys, 4, s5, rt);
    ParsesDigit(4);
    EqualsAppliesPendingOperation(s5, Finite(4.0), rt);
    ShowsSeven();
    EqualsStep(s5, s6, rt);
    RunStep(s5, keys, 5, s6, rt);
  }

  /**
   * Zero, point, five shows `5`: `0.` reads as the pending value zero, so the
   * digit starts a new number and no value below one can be typed this way.
   */
  lemma ZeroPointFiveShowsFive(rt: Runtime)
    ensures var o := Run(Initial, [DigitKey(0), DotKey, DigitKey(5)], rt);
      o.thrown.None? && o.next.screen == "5"
  {
    var keys := [DigitKey(0), DotKey, DigitKey(5)];
    var s2 := Initial.(screen := "0.");
    var s3 := Initial.(screen := "5");
    assert [DigitChar(0)] == "0";
    DigitOnZero(Initial, 0, rt);
    RunStep(Initial, keys, 0, Initial, rt);
    PointAppended(Initial, rt);
    assert "0" + "." == "0.";
    RunStep(Initial, keys, 1, s2, rt);
    ParsesZeroPoint();
    DigitReplaces(s2, 5, Zero, rt);
    assert [DigitChar(5)] == "5";
    RunStep(s2, keys, 2, s3, rt);
  }
}
