/**
 * Properties that relate several key presses: involutions, idempotence, the
 * at-most-one-point invariant of the screen, how typed digits accumulate, how
 * a repeated equals reuses the remembered operation, and the failures that
 * follow a unary key, an unknown operator or an `Error` screen.
 */
module CalculatorProperties {
  import opened Wrappers
  import opened JavaDouble
  import opened NumberText
  import opened Display
  import opened CalculatorSpec

  /** The sign key undoes itself unless the screen starts with two minus signs. */
  lemma NegativeKeyInvolution(s: State)
    requires !(|s.screen| >= 2 && s.screen[0] == '-' && s.screen[1] == '-')
    ensures PressNegativeKey(PressNegativeKey(s)) == s
  {
    if |s.screen| > 0 && s.screen[0] == '-' {
      assert "-" + s.screen[1..] == s.screen;
    } else {
      assert ("-" + s.screen)[1..] == s.screen;
    }
  }

  /**
   * After the sign key the screen reads as the negated value: a positive
   * screen turns negative and a negative one positive.
   */
  lemma NegativeKeyNegatesValue(s: State)
    requires !(|s.screen| > 0 && s.screen[0] == '+')
    ensures Parse(s.screen).Some? ==> Parse(PressNegativeKey(s).screen) == Some(Negate(Parse(s.screen).value))
  {
    ToggledSignNegates(s.screen);
    if !(|s.screen| > 0 && s.screen[0] == '-') {
      assert PressNegativeKey(s).screen == ['-'] + s.screen;
    }
  }

  /** A second point key does nothing. */
  lemma DotKeyIdempotent(s: State)
    ensures PressDotKey(PressDotKey(s)) == PressDotKey(s)
  {
  }

  /** `Double.toString` writes at most one point in the text of a finite value. */
  ghost predicate FiniteTextsHaveAtMostOneDot(rt: Runtime)
  {
    forall x :: AtMostOneDot(rt.finiteText(x))
  }

  lemma ResultTextHasAtMostOneDot(d: Double, rt: Runtime)
    requires FiniteTextsHaveAtMostOneDot(rt)
    ensures AtMostOneDot(ToText(d, rt))
  {
    match d
    case Finite(x) =>
    case Infinity(n) =>
      assert '.' !in "Infinity" && '.' !in "-Infinity";
    case NaN =>
      assert '.' !in "NaN";
  }

  lemma AppendKeepsDots(t: seq<char>, c: char)
    requires c != '.'
    ensures multiset(t + [c])['.'] == multiset(t)['.']
  {
  }

  lemma DigitKeyKeepsAtMostOneDot(s: State, d: int)
    requires AtMostOneDot(s.screen)
    ensures AtMostOneDot(PressDigitKey(s, d).next.screen)
  {
    var r := PressDigitKey(s, d);
    if r.thrown.None? {
      AppendKeepsDots([], DigitChar(d));
      AppendKeepsDots(s.screen, DigitChar(d));
    }
  }

  lemma UnaryKeyKeepsAtMostOneDot(s: State, op: seq<char>, rt: Runtime)
    requires FiniteTextsHaveAtMostOneDot(rt)
    requires AtMostOneDot(s.screen)
    ensures AtMostOneDot(PressUnaryOperationKey(s, op, rt).next.screen)
  {
    var v := Parse(s.screen);
    if v.Some? && IsUnarySymbol(op) {
      var text := ToText(ApplyUnary(op, v.value, rt), rt);
      ResultTextHasAtMostOneDot(ApplyUnary(op, v.value, rt), rt);
      FormatUnaryShape(text);
    }
  }

  lemma EqualsKeyKeepsAtMostOneDot(s: State, rt: Runtime)
    requires FiniteTextsHaveAtMostOneDot(rt)
    requires AtMostOneDot(s.screen)
    ensures AtMostOneDot(PressEqualsKey(s, rt).next.screen)
  {
    var o := PressEqualsKey(s, rt);
    if o.thrown.None? && (s.latestOperation != "" || HasRepeatMemory(s)) {
      ResultTextHasAtMostOneDot(o.next.latestValue, rt);
      FormatBinaryShape(ToText(o.next.latestValue, rt));
    }
  }

  lemma NegativeKeyKeepsDots(s: State)
    ensures multiset(PressNegativeKey(s).screen)['.'] == multiset(s.screen)['.']
  {
    var r := PressNegativeKey(s).screen;
    if |s.screen| > 0 && s.screen[0] == '-' {
      assert s.screen == "-" + r;
    } else {
      assert r == "-" + s.screen;
    }
  }

  /** Every key keeps the screen free of a second point. */
  lemma KeyKeepsAtMostOneDot(s: State, k: Key, rt: Runtime)
    requires FiniteTextsHaveAtMostOneDot(rt)
    requires AtMostOneDot(s.screen)
    ensures AtMostOneDot(Press(s, k, rt).next.screen)
  {
    match k
    case DigitKey(d) => DigitKeyKeepsAtMostOneDot(s, d);
    case ClearKey => assert multiset("0")['.'] == 0;
    case BinaryKey(_) =>
    case UnaryKey(op) => UnaryKeyKeepsAtMostOneDot(s, op, rt);
    case DotKey =>
      if '.' !in s.screen {
        assert multiset(s.screen)['.'] == 0;
      }
    case NegativeKey => NegativeKeyKeepsDots(s);
    case EqualsKey => EqualsKeyKeepsAtMostOneDot(s, rt);
  }

  /** Any sequence of keys keeps the screen free of a second point. */
  lemma {:induction false} RunKeepsAtMostOneDot(s: State, keys: seq<Key>, rt: Runtime)
    requires FiniteTextsHaveAtMostOneDot(rt)
    requires AtMostOneDot(s.screen)
    ensures AtMostOneDot(Run(s, keys, rt).next.screen)
    decreases |keys|
  {
    if keys != [] {
      KeyKeepsAtMostOneDot(s, keys[0], rt);
      var o := Press(s, keys[0], rt);
      if o.thrown.None? {
        RunKeepsAtMostOneDot(o.next, keys[1..], rt);
      }
    }
  }

  /** No screen a new calculator can reach holds two points. */
  lemma ReachableScreenHasAtMostOneDot(keys: seq<Key>, rt: Runtime)
    requires FiniteTextsHaveAtMostOneDot(rt)
    ensures AtMostOneDot(Run(Initial, keys, rt).next.screen)
  {
    assert multiset(Initial.screen)['.'] == 0;
    RunKeepsAtMostOneDot(Initial, keys, rt);
  }

  type Digit = d: int | 0 <= d <= 9

  function DigitKeys(ds: seq<Digit>): (keys: seq<Key>)
    ensures |keys| == |ds|
  {
    if ds == [] then [] else [DigitKey(ds[0])] + DigitKeys(ds[1..])
  }

  function DigitText(ds: seq<Digit>): (t: seq<char>)
    ensures |t| == |ds| && AllDigits(t)
  {
    if ds == [] then [] else [DigitChar(ds[0])] + DigitText(ds[1..])
  }

  /** A digit string is worth at least its leading digit. */
  lemma {:induction false} DigitsValueAtLeastLeading(t: seq<char>)
    requires |t| > 0 && AllDigits(t)
    ensures DigitsValue(t) >= DigitValue(t[0])
    decreases |t|
  {
    if |t| > 1 {
      DigitsValueAtLeastLeading(t[..|t| - 1]);
    }
  }

  /** A screen holding a number without a leading zero shows no pending value below one. */
  predicate TypingInProgress(s: State)
  {
    |s.screen| > 0 && AllDigits(s.screen) && s.screen[0] != '0' &&
    (s.latestValue.Finite? ==> s.latestValue.value < 1.0)
  }

  lemma DigitAppends(s: State, d: Digit)
    requires TypingInProgress(s)
    ensures PressDigitKey(s, d) == Outcome(s.(screen := s.screen + [DigitChar(d)]), None)
    ensures TypingInProgress(s.(screen := s.screen + [DigitChar(d)]))
  {
    DigitsValueAtLeastLeading(s.screen);
    assert !ShowsValue(s.screen, s.latestValue);
  }

  lemma RunDigitsStep(s: State, ds: seq<Digit>, rt: Runtime)
    requires ds != [] && PressDigitKey(s, ds[0]).thrown.None?
    ensures Run(s, DigitKeys(ds), rt) == Run(PressDigitKey(s, ds[0]).next, DigitKeys(ds[1..]), rt)
  {
    var keys := DigitKeys(ds);
    assert keys[0] == DigitKey(ds[0]) && keys[1..] == DigitKeys(ds[1..]);
  }

  lemma AppendDigitText(t: seq<char>, ds: seq<Digit>)
    requires ds != []
    ensures (t + [DigitChar(ds[0])]) + DigitText(ds[1..]) == t + DigitText(ds)
  {
  }

  /** While typing is in progress, every digit key appends its digit. */
  lemma {:induction false} TypingAppends(s: State, ds: seq<Digit>, rt: Runtime)
    requires TypingInProgress(s)
    ensures Run(s, DigitKeys(ds), rt) == Outcome(s.(screen := s.screen + DigitText(ds)), None)
    decreases |ds|
  {
    if ds == [] {
      assert s.screen + [] == s.screen;
    } else {
      var s1 := s.(screen := s.screen + [DigitChar(ds[0])]);
      calc {
        Run(s, DigitKeys(ds), rt);
      == { DigitAppends(s, ds[0]); RunDigitsStep(s, ds, rt); }
        Run(s1, DigitKeys(ds[1..]), rt);
      == { DigitAppends(s, ds[0]); TypingAppends(s1, ds[1..], rt); }
        Outcome(s1.(screen := s1.screen + DigitText(ds[1..])), None);
      == { AppendDigitText(s.screen, ds); }
        Outcome(s.(screen := s.screen + DigitText(ds)), None);
      }
    }
  }

  /** After the clear key, digits typed without a leading zero appear verbatim. */
  lemma TypingAfterClear(s: State, ds: seq<Digit>, rt: Runtime)
    requires |ds| > 0 && ds[0] != 0
    ensures Run(PressClearKey(s), DigitKeys(ds), rt) == Outcome(PressClearKey(s).(screen := DigitText(ds)), None)
  {
    var c := PressClearKey(s);
    var c1 := c.(screen := [DigitChar(ds[0])]);
    assert PressDigitKey(c, ds[0]) == Outcome(c1, None);
    RunDigitsStep(c, ds, rt);
    TypingAppends(c1, ds[1..], rt);
  }

  /** A second operator key in a row only replaces the pending operator. */
  lemma SecondOperatorReplacesFirst(s: State, first: seq<char>, second: seq<char>)
    requires Parse(s.screen).Some? && !Parse(s.screen).value.NaN?
    requires NormalizeOperator(first) != ""
    ensures var o := PressBinaryOperationKey(s, first);
      o.thrown.None? &&
      PressBinaryOperationKey(o.next, second) == Outcome(o.next.(latestOperation := NormalizeOperator(second)), None)
  {
  }

  /**
   * The first equals remembers the operator and the screen's value, and the
   * next equals applies them again to what the screen then shows.
   */
  lemma RepeatedEqualsReappliesOperation(s: State, rt: Runtime)
    requires Parse(s.screen).Some? && !Parse(s.screen).value.NaN?
    requires IsBinarySymbol(s.latestOperation)
    requires !(s.latestOperation == "/" && Same(Parse(s.screen).value, Zero))
    ensures var op, operand := s.latestOperation, Parse(s.screen).value;
      var first := PressEqualsKey(s, rt);
      first.thrown.None? &&
      first.next.lastOperator == op && first.next.lastOperand == operand &&
      first.next.latestValue == ApplyBinary(op, s.latestValue, operand) &&
      (Parse(first.next.screen).Some? ==>
        var shown := Parse(first.next.screen).value;
        var again := ApplyBinary(op, shown, operand);
        PressEqualsKey(first.next, rt) ==
          Outcome(first.next.(screen := FormatBinary(ToText(again, rt)), latestValue := again), None))
  {
  }

  /** The clear key keeps the repeat memory: clear, a digit and equals apply the remembered operation. */
  lemma ClearKeepsRepeatMemory(s: State, d: Digit, rt: Runtime)
    requires HasRepeatMemory(s) && IsBinarySymbol(s.lastOperator)
    requires !(s.lastOperator == "/" && Same(s.lastOperand, Zero))
    ensures var typed := PressDigitKey(PressClearKey(s), d).next;
      var result := ApplyBinary(s.lastOperator, Finite(d as real), s.lastOperand);
      PressEqualsKey(typed, rt) == Outcome(typed.(screen := FormatBinary(ToText(result, rt)), latestValue := result), None)
  {
    var typed := PressDigitKey(PressClearKey(s), d).next;
    assert typed.screen == [DigitChar(d)];
    assert DigitsValue(typed.screen) == d by {
      assert typed.screen[..0] == [];
    }
  }

  /** A unary key leaves its own symbol pending, so the equals key that follows always throws. */
  lemma EqualsAfterUnaryKeyThrows(s: State, operation: seq<char>, rt: Runtime)
    requires IsUnarySymbol(operation)
    requires PressUnaryOperationKey(s, operation, rt).thrown.None?
    ensures PressEqualsKey(PressUnaryOperationKey(s, operation, rt).next, rt).thrown.Some?
  {
  }

  /** The square root of any negative number on the screen shows `Error`. */
  lemma SquareRootOfNegativeShowsError(s: State, x: real, rt: Runtime)
    requires Parse(s.screen) == Some(Finite(x)) && x < 0.0
    ensures PressUnaryOperationKey(s, "√", rt) ==
      Outcome(s.(screen := ErrorText, latestValue := Finite(x), latestOperation := "√"), None)
  {
    assert FormatUnary("NaN") == ErrorText by {
      assert '.' !in ErrorText;
    }
  }

  /** The reciprocal of any zero on the screen shows `Infinity`, not `Error`. */
  lemma ReciprocalOfZeroShowsInfinity(s: State, rt: Runtime)
    requires Parse(s.screen) == Some(Zero)
    ensures PressUnaryOperationKey(s, "1/x", rt) ==
      Outcome(s.(screen := "Infinity", latestValue := Zero, latestOperation := "1/x"), None)
  {
    assert FormatUnary("Infinity") == "Infinity" by {
      assert '.' !in "Infinity";
    }
  }

  /** After the equals key, NaN and both infinities show as `Error`. */
  lemma NonFiniteResultShowsError(d: Double, rt: Runtime)
    requires !d.Finite?
    ensures FormatBinary(ToText(d, rt)) == ErrorText
  {
  }

  /**
   * The empty symbol is also the marker for "no operator": the operator key
   * stores it, which cancels the pending operation, and the next equals does
   * nothing when no operation is remembered.
   */
  lemma EmptyOperatorCancelsPending(s: State, v: Double, rt: Runtime)
    requires Parse(s.screen) == Some(v) && !HasRepeatMemory(s)
    ensures var o := PressBinaryOperationKey(s, "");
      o == Outcome(s.(latestValue := v, latestOperation := ""), None) &&
      PressEqualsKey(o.next, rt) == Outcome(o.next, None)
  {
  }

  /** An unknown operator is accepted by the operator key and rejected only by the equals key. */
  lemma UnknownOperatorRejectedAtEquals(s: State, operation: seq<char>, rt: Runtime)
    requires Parse(s.screen).Some?
    requires operation != "" && !IsBinarySymbol(NormalizeOperator(operation))
    ensures var o := PressBinaryOperationKey(s, operation);
      o.thrown.None? && PressEqualsKey(o.next, rt) == Outcome(o.next, Some(IllegalArgument))
  {
  }

  /** Once the screen shows `Error`, every key that reads the screen's value throws. */
  lemma ErrorScreenBlocksNumericKeys(s: State, d: Digit, operation: seq<char>, rt: Runtime)
    requires s.screen == ErrorText
    ensures PressDigitKey(s, d) == Outcome(s, Some(NumberFormat))
    ensures PressEqualsKey(s, rt) == Outcome(s, Some(NumberFormat))
    ensures PressBinaryOperationKey(s, operation) == Outcome(s, Some(NumberFormat))
    ensures PressUnaryOperationKey(s, operation, rt) == Outcome(s, Some(NumberFormat))
  {
    assert s.screen[0] == 'E';
  }
}
