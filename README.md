# Retro calculator, modelled in Dafny

The system is a small desktop calculator. One Java class, `Calculator`, holds
the display text and four fields of operand and operator memory. It has one
method per key:
- digit
- clear
- binary operator (`+ - x /`, with `*` accepted for `x`)
- unary operator (`√`, `%`, `1/x`)
- decimal point
- sign
- equals, which repeats the last operation when pressed again

After every key the display shows a text. A computed result is post-processed
before it is shown, and the two keys that compute do it differently:
- After the equals key, `NaN` and infinities become `Error` and a trailing `.0`
  is dropped.
- After a unary key, only `NaN` becomes `Error`.

In both cases a text with a point that is longer than 11 characters is then
cut to its first 10.

The Dafny project models that class key by key:

- `wrappers.dfy` (`Wrappers`): `Option`.
- `java_double.dfy` (`JavaDouble`): Java's `double` as a finite exact real, a
  signed infinity or NaN. It gives the IEEE special-value rules for `+ - * /`,
  square root and Java's `==`. `Runtime` carries the two library routines
  whose exact output is floating-point detail: the text `Double.toString` gives
  for a finite value, and `Math.sqrt` of a non-negative value.
- `number_text.dfy` (`NumberText`): `Double.parseDouble` on the texts a screen
  can hold. It returns `None` where Java throws `NumberFormatException`, for
  example on `Error`.
- `display.dfy` (`Display`): the two inline formatting sequences. The equals
  key uses `FormatBinary`. The unary keys use `FormatUnary`, which only
  replaces `NaN`. Lemmas give each one's shape: a prefix, the width bound and
  no new point.
- `calculator_spec.dfy` (`CalculatorSpec`): the five fields as a `State`, and
  each key as a function to an `Outcome`. An `Outcome` is the new state plus
  the exception Java would throw, if any. `Run` presses a sequence of keys and
  stops at the first exception.
- `calculator.dfy` (`Calculator`): the class itself. Its fields are updated in
  place, statement by statement as in Java. Each method returns the exception
  it would throw in `thrown`. Its `ensures` states the new fields and `thrown`
  as the key's function of the old fields.
- `equals_cases.dfy` (`EqualsCases`): the three outcomes of the equals key on a
  numeric screen with a known operator.
- `calculator_properties.dfy` (`CalculatorProperties`): properties that span
  several keys. These cover the at-most-one-point invariant over any key
  sequence, typed digits accumulating, the repeat memory, and the failures the
  code produces.
- `scenarios.dfy` (`Scenarios`): the key sequences of the JUnit tests, plus
  five sequences that show the code's quirks. Each ends on the screen that
  its test, or the code, produces.

The code departs from the class's documentation comments in several places.
The model follows the code:
- The class comment (`Calculator.java:6`) limits the screen to ten digits
  plus a point. The digit key appends its digit with no limit.
- The digit key's comment (`Calculator.java:32-33`) says the digit is always
  shown or appended. After `Error` is shown, the key throws
  `NumberFormatException` instead, because it parses the screen. The operator,
  unary and equals keys throw too.
- The digit key replaces the screen whenever the screen shows the pending
  value. So `5 + 5 5` shows `5`. On a new calculator `0 . 5` also shows `5`,
  because `0.` reads as the pending value `0.0`.
- The clear key's comment (`Calculator.java:45-50`) describes two stages. The
  code has one: it resets the screen, the pending operator and the pending
  value, and keeps the repeat memory.
- The operator key's comment (`Calculator.java:63-64`) says a second operator
  after a new number shows the intermediate result. The code only makes the
  screen's value pending, so `2 + 3 + 4 =` shows `7`.
- A non-empty unknown binary operator symbol is accepted by the operator key.
  It is rejected with `IllegalArgumentException` only at the equals key.
- The empty symbol is also the marker for "no operator". The operator key
  stores it like any other symbol, which cancels the pending operation and
  makes the screen's value pending. The next equals then repeats the
  remembered operation, or does nothing.

Other behaviour of the code that the model captures:
- The unary formatting replaces only `NaN`. So the reciprocal of zero shows
  `Infinity`, and a `2.0` from a unary key keeps its `.0`.
- A unary key stores its own symbol as the pending operator. The equals key
  that follows therefore always throws.
- An unknown unary symbol throws only after the screen's value and the symbol
  have been stored.

## Model

| member | source | states |
|---|---|---|
| JavaDouble.Same | src/main/java/htw/berlin/prog2/ha1/Calculator.java:39 | Java's `==` on doubles holds exactly for equal values other than NaN; NaN equals nothing |
| JavaDouble.Add | src/main/java/htw/berlin/prog2/ha1/Calculator.java:146 | the sum is NaN exactly when an operand is NaN or the operands are opposite infinities; finite operands give their exact sum; an infinity plus a finite value or the same infinity is that infinity, in either order |
| JavaDouble.Sub | src/main/java/htw/berlin/prog2/ha1/Calculator.java:147 | the difference is NaN exactly when an operand is NaN or both are the same infinity; finite operands give their exact difference; an infinity minus anything else that is not NaN is that infinity; a finite value minus an infinity is the opposite infinity |
| JavaDouble.Mul | src/main/java/htw/berlin/prog2/ha1/Calculator.java:148 | the product is NaN exactly when an operand is NaN or an infinity meets a zero; finite operands give their exact product; an infinity times an infinity or a nonzero value is the infinity whose sign is the product of the signs |
| JavaDouble.Div | src/main/java/htw/berlin/prog2/ha1/Calculator.java:155 | the quotient is NaN exactly for a NaN operand, two infinities or zero over zero; it is infinite exactly for an infinity over a finite value or a nonzero value over zero, with the sign the signs of the operands give; a finite value over an infinity is zero; finite values over a nonzero divisor give the exact quotient |
| JavaDouble.Sqrt | src/main/java/htw/berlin/prog2/ha1/Calculator.java:95 | the root is NaN exactly for NaN, negative infinity and negative finite values; the root of positive infinity is positive infinity; a non-negative finite value gets the runtime's root |
| JavaDouble.ToText | src/main/java/htw/berlin/prog2/ha1/Calculator.java:100 | `Double.toString` writes `NaN` exactly for NaN, `Infinity` and `-Infinity` for the two infinities, none of them with a point, and the runtime's text for a finite value |
| NumberText.DigitChar | src/main/java/htw/berlin/prog2/ha1/Calculator.java:41 | the character appended for a digit key is a decimal digit whose value is the key's digit |
| NumberText.Parse | src/main/java/htw/berlin/prog2/ha1/Calculator.java:70 | a nonempty text of decimal digits parses to its decimal value; a text that starts with a character other than a digit, sign or point and is not `NaN` or `Infinity` (such as `Error`) does not parse |
| NumberText.MinusNegates | src/main/java/htw/berlin/prog2/ha1/Calculator.java:70 | a minus written before a text without a sign reads as the negation of that text's value, and as nothing when the text does not parse |
| NumberText.ToggledSignNegates | src/main/java/htw/berlin/prog2/ha1/Calculator.java:125 | removing a leading minus, or writing one before a text without a sign, turns a text that reads as a number into one that reads as its negation |
| Display.CutToWidthShape | src/main/java/htw/berlin/prog2/ha1/Calculator.java:102 | the width cut yields a prefix of its input, leaves texts without a point or of at most 11 characters alone, cuts a longer text with a point to exactly 10 characters, and adds no point |
| Display.StripPointZeroShape | src/main/java/htw/berlin/prog2/ha1/Calculator.java:162 | a text ending in `.0` loses exactly those two characters, any other text is left unchanged, and no point is added |
| Display.FormatUnaryShape | src/main/java/htw/berlin/prog2/ha1/Calculator.java:100-102 | after a unary key `NaN` shows as `Error`; any other text shows unchanged when it has no point or at most 11 characters, and as its first 10 characters otherwise; the screen never shows `NaN`; at most one point stays at most one point |
| Display.FormatBinaryShape | src/main/java/htw/berlin/prog2/ha1/Calculator.java:160-163 | after equals `NaN` and both infinities show as `Error`; an integral `d.0` shows as `d`; any other text not ending in `.0` shows unchanged when it has no point or at most 11 characters, and as its first 10 characters otherwise; a shown point means at most 11 characters; at most one point stays at most one point |
| Display.IntegralTextShowsDigits | src/main/java/htw/berlin/prog2/ha1/Calculator.java:160-163 | a result whose text is digits followed by `.0` shows as just the digits |
| CalculatorSpec.PressDigitKey | src/main/java/htw/berlin/prog2/ha1/Calculator.java:36-42 | `IllegalArgumentException` exactly for a digit outside 0..9, `NumberFormatException` exactly for a valid digit on an unparsable screen other than `0`; a throw changes nothing; only the screen changes; the screen becomes the lone digit when it was `0` or shows the pending value, and otherwise gets the digit appended |
| CalculatorSpec.PressClearKey | src/main/java/htw/berlin/prog2/ha1/Calculator.java:52-56 | the screen becomes `0`, no operator is pending and the pending value is zero, while the repeat memory is kept |
| CalculatorSpec.NormalizeOperator | src/main/java/htw/berlin/prog2/ha1/Calculator.java:68 | the result is `x` exactly for `x` and `*`; every other symbol is kept unchanged |
| CalculatorSpec.PressBinaryOperationKey | src/main/java/htw/berlin/prog2/ha1/Calculator.java:67-82 | never an `IllegalArgumentException`, whatever the symbol; `NumberFormatException` exactly when the screen does not parse, changing nothing; the screen and the repeat memory never change; the normalised symbol becomes pending; with an operator pending and the pending value on the screen the pending value stays, otherwise the screen's value becomes pending |
| CalculatorSpec.ApplyUnary | src/main/java/htw/berlin/prog2/ha1/Calculator.java:94-99 | the root of a non-negative value is the runtime's root and of a negative value NaN; percent of a finite value is its hundredth; the reciprocal of a nonzero finite value is its exact reciprocal, and of zero positive infinity |
| CalculatorSpec.PressUnaryOperationKey | src/main/java/htw/berlin/prog2/ha1/Calculator.java:91-104 | `NumberFormatException` exactly when the screen does not parse, changing nothing; `IllegalArgumentException` exactly for a parsable screen and an unknown symbol, after the screen's value and the symbol are already stored and with the screen unchanged; otherwise the screen's value and the symbol become pending and the screen shows the formatted result of the operation on that value; the repeat memory never changes |
| CalculatorSpec.PressDotKey | src/main/java/htw/berlin/prog2/ha1/Calculator.java:113-115 | only the screen changes; afterwards it holds a point; a screen with a point is left alone and one without gets `.` appended |
| CalculatorSpec.PressNegativeKey | src/main/java/htw/berlin/prog2/ha1/Calculator.java:124-126 | only the screen changes; a leading minus is removed, and a screen without one gets a minus in front |
| CalculatorSpec.ApplyBinary | src/main/java/htw/berlin/prog2/ha1/Calculator.java:145-158 | on finite operands `+`, `-` and `x` give the exact sum, difference and product, and `/` by a nonzero divisor gives the exact quotient |
| CalculatorSpec.PressEqualsKey | src/main/java/htw/berlin/prog2/ha1/Calculator.java:137-201 | a throw changes nothing; `NumberFormatException` exactly when the screen does not parse; `IllegalArgumentException` exactly when the pending operator, or with none pending the remembered one, is not one of `+ - x /`; afterwards no operator is pending; when an operation was applied the screen shows the formatted text of the new pending value; with no pending and no remembered operation nothing changes |
| Calculator.Calculator.constructor | src/main/java/htw/berlin/prog2/ha1/Calculator.java:11-19 | a new calculator shows `0`, has the Java default `0.0` pending, no pending operator, a NaN remembered operand and no remembered operator |
| Calculator.Calculator.ReadScreen | src/main/java/htw/berlin/prog2/ha1/Calculator.java:25-27 | returns the screen |
| Calculator.Calculator.PressDigitKey | src/main/java/htw/berlin/prog2/ha1/Calculator.java:36-42 | the fields after the in-place updates and the exception thrown are those of the digit key's function on the fields before |
| Calculator.Calculator.PressClearKey | src/main/java/htw/berlin/prog2/ha1/Calculator.java:52-56 | the fields after the updates are those of the clear key's function |
| Calculator.Calculator.PressBinaryOperationKey | src/main/java/htw/berlin/prog2/ha1/Calculator.java:67-82 | the fields after the updates and the exception thrown are those of the operator key's function |
| Calculator.Calculator.PressUnaryOperationKey | src/main/java/htw/berlin/prog2/ha1/Calculator.java:91-104 | the fields after the updates, including the stores made before an unknown symbol throws, and the exception are those of the unary key's function |
| Calculator.Calculator.PressDotKey | src/main/java/htw/berlin/prog2/ha1/Calculator.java:113-115 | the fields after the update are those of the point key's function |
| Calculator.Calculator.PressNegativeKey | src/main/java/htw/berlin/prog2/ha1/Calculator.java:124-126 | the fields after the update are those of the sign key's function |
| Calculator.Calculator.PressEqualsKey | src/main/java/htw/berlin/prog2/ha1/Calculator.java:137-201 | the fields after the updates on every branch, including the `Error` written before a division by zero, and the exception are those of the equals key's function |
| EqualsCases.EqualsAppliesPendingOperation | src/main/java/htw/berlin/prog2/ha1/Calculator.java:144-172 | with a known operator pending and no division by zero, the screen shows the formatted result, the result becomes pending, the operator is consumed, and the operator and the screen's value become the repeat memory |
| EqualsCases.EqualsDivisionByZero | src/main/java/htw/berlin/prog2/ha1/Calculator.java:149-172 | dividing by zero shows `Error`, leaves NaN pending, remembers the zero, and leaves neither a pending nor a remembered operator, so the next equals throws `NumberFormatException` |
| EqualsCases.EqualsRepeatsRememberedOperation | src/main/java/htw/berlin/prog2/ha1/Calculator.java:176-200 | with no operator pending and a known remembered one, equals applies it to the screen's value and the remembered operand, makes the result pending and keeps the repeat memory; a remembered division by zero shows `Error` with NaN pending |
| CalculatorProperties.NegativeKeyInvolution | src/main/java/htw/berlin/prog2/ha1/Calculator.java:124-126 | two sign keys restore the state whenever the screen does not start with two minus signs |
| CalculatorProperties.DotKeyIdempotent | src/main/java/htw/berlin/prog2/ha1/Calculator.java:113-115 | a second point key changes nothing |
| CalculatorProperties.NegativeKeyNegatesValue | src/main/java/htw/berlin/prog2/ha1/Calculator.java:117-126 | on any screen without a leading `+` that reads as a number, the sign key leaves a screen that reads as its negation: a positive screen turns negative and a negative one positive |
| CalculatorProperties.ResultTextHasAtMostOneDot | src/main/java/htw/berlin/prog2/ha1/Calculator.java:100 | when `Double.toString` writes at most one point for finite values, the text of any double has at most one point |
| CalculatorProperties.DigitKeyKeepsAtMostOneDot | src/main/java/htw/berlin/prog2/ha1/Calculator.java:36-42 | the digit key keeps a screen with at most one point at most one point |
| CalculatorProperties.UnaryKeyKeepsAtMostOneDot | src/main/java/htw/berlin/prog2/ha1/Calculator.java:91-104 | the unary keys keep at most one point on the screen, given that `Double.toString` writes at most one point for a finite value |
| CalculatorProperties.EqualsKeyKeepsAtMostOneDot | src/main/java/htw/berlin/prog2/ha1/Calculator.java:137-201 | the equals key keeps at most one point on the screen, given that `Double.toString` writes at most one point for a finite value |
| CalculatorProperties.NegativeKeyKeepsDots | src/main/java/htw/berlin/prog2/ha1/Calculator.java:124-126 | the sign key keeps the number of points on the screen |
| CalculatorProperties.KeyKeepsAtMostOneDot | src/main/java/htw/berlin/prog2/ha1/Calculator.java:36-201 | every key keeps at most one point on the screen, given that `Double.toString` writes at most one point for a finite value |
| CalculatorProperties.RunKeepsAtMostOneDot | src/main/java/htw/berlin/prog2/ha1/Calculator.java:36-201 | any sequence of keys keeps at most one point on the screen, given that `Double.toString` writes at most one point for a finite value |
| CalculatorProperties.ReachableScreenHasAtMostOneDot | src/main/java/htw/berlin/prog2/ha1/Calculator.java:6 | no screen a new calculator reaches holds two decimal points, given that `Double.toString` writes at most one point for a finite value |
| CalculatorProperties.DigitAppends | src/main/java/htw/berlin/prog2/ha1/Calculator.java:39-41 | while a number without a leading zero is being typed and the pending value is below one, a digit key appends its digit and typing stays in progress |
| CalculatorProperties.TypingAppends | src/main/java/htw/berlin/prog2/ha1/Calculator.java:39-41 | while typing is in progress, any sequence of digit keys appends exactly those digits, left to right, and throws nothing |
| CalculatorProperties.TypingAfterClear | src/main/java/htw/berlin/prog2/ha1/Calculator.java:36-56 | after the clear key, digits typed without a leading zero appear on the screen verbatim |
| CalculatorProperties.SecondOperatorReplacesFirst | src/main/java/htw/berlin/prog2/ha1/Calculator.java:72-77 | a second operator key in a row only replaces the pending operator |
| CalculatorProperties.RepeatedEqualsReappliesOperation | src/main/java/htw/berlin/prog2/ha1/Calculator.java:144-200 | the first equals remembers the operator and the screen's value and makes the result pending; the next equals applies the same operator and operand to what the screen then shows |
| CalculatorProperties.ClearKeepsRepeatMemory | src/main/java/htw/berlin/prog2/ha1/Calculator.java:52-56 | after clear and one digit, equals applies the remembered operation to that digit |
| CalculatorProperties.EqualsAfterUnaryKeyThrows | src/main/java/htw/berlin/prog2/ha1/Calculator.java:144-157 | after a unary key that succeeded, the equals key always throws, because the unary symbol (stored at line 93) is pending |
| CalculatorProperties.SquareRootOfNegativeShowsError | src/main/java/htw/berlin/prog2/ha1/Calculator.java:95-101 | the square root of any screen that reads as a negative number shows `Error`, with that number and `√` left pending |
| CalculatorProperties.ReciprocalOfZeroShowsInfinity | src/main/java/htw/berlin/prog2/ha1/Calculator.java:97-102 | the reciprocal of a screen that reads as positive zero shows `Infinity`, not `Error` |
| CalculatorProperties.NonFiniteResultShowsError | src/main/java/htw/berlin/prog2/ha1/Calculator.java:160-161 | after the equals key, a NaN or infinite result shows as `Error` |
| CalculatorProperties.EmptyOperatorCancelsPending | src/main/java/htw/berlin/prog2/ha1/Calculator.java:74-81 | the empty operator symbol cancels the pending operation and makes the screen's value pending; with no remembered operation the next equals throws nothing and changes nothing |
| CalculatorProperties.UnknownOperatorRejectedAtEquals | src/main/java/htw/berlin/prog2/ha1/Calculator.java:67-82 | an unknown operator symbol is accepted by the operator key, and the equals key that follows throws `IllegalArgumentException` (line 157) and changes nothing |
| CalculatorProperties.ErrorScreenBlocksNumericKeys | src/main/java/htw/berlin/prog2/ha1/Calculator.java:36-141 | once the screen shows `Error`, the digit, equals, operator and unary keys throw `NumberFormatException` and change nothing |
| Scenarios.TwentyPlusTwenty | src/test/java/htw/berlin/prog2/ha1/CalculatorTest.java:13-27 | `2 0 + 2 0 =` throws nothing and shows `40` |
| Scenarios.SquareRootOfTwo | src/test/java/htw/berlin/prog2/ha1/CalculatorTest.java:31-41 | `2 √` shows `1.41421356`, the root's text cut to ten characters |
| Scenarios.DivisionByZero | src/test/java/htw/berlin/prog2/ha1/CalculatorTest.java:45-57 | `7 / 0 =` shows `Error` |
| Scenarios.SquareRootOfNegative | src/test/java/htw/berlin/prog2/ha1/CalculatorTest.java:61-72 | `7 +/- √` shows `Error` |
| Scenarios.MultipleDecimalDots | src/test/java/htw/berlin/prog2/ha1/CalculatorTest.java:76-89 | `1 . 7 . 8` shows `1.78` |
| Scenarios.NineMinusFour | src/test/java/htw/berlin/prog2/ha1/CalculatorTest.java:92-101 | `9 - 4 =` shows `5` |
| Scenarios.RepeatedEquals | src/test/java/htw/berlin/prog2/ha1/CalculatorTest.java:105-118 | `2 + 3 = =` shows `8` |
| Scenarios.ChangedOperator | src/test/java/htw/berlin/prog2/ha1/CalculatorTest.java:121-134 | `7 + * 3 =` shows `21` |
| Scenarios.SquareRootOfFour | src/main/java/htw/berlin/prog2/ha1/Calculator.java:100-102 | `4 √` shows `2.0`: the unary formatting keeps the `.0` |
| Scenarios.DigitEqualToPendingValueRestarts | src/main/java/htw/berlin/prog2/ha1/Calculator.java:39 | `5 + 5 5` shows `5`, not `55` |
| Scenarios.ReciprocalOfZero | src/main/java/htw/berlin/prog2/ha1/Calculator.java:97-102 | `0 1/x` shows `Infinity`, not `Error` |
| Scenarios.SecondOperatorComputesNothing | src/main/java/htw/berlin/prog2/ha1/Calculator.java:79-81 | `2 + 3 + 4 =` shows `7`, not `9`: the second operator key shows no intermediate result |
| Scenarios.ZeroPointFiveShowsFive | src/main/java/htw/berlin/prog2/ha1/Calculator.java:39 | `0 . 5` on a new calculator shows `5`, not `0.5` |

## Left out

- JavaDouble.Add: finite values are exact reals. Binary64 rounding, overflow to an infinity and underflow are not modelled, and the same holds for `Sub`, `Mul`, `Div` and `Negate`.
- JavaDouble.Div: a zero divisor counts as positive zero. Java's negative zero is not modelled, so `1 / -0.0` giving `-Infinity` is not captured.
- ReciprocalOfZeroShowsInfinity: negative zero is not modelled. A screen `-0` reads as the same zero, so the lemma also covers `0 +/- 1/x`, where Java shows `-Infinity` rather than `Infinity`.
- `Double.toString` on a finite value, and `Math.sqrt` on a non-negative finite value, are parameters (`Runtime`). The scenarios state the texts and roots they rely on as preconditions.
- NumberText.Parse: `Double.parseDouble`'s trimming of surrounding whitespace, hexadecimal literals and `f`/`d` suffixes are not modelled. Decimal values with an exponent are exact.
- Exceptions are returned in `thrown` rather than raised. `Run` stops at the first one, as an uncaught exception would end a caller.
- Operation strings are never `null` in the model. The `null` checks at `Calculator.java:138-139` can matter only after a `null` argument, and a `switch` on a `null` unary symbol is not modelled.
- The two-stage clear described at `Calculator.java:44-51` has no code behind it. Clear is modelled as implemented.
