/**
 * The calculator's five fields as one value, and each key as a function from
 * the state before the key to the state after it.  A key that makes Java throw
 * returns the exception together with the state the object is left in.
 */
module CalculatorSpec {
  import opened Wrappers
  import opened JavaDouble
  import opened NumberText
  import opened Display

  /**
   * `latestValue` and `latestOperation` hold the pending operand and operator
   * (`""` is none); `lastOperand` and `lastOperator` remember the last binary
   * operation for a repeated equals (NaN and `""` are none).
   */
  datatype State = State(
    screen: seq<char>,
    latestValue: Double,
    latestOperation: seq<char>,
    lastOperand: Double,
    lastOperator: seq<char>)

  /** A new calculator: the screen shows `0`, the Java default `0.0` is pending, nothing is remembered. */
  const Initial: State := State("0", Zero, "", NaN, "")

  datatype Exception = IllegalArgument | NumberFormat

  datatype Outcome = Outcome(next: State, thrown: Option<Exception>)

  /** Java's `latestValue == Double.parseDouble(screen)` when the parse succeeds. */
  predicate ShowsValue(screen: seq<char>, v: Double)
  {
    Parse(screen).Some? && Same(v, Parse(screen).value)
  }

  /** The digit key: a digit in 0..9 replaces `0` or the pending value, and otherwise is appended. */
  function PressDigitKey(s: State, digit: int): (r: Outcome)
    ensures r.thrown == Some(IllegalArgument) <==> digit < 0 || digit > 9
    ensures r.thrown == Some(NumberFormat) <==> 0 <= digit <= 9 && s.screen != "0" && Parse(s.screen).None?
    ensures r.thrown.Some? ==> r.next == s
    ensures r.next == s.(screen := r.next.screen)
    ensures r.thrown.None? && (s.screen == "0" || ShowsValue(s.screen, s.latestValue)) ==>
      r.next.screen == [DigitChar(digit)]
    ensures r.thrown.None? && !(s.screen == "0" || ShowsValue(s.screen, s.latestValue)) ==>
      r.next.screen == s.screen + [DigitChar(digit)]
  {
    if digit > 9 || digit < 0 then
      Outcome(s, Some(IllegalArgument))
    else if s.screen == "0" then
      Outcome(s.(screen := [DigitChar(digit)]), None)
    else
      match Parse(s.screen)
      case None => Outcome(s, Some(NumberFormat))
      case Some(v) =>
        var kept := if Same(s.latestValue, v) then [] else s.screen;
        Outcome(s.(screen := kept + [DigitChar(digit)]), None)
  }

  /** The clear key: a single full reset of the entry and the pending operation; the repeat memory stays. */
  function PressClearKey(s: State): (r: State)
    ensures r.screen == "0" && r.latestOperation == "" && r.latestValue == Zero
    ensures r.lastOperand == s.lastOperand && r.lastOperator == s.lastOperator
  {
    s.(screen := "0", latestOperation := "", latestValue := Zero)
  }

  /** `*` is accepted as another spelling of `x`; every other symbol is kept as it is. */
  function NormalizeOperator(operation: seq<char>): (op: seq<char>)
    ensures op == "x" <==> operation == "x" || operation == "*"
    ensures operation != "*" ==> op == operation
  {
    if operation == "*" then "x" else operation
  }

  /**
   * A binary operator key: it never changes the screen and never rejects the
   * symbol.  With an operator pending and the pending value still on the screen
   * it only swaps the operator; otherwise the screen's value becomes pending.
   */
  function PressBinaryOperationKey(s: State, operation: seq<char>): (r: Outcome)
    ensures r.thrown != Some(IllegalArgument)
    ensures r.thrown == Some(NumberFormat) <==> Parse(s.screen).None?
    ensures r.thrown.Some? ==> r.next == s
    ensures r.next.screen == s.screen
    ensures r.next.lastOperand == s.lastOperand && r.next.lastOperator == s.lastOperator
    ensures r.thrown.None? ==> r.next.latestOperation == NormalizeOperator(operation)
    ensures r.thrown.None? && s.latestOperation != "" && ShowsValue(s.screen, s.latestValue) ==>
      r.next.latestValue == s.latestValue
    ensures r.thrown.None? && !(s.latestOperation != "" && ShowsValue(s.screen, s.latestValue)) ==>
      Some(r.next.latestValue) == Parse(s.screen)
  {
    var op := NormalizeOperator(operation);
    match Parse(s.screen)
    case None => Outcome(s, Some(NumberFormat))
    case Some(current) =>
      if s.latestOperation != "" && Same(s.latestValue, current) then
        Outcome(s.(latestOperation := op), None)
      else
        Outcome(s.(latestValue := current, latestOperation := op), None)
  }

  predicate IsUnarySymbol(operation: seq<char>)
  {
    operation == "√" || operation == "%" || operation == "1/x"
  }

  /** Square root, percent (a hundredth) and reciprocal. */
  function ApplyUnary(operation: seq<char>, v: Double, rt: Runtime): (r: Double)
    requires IsUnarySymbol(operation)
    ensures operation == "√" && v.Finite? && v.value < 0.0 ==> r.NaN?
    ensures operation == "√" && v.Finite? && v.value >= 0.0 ==> r == Finite(rt.sqrt(v.value))
    ensures operation == "1/x" && IsZero(v) ==> r == Infinity(false)
    ensures operation == "1/x" && v.Finite? && v.value != 0.0 ==> r == Finite(1.0 / v.value)
    ensures operation == "%" && v.Finite? ==> r == Finite(v.value / 100.0)
  {
    if operation == "√" then Sqrt(v, rt)
    else if operation == "%" then Div(v, Finite(100.0))
    else Div(Finite(1.0), v)
  }

  /**
   * A unary key: the screen's value and the symbol are stored as the pending
   * operand and operator before the symbol is checked, then the screen shows
   * the result, formatted without the `.0` and infinity rules.
   */
  function PressUnaryOperationKey(s: State, operation: seq<char>, rt: Runtime): (r: Outcome)
    ensures r.thrown == Some(NumberFormat) <==> Parse(s.screen).None?
    ensures r.thrown == Some(IllegalArgument) <==> Parse(s.screen).Some? && !IsUnarySymbol(operation)
    ensures r.thrown == Some(NumberFormat) ==> r.next == s
    ensures r.thrown != Some(NumberFormat) ==>
      Some(r.next.latestValue) == Parse(s.screen) && r.next.latestOperation == operation
    ensures r.thrown == Some(IllegalArgument) ==> r.next.screen == s.screen
    ensures r.thrown.None? ==>
      r.next.screen == FormatUnary(ToText(ApplyUnary(operation, Parse(s.screen).value, rt), rt))
    ensures r.next.lastOperand == s.lastOperand && r.next.lastOperator == s.lastOperator
  {
    match Parse(s.screen)
    case None => Outcome(s, Some(NumberFormat))
    case Some(v) =>
      var stored := s.(latestValue := v, latestOperation := operation);
      if !IsUnarySymbol(operation) then
        Outcome(stored, Some(IllegalArgument))
      else
        Outcome(stored.(screen := FormatUnary(ToText(ApplyUnary(operation, v, rt), rt))), None)
  }

  /** The decimal point key: appends a point unless the screen already has one. */
  function PressDotKey(s: State): (r: State)
    ensures r == s.(screen := r.screen)
    ensures '.' in r.screen
    ensures '.' in s.screen ==> r == s
    ensures '.' !in s.screen ==> r.screen == s.screen + "."
  {
    if '.' !in s.screen then s.(screen := s.screen + ".") else s
  }

  /** The sign key: a textual toggle of a leading minus. */
  function PressNegativeKey(s: State): (r: State)
    ensures r == s.(screen := r.screen)
    ensures |s.screen| > 0 && s.screen[0] == '-' ==> s.screen == "-" + r.screen
    ensures !(|s.screen| > 0 && s.screen[0] == '-') ==> r.screen == "-" + s.screen
  {
    if |s.screen| > 0 && s.screen[0] == '-' then s.(screen := s.screen[1..])
    else s.(screen := "-" + s.screen)
  }

  predicate IsBinarySymbol(operation: seq<char>)
  {
    operation == "+" || operation == "-" || operation == "x" || operation == "/"
  }

  function ApplyBinary(operation: seq<char>, a: Double, b: Double): (r: Double)
    requires IsBinarySymbol(operation)
    ensures a.Finite? && b.Finite? && operation != "/" ==> r.Finite?
    ensures a.Finite? && b.Finite? && operation == "+" ==> r.value == a.value + b.value
    ensures a.Finite? && b.Finite? && operation == "-" ==> r.value == a.value - b.value
    ensures a.Finite? && b.Finite? && operation == "x" ==> r.value == a.value * b.value
    ensures a.Finite? && b.Finite? && operation == "/" && b.value != 0.0 ==> r == Finite(a.value / b.value)
  {
    if operation == "+" then Add(a, b)
    else if operation == "-" then Sub(a, b)
    else if operation == "x" then Mul(a, b)
    else Div(a, b)
  }

  /** A repeated equals is possible: an operator and a (non-NaN) operand are remembered. */
  predicate HasRepeatMemory(s: State)
  {
    s.lastOperator != "" && !s.lastOperand.NaN?
  }

  /**
   * The equals key.  With an operator pending it computes `latestValue OP
   * screen`, remembers the operator and the screen's value for a repeat and
   * consumes the operator; a division by zero yields NaN and forgets the
   * operator.  With none pending but a remembered operation it computes
   * `screen OP lastOperand`.  Otherwise nothing changes.
   */
  function PressEqualsKey(s: State, rt: Runtime): (r: Outcome)
    ensures r.thrown.Some? ==> r.next == s
    ensures r.thrown == Some(NumberFormat) <==> Parse(s.screen).None?
    ensures r.thrown == Some(IllegalArgument) <==>
      Parse(s.screen).Some? &&
      if s.latestOperation != "" then !IsBinarySymbol(s.latestOperation)
      else HasRepeatMemory(s) && !IsBinarySymbol(s.lastOperator)
    ensures r.thrown.None? ==> r.next.latestOperation == ""
    ensures r.thrown.None? && (s.latestOperation != "" || HasRepeatMemory(s)) ==>
      r.next.screen == FormatBinary(ToText(r.next.latestValue, rt))
    ensures r.thrown.None? && s.latestOperation == "" && !HasRepeatMemory(s) ==> r.next == s
  {
    match Parse(s.screen)
    case None => Outcome(s, Some(NumberFormat))
    case Some(current) =>
      if s.latestOperation != "" then
        if !IsBinarySymbol(s.latestOperation) then
          Outcome(s, Some(IllegalArgument))
        else
          var divisionByZero := s.latestOperation == "/" && Same(current, Zero);
          var result := if divisionByZero then NaN else ApplyBinary(s.latestOperation, s.latestValue, current);
          var remembered := if divisionByZero then "" else s.latestOperation;
          Outcome(State(FormatBinary(ToText(result, rt)), result, "", current, remembered), None)
      else if HasRepeatMemory(s) then
        if !IsBinarySymbol(s.lastOperator) then
          Outcome(s, Some(IllegalArgument))
        else
          var divisionByZero := s.lastOperator == "/" && Same(s.lastOperand, Zero);
          var result := if divisionByZero then NaN else ApplyBinary(s.lastOperator, current, s.lastOperand);
          Outcome(s.(screen := FormatBinary(ToText(result, rt)), latestValue := result), None)
      else
        Outcome(s, None)
  }

  /** One key press, as a caller of the public methods would make it. */
  datatype Key =
    | DigitKey(digit: int)
    | ClearKey
    | BinaryKey(operation: seq<char>)
    | UnaryKey(operation: seq<char>)
    | DotKey
    | NegativeKey
    | EqualsKey

  function Press(s: State, k: Key, rt: Runtime): Outcome
  {
    match k
    case DigitKey(d) => PressDigitKey(s, d)
    case ClearKey => Outcome(PressClearKey(s), None)
    case BinaryKey(op) => PressBinaryOperationKey(s, op)
    case UnaryKey(op) => PressUnaryOperationKey(s, op, rt)
    case DotKey => Outcome(PressDotKey(s), None)
    case NegativeKey => Outcome(PressNegativeKey(s), None)
    case EqualsKey => PressEqualsKey(s, rt)
  }

  /** A sequence of key presses; the first exception ends it. */
  function Run(s: State, keys: seq<Key>, rt: Runtime): Outcome
    decreases |keys|
  {
    if keys == [] then Outcome(s, None)
    else
      var o := Press(s, keys[0], rt);
      if o.thrown.Some? then o else Run(o.next, keys[1..], rt)
  }
}
