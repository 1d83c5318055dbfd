/**
 * The three things the equals key can do once the screen holds a number and
 * the operator to apply is one it knows: apply the pending operator, divide
 * by zero, or repeat the remembered operation.
 */
module EqualsCases {
  import opened Wrappers
  import opened JavaDouble
  import opened NumberText
  import opened Display
  import opened CalculatorSpec

  /**
   * Equals with a pending operator: the screen shows the formatted result,
   * which becomes the pending value, the operator is consumed, and the
   * operator and the screen's value are remembered for a repeat.
   */
  lemma EqualsAppliesPendingOperation(s: State, v: Double, rt: Runtime)
    requires Parse(s.screen) == Some(v) && IsBinarySymbol(s.latestOperation)
    requires !(s.latestOperation == "/" && Same(v, Zero))
    ensures var r := ApplyBinary(s.latestOperation, s.latestValue, v);
      PressEqualsKey(s, rt) == Outcome(State(FormatBinary(ToText(r, rt)), r, "", v, s.latestOperation), None)
  {
  }

  /**
   * Dividing by zero shows `Error`, leaves NaN pending and forgets both the
   * pending and the remembered operator, so the next equals throws.
   */
  lemma EqualsDivisionByZero(s: State, v: Double, rt: Runtime)
    requires Parse(s.screen) == Some(v) && s.latestOperation == "/" && Same(v, Zero)
    ensures PressEqualsKey(s, rt) == Outcome(State(ErrorText, NaN, "", v, ""), None)
    ensures PressEqualsKey(PressEqualsKey(s, rt).next, rt).thrown == Some(NumberFormat)
  {
    assert ToText(NaN, rt) == "NaN";
    assert ErrorText[0] == 'E';
  }

  /**
   * Equals with no pending operator but a remembered one applies it to the
   * screen's value and the remembered operand, and keeps the memory; a
   * remembered division by zero shows `Error`.
   */
  lemma EqualsRepeatsRememberedOperation(s: State, v: Double, rt: Runtime)
    requires Parse(s.screen) == Some(v) && s.latestOperation == ""
    requires HasRepeatMemory(s) && IsBinarySymbol(s.lastOperator)
    ensures var o := PressEqualsKey(s, rt);
      o.thrown.None? && o.next.latestOperation == "" &&
      o.next.lastOperand == s.lastOperand && o.next.lastOperator == s.lastOperator
    ensures s.lastOperator == "/" && Same(s.lastOperand, Zero) ==>
      PressEqualsKey(s, rt).next == s.(screen := ErrorText, latestValue := NaN)
    ensures !(s.lastOperator == "/" && Same(s.lastOperand, Zero)) ==>
      var r := ApplyBinary(s.lastOperator, v, s.lastOperand);
      PressEqualsKey(s, rt).next == s.(screen := FormatBinary(ToText(r, rt)), latestValue := r)
  {
    assert ToText(NaN, rt) == "NaN";
  }
}
