/**
 * The calculator object.  Each key method updates the five fields in place,
 * statement by statement as the Java class does, and reports an exception
 * through `thrown` instead of raising it.  Each method's contract ties the new
 * fields to the key's function in CalculatorSpec.
 */
module Calculator {
  import opened Wrappers
  import opened JavaDouble
  import opened NumberText
  import opened Display
  import opened CalculatorSpec

  class Calculator {
    var screen: seq<char>
    var latestValue: Double
    var latestOperation: seq<char>
    var lastOperand: Double
    var lastOperator: seq<char>

    /** `Double.toString` and `Math.sqrt`, which the key methods call. */
    const rt: Runtime

    /** The five fields as one value. */
    function Fields(): State
      reads this
    {
      State(screen, latestValue, latestOperation, lastOperand, lastOperator)
    }

    constructor (rt: Runtime)
      ensures Fields() == Initial && this.rt == rt
    {
      screen := "0";
      latestValue := Zero;
      latestOperation := "";
      lastOperand := NaN;
      lastOperator := "";
      this.rt := rt;
    }

    method ReadScreen() returns (text: seq<char>)
      ensures text == screen
    {
      text := screen;
    }

    method PressDigitKey(digit: int) returns (thrown: Option<Exception>)
      modifies this
      ensures Outcome(Fields(), thrown) == CalculatorSpec.PressDigitKey(old(Fields()), digit)
    {
      if digit > 9 || digit < 0 {
        return Some(IllegalArgument);
      }
      if screen == "0" {
        screen := "";
      } else {
        var parsed := Parse(screen);
        if parsed.None? {
          return Some(NumberFormat);
        }
        if Same(latestValue, parsed.value) {
          screen := "";
        }
      }
      screen := screen + [DigitChar(digit)];
      return None;
    }

    method PressClearKey()
      modifies this
      ensures Fields() == CalculatorSpec.PressClearKey(old(Fields()))
    {
      screen := "0";
      latestOperation := "";
      latestValue := Zero;
    }

    method PressBinaryOperationKey(operation: seq<char>) returns (thrown: Option<Exception>)
      modifies this
      ensures Outcome(Fields(), thrown) == CalculatorSpec.PressBinaryOperationKey(old(Fields()), operation)
    {
      var op := operation;
      if op == "*" {
        op := "x";
      }
      var parsed := Parse(screen);
      if parsed.None? {
        return Some(NumberFormat);
      }
      var current := parsed.value;
      if latestOperation != "" && Same(latestValue, current) {
        latestOperation := op;
        return None;
      }
      latestValue := current;
      latestOperation := op;
      return None;
    }

    method PressUnaryOperationKey(operation: seq<char>) returns (thrown: Option<Exception>)
      modifies this
      ensures Outcome(Fields(), thrown) == CalculatorSpec.PressUnaryOperationKey(old(Fields()), operation, rt)
    {
      var parsed := Parse(screen);
      if parsed.None? {
        return Some(NumberFormat);
      }
      latestValue := parsed.value;
      latestOperation := operation;
      var result: Double;
      if operation == "√" {
        result := Sqrt(parsed.value, rt);
      } else if operation == "%" {
        result := Div(parsed.value, Finite(100.0));
      } else if operation == "1/x" {
        result := Div(Finite(1.0), parsed.value);
      } else {
        return Some(IllegalArgument);
      }
      screen := FormatUnary(ToText(result, rt));
      return None;
    }

    method PressDotKey()
      modifies this
      ensures Fields() == CalculatorSpec.PressDotKey(old(Fields()))
    {
      if '.' !in screen {
        screen := screen + ".";
      }
    }

    method PressNegativeKey()
      modifies this
      ensures Fields() == CalculatorSpec.PressNegativeKey(old(Fields()))
    {
      screen := if |screen| > 0 && screen[0] == '-' then screen[1..] else "-" + screen;
    }

    method PressEqualsKey() returns (thrown: Option<Exception>)
      modifies this
      ensures Outcome(Fields(), thrown) == CalculatorSpec.PressEqualsKey(old(Fields()), rt)
    {
      var parsed := Parse(screen);
      if parsed.None? {
        return Some(NumberFormat);
      }
      var current := parsed.value;
      if latestOperation != "" {
        var result: Double;
        if latestOperation == "+" {
          result := Add(latestValue, current);
        } else if latestOperation == "-" {
          result := Sub(latestValue, current);
        } else if latestOperation == "x" {
          result := Mul(latestValue, current);
        } else if latestOperation == "/" {
          if Same(current, Zero) {
            screen := ErrorText;
            latestOperation := "";
            result := NaN;
          } else {
            result := Div(latestValue, current);
          }
        } else {
          return Some(IllegalArgument);
        }
        screen := FormatBinary(ToText(result, rt));
        lastOperand := current;
        lastOperator := latestOperation;
        latestValue := result;
        latestOperation := "";
        return None;
      }
      if lastOperator != "" && !lastOperand.NaN? {
        var base := current;
        var result: Double;
        if lastOperator == "+" {
          result := Add(base, lastOperand);
        } else if lastOperator == "-" {
          result := Sub(base, lastOperand);
        } else if lastOperator == "x" {
          result := Mul(base, lastOperand);
        } else if lastOperator == "/" {
          if Same(lastOperand, Zero) {
            screen := ErrorText;
            result := NaN;
          } else {
            result := Div(base, lastOperand);
          }
        } else {
          return Some(IllegalArgument);
        }
        screen := FormatBinary(ToText(result, rt));
        latestValue := result;
      }
      return None;
    }
  }
}
