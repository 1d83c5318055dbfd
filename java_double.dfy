/**
 * Java's `double` as the calculator uses it: a finite value, an infinity of
 * either sign, or NaN.  Finite values are exact reals, so binary64 rounding,
 * overflow to infinity and the sign of zero are not part of this model; the
 * special values follow the IEEE 754 rules that Java implements.
 */
module JavaDouble {

  datatype Double = Finite(value: real) | Infinity(negative: bool) | NaN

  const Zero: Double := Finite(0.0)

  /**
   * The two library routines whose exact results are floating-point internals:
   * the text `Double.toString` gives a finite value, and `Math.sqrt` of a
   * non-negative finite value.
   */
  datatype Runtime = Runtime(finiteText: real -> seq<char>, sqrt: real -> real)

  /** Java's `==` on doubles: NaN equals nothing, not even itself. */
  predicate Same(a: Double, b: Double)
    ensures Same(a, b) <==> a == b && !a.NaN?
  {
    match a
    case Finite(x) => b.Finite? && b.value == x
    case Infinity(n) => b.Infinity? && b.negative == n
    case NaN => false
  }

  /** Unary minus. */
  function Negate(a: Double): (r: Double)
    ensures a.NaN? <==> r.NaN?
    ensures Same(a, Zero) ==> Same(r, Zero)
    ensures a.Finite? ==> r == Finite(-a.value)
    ensures a.Infinity? ==> r == Infinity(!a.negative)
  {
    match a
    case Finite(x) => Finite(-x)
    case Infinity(n) => Infinity(!n)
    case NaN => NaN
  }

  predicate OppositeInfinities(a: Double, b: Double)
  {
    a.Infinity? && b.Infinity? && a.negative != b.negative
  }

  /** `a + b`. */
  function Add(a: Double, b: Double): (r: Double)
    ensures r.NaN? <==> a.NaN? || b.NaN? || OppositeInfinities(a, b)
    ensures a.Finite? && b.Finite? ==> r == Finite(a.value + b.value)
    ensures r.Infinity? ==> a == r || b == r
    ensures a.Infinity? && !b.NaN? && !OppositeInfinities(a, b) ==> r == a
    ensures a.Finite? && b.Infinity? ==> r == b
  {
    match (a, b)
    case (NaN, _) => NaN
    case (_, NaN) => NaN
    case (Infinity(m), Infinity(n)) => if m == n then a else NaN
    case (Infinity(_), Finite(_)) => a
    case (Finite(_), Infinity(_)) => b
    case (Finite(x), Finite(y)) => Finite(x + y)
  }

  /** `a - b`. */
  function Sub(a: Double, b: Double): (r: Double)
    ensures r.NaN? <==> a.NaN? || b.NaN? || (a.Infinity? && b == a)
    ensures a.Finite? && b.Finite? ==> r == Finite(a.value - b.value)
    ensures a.Infinity? && !b.NaN? && b != a ==> r == a
    ensures a.Finite? && b.Infinity? ==> r == Infinity(!b.negative)
  {
    Add(a, Negate(b))
  }

  predicate IsZero(a: Double)
  {
    a.Finite? && a.value == 0.0
  }

  /** `a * b`. */
  function Mul(a: Double, b: Double): (r: Double)
    ensures r.NaN? <==> a.NaN? || b.NaN? || (a.Infinity? && IsZero(b)) || (IsZero(a) && b.Infinity?)
    ensures a.Finite? && b.Finite? ==> r == Finite(a.value * b.value)
    ensures a.Infinity? && b.Infinity? ==> r == Infinity(a.negative != b.negative)
    ensures a.Infinity? && b.Finite? && b.value != 0.0 ==> r == Infinity(a.negative != (b.value < 0.0))
    ensures a.Finite? && a.value != 0.0 && b.Infinity? ==> r == Infinity((a.value < 0.0) != b.negative)
  {
    match (a, b)
    case (NaN, _) => NaN
    case (_, NaN) => NaN
    case (Infinity(m), Infinity(n)) => Infinity(m != n)
    case (Infinity(m), Finite(y)) => if y == 0.0 then NaN else Infinity(m != (y < 0.0))
    case (Finite(x), Infinity(n)) => if x == 0.0 then NaN else Infinity((x < 0.0) != n)
    case (Finite(x), Finite(y)) => Finite(x * y)
  }

  /** `a / b`; a zero divisor is taken to be positive zero. */
  function Div(a: Double, b: Double): (r: Double)
    ensures r.NaN? <==> a.NaN? || b.NaN? || (a.Infinity? && b.Infinity?) || (IsZero(a) && IsZero(b))
    ensures r.Infinity? <==> (a.Infinity? && b.Finite?) || (a.Finite? && a.value != 0.0 && IsZero(b))
    ensures a.Finite? && b.Finite? && b.value != 0.0 ==> r == Finite(a.value / b.value)
    ensures a.Finite? && b.Infinity? ==> r == Zero
    ensures a.Infinity? && b.Finite? ==> r == Infinity(a.negative != (b.value < 0.0))
    ensures a.Finite? && a.value != 0.0 && IsZero(b) ==> r == Infinity(a.value < 0.0)
  {
    match (a, b)
    case (NaN, _) => NaN
    case (_, NaN) => NaN
    case (Infinity(_), Infinity(_)) => NaN
    case (Infinity(m), Finite(y)) => Infinity(m != (y < 0.0))
    case (Finite(x), Infinity(_)) => Zero
    case (Finite(x), Finite(y)) =>
      if y != 0.0 then Finite(x / y)
      else if x == 0.0 then NaN
      else Infinity(x < 0.0)
  }

  /** `Math.sqrt(a)`, with the root of a non-negative finite value supplied by `rt`. */
  function Sqrt(a: Double, rt: Runtime): (r: Double)
    ensures r.NaN? <==> a.NaN? || a == Infinity(true) || (a.Finite? && a.value < 0.0)
    ensures a.Finite? && a.value >= 0.0 ==> r == Finite(rt.sqrt(a.value))
    ensures a == Infinity(false) ==> r == a
  {
    match a
    case NaN => NaN
    case Infinity(n) => if n then NaN else a
    case Finite(x) => if x < 0.0 then NaN else Finite(rt.sqrt(x))
  }

  /** `Double.toString(a)`: fixed spellings for the special values. */
  function ToText(a: Double, rt: Runtime): (r: seq<char>)
    ensures !a.Finite? ==> '.' !in r && (r == "NaN" <==> a.NaN?)
    ensures a == Infinity(false) ==> r == "Infinity"
    ensures a == Infinity(true) ==> r == "-Infinity"
    ensures a.Finite? ==> r == rt.finiteText(a.value)
  {
    match a
    case NaN => "NaN"
    case Infinity(n) => if n then "-Infinity" else "Infinity"
    case Finite(x) => rt.finiteText(x)
  }
}
