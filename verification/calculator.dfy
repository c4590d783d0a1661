/** The stateless arithmetic service (`calculator.Service`).

    Numbers are exact reals: rounding, NaN, infinities and negative zero of
    IEEE-754 doubles are not modelled.  `math.Pow` and `math.Sqrt` are not
    given a definition; they arrive as the fields of a `MathLib` record. */
module Calculator {
  import opened Wrappers

  /** The three error values the package declares. */
  datatype CalcError = DivisionByZero | NegativeSqrt | InvalidInput

  /** The text of each error value (what `err.Error()` returns). */
  function Message(e: CalcError): string {
    match e
    case DivisionByZero => "division by zero"
    case NegativeSqrt => "cannot calculate square root of negative number"
    case InvalidInput => "invalid input"
  }

  /** Go's `(float64, error)` pair: `err == None` plays the role of `nil`. */
  datatype Returned = Returned(value: real, err: Option<CalcError>)

  /** The library functions the service delegates to. */
  datatype MathLib = MathLib(pow: (real, real) -> real, sqrt: real -> real)

  /** What an exact square root promises: a non-negative number whose square is
      the argument, for every non-negative argument. */
  ghost predicate SqrtLaw(sqrt: real -> real) {
    forall x :: 0.0 <= x ==> 0.0 <= sqrt(x) && sqrt(x) * sqrt(x) == x
  }

  function Add(a: real, b: real): (r: real)
    ensures r - b == a && r - a == b
  {
    a + b
  }

  function Subtract(a: real, b: real): (r: real)
    ensures r + b == a
  {
    a - b
  }

  function Multiply(a: real, b: real): (r: real)
    ensures b != 0.0 ==> r / b == a
    ensures a != 0.0 ==> r / a == b
    ensures a == 0.0 || b == 0.0 ==> r == 0.0
  {
    a * b
  }

  /** Division fails exactly on a zero divisor; the failure carries 0 and
      `ErrDivisionByZero`, success carries the quotient. */
  function Divide(a: real, b: real): (r: Returned)
    ensures r.err.Some? <==> b == 0.0
    ensures r.err.Some? ==> r.value == 0.0 && r.err.value == DivisionByZero
    ensures r.err.None? ==> r.value * b == a
  {
    if b == 0.0 then Returned(0.0, Some(DivisionByZero)) else Returned(a / b, None)
  }

  /** Power has no error path: it hands both operands to `math.Pow`. */
  function Power(lib: MathLib, a: real, b: real): real {
    lib.pow(a, b)
  }

  /** `a` multiplied by itself `n` times. */
  function NatPow(a: real, n: nat): real {
    if n == 0 then 1.0 else NatPow(a, n - 1) * a
  }

  /** What an exact power promises for whole exponents: `a^n` is `a` taken `n`
      times, and `a^-n` is its reciprocal. */
  ghost predicate IntegerPowLaw(pow: (real, real) -> real) {
    && (forall a: real, n: nat :: pow(a, n as real) == NatPow(a, n))
    && (forall a: real, n: nat :: a != 0.0 ==> pow(a, -(n as real)) * NatPow(a, n) == 1.0)
  }

  /** Square root fails exactly on a negative operand (zero is accepted); the
      failure carries 0 and `ErrNegativeSqrt`. */
  function SquareRoot(lib: MathLib, a: real): (r: Returned)
    ensures r.err.Some? <==> a < 0.0
    ensures r.err.Some? ==> r.value == 0.0 && r.err.value == NegativeSqrt
    ensures r.err.None? ==> r.value == lib.sqrt(a)
  {
    if a < 0.0 then Returned(0.0, Some(NegativeSqrt)) else Returned(lib.sqrt(a), None)
  }

  /** `a` percent of `b`. */
  function Percentage(a: real, b: real): (r: real)
    ensures r * 100.0 == a * b
    ensures b == 100.0 ==> r == a
    ensures a == 100.0 ==> r == b
  {
    (a / 100.0) * b
  }

  /** With an exact square root, a successful `SquareRoot` is the inverse of
      squaring. */
  lemma SquareRootInvertsSquaring(lib: MathLib, a: real)
    requires SqrtLaw(lib.sqrt)
    requires 0.0 <= a
    ensures SquareRoot(lib, a).err.None?
    ensures 0.0 <= SquareRoot(lib, a).value
    ensures SquareRoot(lib, a).value * SquareRoot(lib, a).value == a
  {
  }

  /** The six percentage examples of the service's unit tests. */
  lemma PercentageExamples()
    ensures Percentage(20.0, 100.0) == 20.0
    ensures Percentage(50.0, 200.0) == 100.0
    ensures Percentage(10.0, 50.0) == 5.0
    ensures Percentage(0.0, 100.0) == 0.0
    ensures Percentage(100.0, 75.0) == 75.0
    ensures Percentage(150.0, 100.0) == 150.0
  {
  }

  /** The whole-exponent examples of the service's unit tests, with an exact
      power. */
  lemma PowerExamples(lib: MathLib)
    requires IntegerPowLaw(lib.pow)
    ensures Power(lib, 2.0, 3.0) == 8.0
    ensures Power(lib, 5.0, 0.0) == 1.0
    ensures Power(lib, 2.0, -2.0) == 0.25
    ensures Power(lib, 2.0, 10.0) == 1024.0
  {
    assert lib.pow(2.0, 3 as real) == NatPow(2.0, 3);
    assert lib.pow(5.0, 0 as real) == NatPow(5.0, 0);
    assert lib.pow(2.0, -(2 as real)) * NatPow(2.0, 2) == 1.0;
    assert lib.pow(2.0, 10 as real) == NatPow(2.0, 10);
  }

  /** The three messages are distinct, so a client can tell the errors apart. */
  lemma MessagesDistinct(x: CalcError, y: CalcError)
    requires Message(x) == Message(y)
    ensures x == y
  {
  }
}
