/** The seven arithmetic operations, shared by the Go backend and the React keypad. */
module Operations {

  datatype Op = Add | Subtract | Multiply | Divide | Power | Sqrt | Percentage {

    /** Square root is the one operation that takes a single operand. */
    predicate Unary() {
      Sqrt?
    }

    /** Only division and square root have a failure branch in the service. */
    predicate Fallible() {
      Divide? || Sqrt?
    }
  }

  /** The operation's name in URLs: the last segment of `/api/v1/calculate/<name>`,
      which is also the name the frontend gives the operation. */
  function Segment(op: Op): string {
    match op
    case Add => "add"
    case Subtract => "subtract"
    case Multiply => "multiply"
    case Divide => "divide"
    case Power => "power"
    case Sqrt => "sqrt"
    case Percentage => "percentage"
  }

  /** Different operations are reached under different names. */
  lemma SegmentInjective(x: Op, y: Op)
    requires Segment(x) == Segment(y)
    ensures x == y
  {
  }
}
