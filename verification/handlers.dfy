/** The HTTP handlers of the calculator (`handlers.Handler`).

    Every handler runs the same sequence: check that the method is POST,
    decode the body into the operation's request shape, call the service, map
    a service error to 400, and otherwise answer 200 with the result and the
    operation's fixed tag.  The seven handler methods differ only in the
    operation, so they are modelled by one function `Handle` of the
    operation. */
module Handlers {
  import opened Wrappers
  import opened Operations
  import opened Calculator
  import opened Http

  const MethodPost := "POST"

  const StatusOK := 200
  const StatusBadRequest := 400
  const StatusMethodNotAllowed := 405

  /** The headers every handler response carries. */
  const JsonHeaders: Headers := map["Content-Type" := "application/json"]

  /** The `operation` field of a successful response. */
  function Tag(op: Op): string {
    match op
    case Add => "addition"
    case Subtract => "subtraction"
    case Multiply => "multiplication"
    case Divide => "division"
    case Power => "power"
    case Sqrt => "sqrt"
    case Percentage => "percentage"
  }

  /** A decoded `BinaryRequest` or `UnaryRequest`. */
  datatype Operands = Binary(a: real, b: real) | Unary(a: real)

  /** The request shape matches the operation: square root takes one operand,
      every other operation two. */
  predicate Fits(op: Op, x: Operands) {
    op.Unary() <==> x.Unary?
  }

  function Args(x: Operands): seq<real> {
    match x
    case Binary(a, b) => [a, b]
    case Unary(a) => [a]
  }

  // ---------------------------------------------------------------------------
  // Writing responses

  /** `sendJSON`: the content type, then the status line, then the body. */
  function SendJSON(status: int, body: Body): (t: Trace)
    ensures Disciplined(t)
    ensures Observe(t) == Response(status, JsonHeaders, [body])
    ensures !BodyRead(t) && !Invoked(t)
  {
    var t := [SetHeader("Content-Type", "application/json"), WriteStatus(status), WriteBody(body)];
    var w1 := Writer(None, JsonHeaders, []);
    var w2 := Writer(Some(status), JsonHeaders, []);
    var w3 := Writer(Some(status), JsonHeaders, [body]);
    assert t[1..] == [WriteStatus(status), WriteBody(body)];
    assert t[1..][1..] == [WriteBody(body)];
    assert t[1..][1..][1..] == [];
    assert Replay(w3, []) == w3;
    assert Replay(w2, [WriteBody(body)]) == w3;
    assert Replay(w1, t[1..]) == w3;
    assert Replay(Fresh, t) == w3;
    assert Run(Sent, [WriteBody(body)]) == Sent;
    assert Run(Open, t[1..]) == Sent;
    t
  }

  /** `sendError`: an `ErrorResponse` carrying `message`. */
  function SendError(status: int, message: string): (t: Trace)
    ensures Disciplined(t)
    ensures Observe(t) == Response(status, JsonHeaders, [ErrorJson(message)])
    ensures !BodyRead(t) && !Invoked(t)
  {
    SendJSON(status, ErrorJson(message))
  }

  // ---------------------------------------------------------------------------
  // The steps of a handler

  /** The outcome of a helper that either lets the handler continue with a
      value or has already written the response (Go's `(value, ok)` with the
      error written to `w`). */
  datatype Gate<T> = Pass(value: T) | Halt(response: Trace)

  /** `validateMethod`: only POST passes; anything else is answered 405. */
  function ValidateMethod(r: Request): (g: Gate<()>)
    ensures g.Pass? <==> r.verb == MethodPost
    ensures g.Halt? ==> Disciplined(g.response) && !BodyRead(g.response) && !Invoked(g.response)
    ensures g.Halt? ==> Observe(g.response) == Response(StatusMethodNotAllowed, JsonHeaders, [ErrorJson("method not allowed")])
  {
    if r.verb != MethodPost then Halt(SendError(StatusMethodNotAllowed, "method not allowed")) else Pass(())
  }

  /** `decodeBinaryRequest`: a body that does not decode is answered 400. */
  function DecodeBinary(r: Request): (g: Gate<Operands>)
    ensures g.Pass? <==> r.body.asBinary.Some?
    ensures g.Pass? ==> g.value == Binary(r.body.asBinary.value.0, r.body.asBinary.value.1)
    ensures g.Halt? ==> Disciplined(g.response) && !Invoked(g.response)
    ensures g.Halt? ==> Observe(g.response) == Response(StatusBadRequest, JsonHeaders, [ErrorJson("invalid request body")])
  {
    match r.body.asBinary
    case None => Halt(SendError(StatusBadRequest, "invalid request body"))
    case Some((a, b)) => Pass(Binary(a, b))
  }

  /** `decodeUnaryRequest`: a body that does not decode is answered 400. */
  function DecodeUnary(r: Request): (g: Gate<Operands>)
    ensures g.Pass? <==> r.body.asUnary.Some?
    ensures g.Pass? ==> g.value == Unary(r.body.asUnary.value)
    ensures g.Halt? ==> Disciplined(g.response) && !Invoked(g.response)
    ensures g.Halt? ==> Observe(g.response) == Response(StatusBadRequest, JsonHeaders, [ErrorJson("invalid request body")])
  {
    match r.body.asUnary
    case None => Halt(SendError(StatusBadRequest, "invalid request body"))
    case Some(a) => Pass(Unary(a))
  }

  /** The decoder the handler for `op` uses. */
  function Decode(op: Op, r: Request): (g: Gate<Operands>)
    ensures g.Pass? <==> Decoded(op, r).Some?
    ensures g.Pass? ==> g.value == Decoded(op, r).value && Fits(op, g.value)
  {
    if op.Unary() then DecodeUnary(r) else DecodeBinary(r)
  }

  /** The operands the request body holds for `op`, if it decodes. */
  function Decoded(op: Op, r: Request): Option<Operands> {
    if op.Unary() then
      (match r.body.asUnary case Some(a) => Some(Unary(a)) case None => None)
    else
      (match r.body.asBinary case Some((a, b)) => Some(Binary(a, b)) case None => None)
  }

  /** The inputs on which the service refuses to compute. */
  predicate DomainError(op: Op, x: Operands) {
    (op == Divide && x.Binary? && x.b == 0.0) || (op == Sqrt && x.a < 0.0)
  }

  /** The exact value of the operation, independent of the service code. */
  function Reference(lib: MathLib, op: Op, x: Operands): real
    requires Fits(op, x) && !DomainError(op, x)
  {
    match op
    case Add => x.a + x.b
    case Subtract => x.a - x.b
    case Multiply => x.a * x.b
    case Divide => x.a / x.b
    case Power => lib.pow(x.a, x.b)
    case Sqrt => lib.sqrt(x.a)
    case Percentage => x.a * x.b / 100.0
  }

  /** The service call each handler makes (`h.calc.X(req.A, req.B)`).  The
      infallible operations return a plain number in Go; here they return
      the same number with no error. */
  function Compute(lib: MathLib, op: Op, x: Operands): (r: Returned)
    requires Fits(op, x)
    ensures r.err.Some? <==> DomainError(op, x)
    ensures r.err.Some? ==> r.value == 0.0
    ensures r.err.Some? ==> r.err.value == (if op == Divide then DivisionByZero else NegativeSqrt)
    ensures r.err.None? ==> r.value == Reference(lib, op, x)
  {
    match op
    case Add => Returned(Calculator.Add(x.a, x.b), None)
    case Subtract => Returned(Calculator.Subtract(x.a, x.b), None)
    case Multiply => Returned(Calculator.Multiply(x.a, x.b), None)
    case Divide => Calculator.Divide(x.a, x.b)
    case Power => Returned(Calculator.Power(lib, x.a, x.b), None)
    case Sqrt => Calculator.SquareRoot(lib, x.a)
    case Percentage => Returned(Calculator.Percentage(x.a, x.b), None)
  }

  /** The response after the service call: an error becomes 400 with the
      error's text, a result becomes 200 with the operation's tag. */
  function Conclude(op: Op, res: Returned): (t: Trace)
    ensures Disciplined(t) && !BodyRead(t) && !Invoked(t)
    ensures res.err.Some? ==> Observe(t) == Response(StatusBadRequest, JsonHeaders, [ErrorJson(Message(res.err.value))])
    ensures res.err.None? ==> Observe(t) == Response(StatusOK, JsonHeaders, [ResultJson(res.value, Tag(op))])
  {
    if res.err.Some? then SendError(StatusBadRequest, Message(res.err.value))
    else SendJSON(StatusOK, ResultJson(res.value, Tag(op)))
  }

  /** One handler method, for the operation `op`. */
  function Handle(lib: MathLib, op: Op, r: Request): (t: Trace)
    ensures Disciplined(t)
    ensures Observe(t).headers == JsonHeaders
    ensures |Observe(t).body| == 1
  {
    match ValidateMethod(r)
    case Halt(t) => t
    case Pass(_) =>
      match Decode(op, r)
      case Halt(t) =>
        QuietPrefix([ReadBody], t);
        [ReadBody] + t
      case Pass(x) =>
        var t := Conclude(op, Compute(lib, op, x));
        QuietPrefix([ReadBody, Invoke(op, Args(x))], t);
        [ReadBody, Invoke(op, Args(x))] + t
  }

  // ---------------------------------------------------------------------------
  // What a handler answers

  /** A method other than POST is refused with 405 before the body is read
      and before the service is called. */
  lemma MethodNotAllowed(lib: MathLib, op: Op, r: Request)
    requires r.verb != MethodPost
    ensures Observe(Handle(lib, op, r)) == Response(StatusMethodNotAllowed, JsonHeaders, [ErrorJson("method not allowed")])
    ensures !BodyRead(Handle(lib, op, r)) && !Invoked(Handle(lib, op, r))
  {
  }

  /** A POST whose body does not decode is refused with 400; the service is
      not called. */
  lemma InvalidBody(lib: MathLib, op: Op, r: Request)
    requires r.verb == MethodPost
    requires Decoded(op, r).None?
    ensures Observe(Handle(lib, op, r)) == Response(StatusBadRequest, JsonHeaders, [ErrorJson("invalid request body")])
    ensures BodyRead(Handle(lib, op, r)) && !Invoked(Handle(lib, op, r))
  {
    var g := Decode(op, r);
    MarkersAppend([ReadBody], g.response);
    assert [ReadBody][0] == ReadBody;
  }

  /** A decoded POST calls the service exactly with the decoded operands; a
      service error is answered 400 carrying the error's text and no result. */
  lemma ServiceError(lib: MathLib, op: Op, r: Request, x: Operands)
    requires r.verb == MethodPost
    requires Decoded(op, r) == Some(x)
    requires DomainError(op, x)
    ensures Handle(lib, op, r)[..2] == [ReadBody, Invoke(op, Args(x))]
    ensures op == Divide ==> Observe(Handle(lib, op, r)) == Response(StatusBadRequest, JsonHeaders, [ErrorJson("division by zero")])
    ensures op == Sqrt ==> Observe(Handle(lib, op, r)) == Response(StatusBadRequest, JsonHeaders, [ErrorJson("cannot calculate square root of negative number")])
    ensures op == Divide || op == Sqrt
  {
    var e := if op == Divide then DivisionByZero else NegativeSqrt;
    assert Compute(lib, op, x).err == Some(e);
    var t := SendError(StatusBadRequest, Message(e));
    assert Handle(lib, op, r) == [ReadBody, Invoke(op, Args(x))] + t;
    QuietPrefix([ReadBody, Invoke(op, Args(x))], t);
  }

  /** A decoded POST that the service accepts is answered 200 with the exact
      result and the operation's tag. */
  lemma Success(lib: MathLib, op: Op, r: Request, x: Operands)
    requires r.verb == MethodPost
    requires Decoded(op, r) == Some(x)
    requires !DomainError(op, x)
    ensures Handle(lib, op, r)[..2] == [ReadBody, Invoke(op, Args(x))]
    ensures Observe(Handle(lib, op, r)) == Response(StatusOK, JsonHeaders, [ResultJson(Reference(lib, op, x), Tag(op))])
  {
    var res := Compute(lib, op, x);
    assert res.err.None?;
    var t := SendJSON(StatusOK, ResultJson(res.value, Tag(op)));
    assert Handle(lib, op, r) == [ReadBody, Invoke(op, Args(x))] + t;
    QuietPrefix([ReadBody, Invoke(op, Args(x))], t);
  }

  /** The answer the handler for `op` owes a request, read off the request
      alone: the decision sequence method, decode, compute, error mapping. */
  function Expected(lib: MathLib, op: Op, r: Request): Response {
    if r.verb != MethodPost then
      Response(StatusMethodNotAllowed, JsonHeaders, [ErrorJson("method not allowed")])
    else if Decoded(op, r).None? then
      Response(StatusBadRequest, JsonHeaders, [ErrorJson("invalid request body")])
    else if DomainError(op, Decoded(op, r).value) then
      Response(StatusBadRequest, JsonHeaders,
        [ErrorJson(Message(if op == Divide then DivisionByZero else NegativeSqrt))])
    else
      var x := Decoded(op, r).value;
      Response(StatusOK, JsonHeaders, [ResultJson(Reference(lib, op, x), Tag(op))])
  }

  /** Every handler gives exactly the answer the decision sequence owes. */
  lemma HandleMeetsExpected(lib: MathLib, op: Op, r: Request)
    ensures Observe(Handle(lib, op, r)) == Expected(lib, op, r)
  {
    if r.verb != MethodPost {
      MethodNotAllowed(lib, op, r);
    } else if Decoded(op, r).None? {
      InvalidBody(lib, op, r);
    } else if DomainError(op, Decoded(op, r).value) {
      ServiceError(lib, op, r, Decoded(op, r).value);
    } else {
      Success(lib, op, r, Decoded(op, r).value);
    }
  }

  /** The status of every handler response, in terms of the request alone:
      405 exactly for a method other than POST, 400 exactly for a body that
      does not decode or operands the service refuses, 200 otherwise. */
  lemma StatusTable(lib: MathLib, op: Op, r: Request)
    ensures var s := Observe(Handle(lib, op, r)).status;
      && (s == StatusMethodNotAllowed <==> r.verb != MethodPost)
      && (s == StatusBadRequest <==>
            r.verb == MethodPost && (Decoded(op, r).None? || DomainError(op, Decoded(op, r).value)))
      && (s == StatusOK <==>
            r.verb == MethodPost && Decoded(op, r).Some? && !DomainError(op, Decoded(op, r).value))
  {
    HandleMeetsExpected(lib, op, r);
  }

  /** For addition, subtraction, multiplication, power and percentage the only
      refusals are the method check and the decode check. */
  lemma InfallibleRefusals(lib: MathLib, op: Op, r: Request)
    requires !op.Fallible()
    ensures var s := Observe(Handle(lib, op, r)).status;
      && (s == StatusOK || s == StatusBadRequest || s == StatusMethodNotAllowed)
      && (s == StatusBadRequest <==> r.verb == MethodPost && Decoded(op, r).None?)
  {
    StatusTable(lib, op, r);
  }

  /** Different operations report different tags. */
  lemma TagInjective(x: Op, y: Op)
    requires Tag(x) == Tag(y)
    ensures x == y
  {
  }
}
