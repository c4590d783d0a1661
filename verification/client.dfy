/** The frontend's `callApi`: the request a calculation becomes and how the
    answer is read, joined with the backend model into end-to-end facts. */
module Client {
  import opened Wrappers
  import opened Operations
  import opened Calculator
  import opened Http
  import opened Handlers
  import opened Server
  import opened App

  /** The path part of `${API_BASE_URL}/calculate/<name>`. */
  function ApiPath(op: Op): string {
    "/api/v1" + "/calculate/" + Segment(op)
  }

  /** The request `callApi` sends: a POST whose JSON body `{a, b}` (or `{a}`
      for square root) holds finite numbers, so it decodes under both request
      shapes; a missing `b` decodes as 0. */
  function ToRequest(c: Call): (r: Request)
    ensures r.verb == MethodPost && r.path == CalcPath(c.op)
    ensures Decoded(c.op, r) == Some(OperandsOf(c))
  {
    assert "/api/v1" + "/calculate/" == "/api/v1/calculate/";
    assert ApiPath(c.op) == ("/api/v1" + "/calculate/") + Segment(c.op);
    Request(MethodPost, ApiPath(c.op), RequestBody(Some((c.a, c.b.GetOr(0.0))), Some(c.a)))
  }

  /** The operands the backend sees for a call. */
  function OperandsOf(c: Call): (x: Operands)
    ensures Fits(c.op, x)
  {
    if c.op.Unary() then Unary(c.a) else Binary(c.a, c.b.GetOr(0.0))
  }

  /** How `callApi` and `performCalculation` read a response: a status
      outside 200-299 throws the `error` field, or "API request failed" when
      it is empty or missing; a 2xx answer yields its `result`, shown with
      `show` and remembered as `entry`.  `None` is a 2xx answer without a
      result, which the backend, under exact arithmetic, never gives to a
      POST. */
  function Receive(resp: Response, show: real -> string, entry: string): (o: Option<Outcome>)
    ensures !(200 <= resp.status <= 299) ==> o.Some? && o.value.Err? && o.value.message != ""
    ensures !(200 <= resp.status <= 299) && |resp.body| == 1 && resp.body[0].ErrorJson? && resp.body[0].error != "" ==>
      o == Some(Err(resp.body[0].error))
    ensures !(200 <= resp.status <= 299) && !(|resp.body| == 1 && resp.body[0].ErrorJson? && resp.body[0].error != "") ==>
      o == Some(Err("API request failed"))
    ensures 200 <= resp.status <= 299 ==> (o.Some? <==> |resp.body| == 1 && resp.body[0].ResultJson?)
    ensures 200 <= resp.status <= 299 && |resp.body| == 1 && resp.body[0].ResultJson? ==>
      o == Some(Ok(show(resp.body[0].result), entry))
    ensures o.Some? && o.value.Ok? ==>
      && 200 <= resp.status <= 299 && |resp.body| == 1 && resp.body[0].ResultJson?
      && o.value == Ok(show(resp.body[0].result), entry)
  {
    if !(200 <= resp.status <= 299) then
      var message := if |resp.body| == 1 && resp.body[0].ErrorJson? && resp.body[0].error != "" then resp.body[0].error else "API request failed";
      Some(Err(message))
    else if |resp.body| == 1 && resp.body[0].ResultJson? then
      Some(Ok(show(resp.body[0].result), entry))
    else
      None
  }

  lemma ReceiveResult(h: Headers, v: real, tag: string, show: real -> string, entry: string)
    ensures Receive(Response(StatusOK, h, [ResultJson(v, tag)]), show, entry) == Some(Ok(show(v), entry))
  {
  }

  lemma ReceiveError(h: Headers, message: string, show: real -> string, entry: string)
    requires message != ""
    ensures Receive(Response(StatusBadRequest, h, [ErrorJson(message)]), show, entry) == Some(Err(message))
  {
  }

  /** Each operation the keypad sends reaches the backend handler of the same
      operation. */
  lemma CallsReachTheirHandler(op: Op)
    ensures ApiPath(op) == CalcPath(op)
    ensures Lookup(Routes, ApiPath(op)) == Some(Logging(Cors(Endpoint(op))))
  {
    assert "/api/v1" + "/calculate/" == "/api/v1/calculate/";
    assert ApiPath(op) == ("/api/v1" + "/calculate/") + Segment(op);
    CalcRoute(op);
  }

  /** The service's text for the error an operation reports. */
  function ErrorText(op: Op): string {
    Message(if op == Divide then DivisionByZero else NegativeSqrt)
  }

  /** What the backend answers to a call the frontend sends: never 405;
      the exact result with the operation's tag when the backend accepts the
      operands, and otherwise 400 with the service's error text. */
  lemma CallAnswered(lib: MathLib, c: Call)
    ensures Dispatch(lib, ToRequest(c)).Some?
    ensures !DomainError(c.op, OperandsOf(c)) ==>
      Observe(Dispatch(lib, ToRequest(c)).value)
        == Response(StatusOK, EndpointHeaders, [ResultJson(Reference(lib, c.op, OperandsOf(c)), Tag(c.op))])
    ensures DomainError(c.op, OperandsOf(c)) ==>
      Observe(Dispatch(lib, ToRequest(c)).value) == Response(StatusBadRequest, EndpointHeaders, [ErrorJson(ErrorText(c.op))])
  {
    var r := ToRequest(c);
    var x := OperandsOf(c);
    CallsReachTheirHandler(c.op);
    EndpointAnswer(lib, c.op, r);
    assert Decoded(c.op, r) == Some(x);
    if DomainError(c.op, x) {
      ServiceError(lib, c.op, r, x);
    } else {
      Success(lib, c.op, r, x);
    }
  }

  /** The frontend reads the backend's answer to its own call as the exact
      result, or as the service's error text. */
  lemma RoundTrip(lib: MathLib, c: Call, show: real -> string, entry: string)
    ensures Dispatch(lib, ToRequest(c)).Some?
    ensures !DomainError(c.op, OperandsOf(c)) ==>
      Receive(Observe(Dispatch(lib, ToRequest(c)).value), show, entry)
        == Some(Ok(show(Reference(lib, c.op, OperandsOf(c))), entry))
    ensures DomainError(c.op, OperandsOf(c)) ==>
      Receive(Observe(Dispatch(lib, ToRequest(c)).value), show, entry) == Some(Err(ErrorText(c.op)))
  {
    CallAnswered(lib, c);
    var resp := Observe(Dispatch(lib, ToRequest(c)).value);
    var x := OperandsOf(c);
    if DomainError(c.op, x) {
      ReceiveError(EndpointHeaders, ErrorText(c.op), show, entry);
    } else {
      ReceiveResult(EndpointHeaders, Reference(lib, c.op, x), Tag(c.op), show, entry);
    }
  }

  /** Dividing by zero on the keypad ends with "Error" on the display and the
      backend's message as the error, whatever was shown before. */
  lemma DivisionByZeroShown(lib: MathLib, s: CalcState, a: real, show: real -> string, entry: string)
    ensures Dispatch(lib, ToRequest(Call(Divide, a, Some(0.0)))).Some?
    ensures Receive(Observe(Dispatch(lib, ToRequest(Call(Divide, a, Some(0.0)))).value), show, entry) == Some(Err("division by zero"))
    ensures Complete(s, Err("division by zero")).display == "Error"
    ensures Complete(s, Err("division by zero")).error == Some("division by zero")
  {
    var c := Call(Divide, a, Some(0.0));
    assert DomainError(c.op, OperandsOf(c));
    RoundTrip(lib, c, show, entry);
  }

  /** The division-by-zero scenario of the component tests: typing 1, 0, ÷,
      0, = sends 10 ÷ 0, which the backend refuses with the message the
      frontend then shows. */
  lemma DivisionByZeroScenario(lib: MathLib, parseFloat: string -> real, show: real -> string, entry: string)
    requires parseFloat("0") == 0.0
    ensures DivisionTyped(parseFloat) == Some(Call(Divide, parseFloat("10"), Some(0.0)))
    ensures Dispatch(lib, ToRequest(Call(Divide, parseFloat("10"), Some(0.0)))).Some?
    ensures Receive(Observe(Dispatch(lib, ToRequest(Call(Divide, parseFloat("10"), Some(0.0)))).value), show, entry)
      == Some(Err("division by zero"))
  {
    TypingDivision(parseFloat);
    var a := parseFloat("10");
    DivisionByZeroShown(lib, Initial, a, show, entry);
    assert Receive(Observe(Dispatch(lib, ToRequest(Call(Divide, a, Some(0.0)))).value), show, entry)
      == Some(Err("division by zero"));
  }
}
