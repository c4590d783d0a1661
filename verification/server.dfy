/** The server entry point: the CORS and logging middleware, the health
    check, and the fixed route table. */
module Server {
  import opened Wrappers
  import opened Operations
  import opened Calculator
  import opened Http
  import opened Handlers

  /** A handler value as `main` builds it: a calculation handler or the
      health check, wrapped in middleware. */
  datatype Handler = Health | Endpoint(op: Op) | Cors(next: Handler) | Logging(next: Handler)

  const MethodOptions := "OPTIONS"

  /** The three headers the CORS middleware sets, in order. */
  const CorsEvents: Trace := [
    SetHeader("Access-Control-Allow-Origin", "*"),
    SetHeader("Access-Control-Allow-Methods", "POST, OPTIONS"),
    SetHeader("Access-Control-Allow-Headers", "Content-Type")
  ]

  const CorsHeaders: Headers := map[
    "Access-Control-Allow-Origin" := "*",
    "Access-Control-Allow-Methods" := "POST, OPTIONS",
    "Access-Control-Allow-Headers" := "Content-Type"
  ]

  /** The headers of every answer a calculation endpoint gives past the
      pre-flight check. */
  const EndpointHeaders: Headers := CorsHeaders + JsonHeaders

  const HealthyBody := "{\"status\":\"healthy\"}"

  /** The health check writes to the writer directly, without `sendJSON`:
      JSON content type, 200, a literal body; no method check.  The three
      events are the ones `sendJSON` would produce. */
  function HealthCheck(): (t: Trace)
    ensures Disciplined(t)
    ensures Observe(t) == Response(StatusOK, JsonHeaders, [Raw(HealthyBody)])
  {
    var t := [SetHeader("Content-Type", "application/json"), WriteStatus(StatusOK), WriteBody(Raw(HealthyBody))];
    assert t == SendJSON(StatusOK, Raw(HealthyBody));
    t
  }

  lemma CorsEventsSetHeaders(w: Writer)
    requires w.status.None?
    ensures Replay(w, CorsEvents) == w.(headers := w.headers + CorsHeaders)
    ensures Run(Open, CorsEvents) == Open
  {
    var t := CorsEvents;
    assert t[1..][1..][1..] == [];
    assert w.headers + CorsHeaders == w.headers["Access-Control-Allow-Origin" := "*"]
      ["Access-Control-Allow-Methods" := "POST, OPTIONS"]["Access-Control-Allow-Headers" := "Content-Type"];
  }

  /** Running a handler on a request. */
  function Serve(lib: MathLib, h: Handler, r: Request): (t: Trace)
    ensures Disciplined(t)
    decreases h
  {
    match h
    case Health => HealthCheck()
    case Endpoint(op) => Handle(lib, op, r)
    case Cors(next) =>
      var rest := if r.verb == MethodOptions then [WriteStatus(StatusOK)] else Serve(lib, next, r);
      CorsEventsSetHeaders(Fresh);
      RunAppend(Open, CorsEvents, rest);
      assert Run(Open, [WriteStatus(StatusOK)]) == Sent by {
        assert [WriteStatus(StatusOK)][1..] == [];
      }
      CorsEvents + rest
    case Logging(next) =>
      var inner := Serve(lib, next, r);
      RunAppend(Open, [LogRequest(r.verb, r.path)] + inner, [LogCompleted]);
      RunAppend(Open, [LogRequest(r.verb, r.path)], inner);
      assert [LogRequest(r.verb, r.path)][1..] == [];
      assert [LogCompleted][1..] == [];
      [LogRequest(r.verb, r.path)] + inner + [LogCompleted]
  }

  // ---------------------------------------------------------------------------
  // The route table

  /** The operations in the order `main` registers their endpoints. */
  const Calculations: seq<Op> := [Add, Subtract, Multiply, Divide, Power, Sqrt, Percentage]

  function CalcPath(op: Op): string {
    "/api/v1/calculate/" + Segment(op)
  }

  /** The handler `main` binds to each path. */
  const Routes: seq<(string, Handler)> := [
    ("/health", Health),
    ("/api/v1/calculate/add", Logging(Cors(Endpoint(Add)))),
    ("/api/v1/calculate/subtract", Logging(Cors(Endpoint(Subtract)))),
    ("/api/v1/calculate/multiply", Logging(Cors(Endpoint(Multiply)))),
    ("/api/v1/calculate/divide", Logging(Cors(Endpoint(Divide)))),
    ("/api/v1/calculate/power", Logging(Cors(Endpoint(Power)))),
    ("/api/v1/calculate/sqrt", Logging(Cors(Endpoint(Sqrt)))),
    ("/api/v1/calculate/percentage", Logging(Cors(Endpoint(Percentage))))
  ]

  /** The handler bound to `path`, if any. */
  function Lookup(routes: seq<(string, Handler)>, path: string): (h: Option<Handler>)
    ensures h.Some? <==> exists i :: 0 <= i < |routes| && routes[i].0 == path
    ensures h.Some? ==> exists i :: 0 <= i < |routes| && routes[i] == (path, h.value)
    decreases |routes|
  {
    if |routes| == 0 then None
    else if routes[0].0 == path then Some(routes[0].1)
    else
      var h := Lookup(routes[1..], path);
      assert forall i :: 1 <= i < |routes| ==> routes[i] == routes[1..][i - 1];
      h
  }

  /** What the multiplexer does with a request: `None` for a path no route
      matches (answered by `net/http` itself). */
  function Dispatch(lib: MathLib, r: Request): (d: Option<Trace>)
    ensures d.Some? ==> Disciplined(d.value)
  {
    match Lookup(Routes, r.path)
    case None => None
    case Some(h) => Some(Serve(lib, h, r))
  }

  // ---------------------------------------------------------------------------
  // Lemmas

  /** Eight routes: the health check first, then one route per operation in
      registration order, each `Logging(Cors(handler))` with the matching
      handler; every operation has exactly one. */
  lemma RouteTable()
    ensures |Routes| == 8 && Routes[0] == ("/health", Health)
    ensures forall i :: 0 <= i < |Calculations| ==>
      Routes[i + 1] == (CalcPath(Calculations[i]), Logging(Cors(Endpoint(Calculations[i]))))
    ensures forall op: Op :: op in Calculations
    ensures forall i, j :: 0 <= i < j < |Calculations| ==> Calculations[i] != Calculations[j]
  {
    assert CalcPath(Add) == "/api/v1/calculate/add";
    assert CalcPath(Subtract) == "/api/v1/calculate/subtract";
    assert CalcPath(Multiply) == "/api/v1/calculate/multiply";
    assert CalcPath(Divide) == "/api/v1/calculate/divide";
    assert CalcPath(Power) == "/api/v1/calculate/power";
    assert CalcPath(Sqrt) == "/api/v1/calculate/sqrt";
    assert CalcPath(Percentage) == "/api/v1/calculate/percentage";
    forall op: Op
      ensures op in Calculations
    {
      match op
      case Add => assert Calculations[0] == op;
      case Subtract => assert Calculations[1] == op;
      case Multiply => assert Calculations[2] == op;
      case Divide => assert Calculations[3] == op;
      case Power => assert Calculations[4] == op;
      case Sqrt => assert Calculations[5] == op;
      case Percentage => assert Calculations[6] == op;
    }
  }

  /** Each operation's path reaches its own handler, wrapped first in CORS
      and then in logging. */
  lemma CalcRoute(op: Op)
    ensures Lookup(Routes, CalcPath(op)) == Some(Logging(Cors(Endpoint(op))))
  {
    RouteTable();
    var i := match op
      case Add => 0 case Subtract => 1 case Multiply => 2 case Divide => 3
      case Power => 4 case Sqrt => 5 case Percentage => 6;
    assert Calculations[i] == op;
    assert Routes[i + 1].0 == CalcPath(op);
    var h := Lookup(Routes, CalcPath(op));
    var j :| 0 <= j < |Routes| && Routes[j] == (CalcPath(op), h.value);
    if j == 0 {
      assert false;
    }
    var o := Calculations[j - 1];
    assert CalcPath(o) == CalcPath(op);
    assert Segment(o) == CalcPath(o)[|"/api/v1/calculate/"|..];
    assert Segment(op) == CalcPath(op)[|"/api/v1/calculate/"|..];
    SegmentInjective(o, op);
  }

  /** No path other than these eight is routed. */
  lemma RoutedPaths(p: string, h: Handler)
    requires Lookup(Routes, p) == Some(h)
    ensures (p == "/health" && h == Health) || exists op :: p == CalcPath(op) && h == Logging(Cors(Endpoint(op)))
  {
    RouteTable();
    var i :| 0 <= i < |Routes| && Routes[i] == (p, h);
    if i > 0 {
      assert p == CalcPath(Calculations[i - 1]);
    }
  }

  /** A request is routed exactly when its path is the health path or one of
      the seven calculation paths; any other path is left to `net/http`. */
  lemma DispatchedPaths(lib: MathLib, r: Request)
    ensures Dispatch(lib, r).Some? <==> r.path == "/health" || exists op :: r.path == CalcPath(op)
  {
    if Dispatch(lib, r).Some? {
      RoutedPaths(r.path, Lookup(Routes, r.path).value);
    } else if r.path == "/health" {
      assert false;
    } else if op :| r.path == CalcPath(op) {
      CalcRoute(op);
      assert false;
    }
  }

  /** The logging middleware calls the wrapped handler exactly once, with the
      request as it came, and the client sees what the wrapped handler
      wrote. */
  lemma LoggingTransparent(lib: MathLib, h: Handler, r: Request)
    ensures Serve(lib, Logging(h), r) == [LogRequest(r.verb, r.path)] + Serve(lib, h, r) + [LogCompleted]
    ensures Observe(Serve(lib, Logging(h), r)) == Observe(Serve(lib, h, r))
  {
    var inner := Serve(lib, h, r);
    var pre := [LogRequest(r.verb, r.path)];
    ReplayAppend(Fresh, pre + inner, [LogCompleted]);
    QuietIsInvisible(Replay(Fresh, pre + inner), [LogCompleted]);
    QuietPrefix(pre, inner);
  }

  /** A pre-flight request is answered 200 with the three CORS headers and no
      body; the wrapped handler never runs. */
  lemma CorsPreflight(lib: MathLib, next: Handler, r: Request)
    requires r.verb == MethodOptions
    ensures Serve(lib, Cors(next), r) == CorsEvents + [WriteStatus(StatusOK)]
    ensures Observe(Serve(lib, Cors(next), r)) == Response(StatusOK, CorsHeaders, [])
    ensures !BodyRead(Serve(lib, Cors(next), r)) && !Invoked(Serve(lib, Cors(next), r))
  {
    var t := CorsEvents + [WriteStatus(StatusOK)];
    ReplayAppend(Fresh, CorsEvents, [WriteStatus(StatusOK)]);
    CorsEventsSetHeaders(Fresh);
    assert [WriteStatus(StatusOK)][1..] == [];
    assert map[] + CorsHeaders == CorsHeaders;
    assert forall i :: 0 <= i < |t| ==> t[i].SetHeader? || t[i].WriteStatus?;
  }

  /** The CORS headers in front of a well-behaved trace reach the client
      together with the trace's own headers, which win on a clash. */
  lemma CorsPrefix(rest: Trace)
    requires Disciplined(rest)
    ensures Observe(CorsEvents + rest) == Observe(rest).(headers := CorsHeaders + Observe(rest).headers)
  {
    ReplayAppend(Fresh, CorsEvents, rest);
    CorsEventsSetHeaders(Fresh);
    assert map[] + CorsHeaders == CorsHeaders;
    var w0 := Writer(None, CorsHeaders, []);
    assert Replay(Fresh, CorsEvents) == w0;
    ReplayBeforeStatus(w0, rest);
    ReplayBeforeStatus(Fresh, rest);
    SetAllOver(CorsHeaders, map[], rest);
    assert CorsHeaders + map[] == CorsHeaders;
  }

  /** Past the pre-flight check, the two middleware layers add no body read
      and no service call of their own: the markers are the handler's. */
  lemma LoggedCorsMarkers(lib: MathLib, next: Handler, r: Request)
    requires r.verb != MethodOptions
    ensures BodyRead(Serve(lib, Logging(Cors(next)), r)) <==> BodyRead(Serve(lib, next, r))
    ensures Invoked(Serve(lib, Logging(Cors(next)), r)) <==> Invoked(Serve(lib, next, r))
  {
    var inner := Serve(lib, next, r);
    var pre := [LogRequest(r.verb, r.path)];
    assert Serve(lib, Cors(next), r) == CorsEvents + inner;
    assert Serve(lib, Logging(Cors(next)), r) == pre + (CorsEvents + inner) + [LogCompleted];
    MarkersAppend(CorsEvents, inner);
    MarkersAppend(pre, CorsEvents + inner);
    MarkersAppend(pre + (CorsEvents + inner), [LogCompleted]);
    assert forall i :: 0 <= i < |CorsEvents| ==> CorsEvents[i].SetHeader?;
    assert pre[0].LogRequest? && [LogCompleted][0].LogCompleted?;
  }

  /** A pre-flight answer keeps its shape inside the logging middleware, which
      adds no body read and no service call. */
  lemma LoggedPreflight(lib: MathLib, next: Handler, r: Request)
    requires r.verb == MethodOptions
    ensures Observe(Serve(lib, Logging(Cors(next)), r)) == Response(StatusOK, CorsHeaders, [])
    ensures !BodyRead(Serve(lib, Logging(Cors(next)), r)) && !Invoked(Serve(lib, Logging(Cors(next)), r))
  {
    CorsPreflight(lib, next, r);
    LoggingTransparent(lib, Cors(next), r);
    var whole := Serve(lib, Logging(Cors(next)), r);
    assert whole == [LogRequest(r.verb, r.path)] + CorsEvents + [WriteStatus(StatusOK), LogCompleted];
    assert forall i :: 0 <= i < |whole| ==> !whole[i].Invoke? && whole[i] != ReadBody;
  }

  /** Any other method goes to the wrapped handler, once and unchanged; the
      client sees its status and body, with the CORS headers added. */
  lemma CorsPassThrough(lib: MathLib, next: Handler, r: Request)
    requires r.verb != MethodOptions
    ensures Serve(lib, Cors(next), r) == CorsEvents + Serve(lib, next, r)
    ensures var inner := Observe(Serve(lib, next, r));
      Observe(Serve(lib, Cors(next), r)) == inner.(headers := CorsHeaders + inner.headers)
  {
    CorsPrefix(Serve(lib, next, r));
  }

  /** A calculation path is served by its handler inside CORS inside
      logging, and the logging markers leave the answer as it is. */
  lemma EndpointRouted(lib: MathLib, op: Op, r: Request)
    requires r.path == CalcPath(op)
    ensures Dispatch(lib, r) == Some(Serve(lib, Logging(Cors(Endpoint(op))), r))
    ensures Observe(Dispatch(lib, r).value) == Observe(Serve(lib, Cors(Endpoint(op)), r))
  {
    CalcRoute(op);
    LoggingTransparent(lib, Cors(Endpoint(op)), r);
  }

  /** A pre-flight request to a calculation path is answered 200 with the
      CORS headers alone, through the whole middleware chain; the body is
      never read and the service never called. */
  lemma EndpointPreflight(lib: MathLib, op: Op, r: Request)
    requires r.path == CalcPath(op)
    requires r.verb == MethodOptions
    ensures Dispatch(lib, r).Some?
    ensures Observe(Dispatch(lib, r).value) == Response(StatusOK, CorsHeaders, [])
    ensures !BodyRead(Dispatch(lib, r).value) && !Invoked(Dispatch(lib, r).value)
  {
    EndpointRouted(lib, op, r);
    LoggedPreflight(lib, Endpoint(op), r);
  }

  /** Any other request to a calculation path gets the handler's status and
      body, with the CORS and JSON headers, through the whole middleware
      chain. */
  lemma EndpointAnswer(lib: MathLib, op: Op, r: Request)
    requires r.path == CalcPath(op)
    requires r.verb != MethodOptions
    ensures Dispatch(lib, r).Some?
    ensures var answer := Observe(Handle(lib, op, r));
      Observe(Dispatch(lib, r).value) == answer.(headers := EndpointHeaders)
  {
    EndpointRouted(lib, op, r);
    CorsPassThrough(lib, Endpoint(op), r);
  }

  /** Through the middleware chain, a calculation endpoint refuses every
      method but POST and OPTIONS with 405, and never reads the body. */
  lemma EndpointRefusesOtherMethods(lib: MathLib, op: Op, r: Request)
    requires r.path == CalcPath(op)
    requires r.verb != MethodPost && r.verb != MethodOptions
    ensures Dispatch(lib, r).Some?
    ensures Observe(Dispatch(lib, r).value) == Response(StatusMethodNotAllowed, EndpointHeaders, [ErrorJson("method not allowed")])
    ensures !BodyRead(Dispatch(lib, r).value) && !Invoked(Dispatch(lib, r).value)
  {
    EndpointAnswer(lib, op, r);
    MethodNotAllowed(lib, op, r);
    EndpointRouted(lib, op, r);
    LoggedCorsMarkers(lib, Endpoint(op), r);
  }

  /** The health check answers every method with 200 and the literal healthy
      body, without CORS headers. */
  lemma HealthAnyMethod(lib: MathLib, r: Request)
    requires r.path == "/health"
    ensures Dispatch(lib, r) == Some(HealthCheck())
    ensures Observe(Dispatch(lib, r).value) == Response(StatusOK, JsonHeaders, [Raw(HealthyBody)])
    ensures "Access-Control-Allow-Origin" !in Observe(Dispatch(lib, r).value).headers
  {
    RouteTable();
    var h := Lookup(Routes, r.path).value;
    RoutedPaths(r.path, h);
  }

  /** The addition example of the handler tests, 10 + 5, through the whole
      middleware chain. */
  lemma AdditionExample(lib: MathLib, body: RequestBody)
    requires body.asBinary == Some((10.0, 5.0))
    ensures Dispatch(lib, Request(MethodPost, "/api/v1/calculate/add", body)).Some?
    ensures Observe(Dispatch(lib, Request(MethodPost, "/api/v1/calculate/add", body)).value)
      == Response(StatusOK, EndpointHeaders, [ResultJson(15.0, "addition")])
  {
    var r := Request(MethodPost, "/api/v1/calculate/add", body);
    assert CalcPath(Add) == r.path;
    EndpointAnswer(lib, Add, r);
    Success(lib, Add, r, Binary(10.0, 5.0));
  }

  /** The division-by-zero example of the handler tests, 10 / 0, through the
      whole middleware chain. */
  lemma DivisionByZeroExample(lib: MathLib, body: RequestBody)
    requires body.asBinary == Some((10.0, 0.0))
    ensures Dispatch(lib, Request(MethodPost, "/api/v1/calculate/divide", body)).Some?
    ensures Observe(Dispatch(lib, Request(MethodPost, "/api/v1/calculate/divide", body)).value)
      == Response(StatusBadRequest, EndpointHeaders, [ErrorJson("division by zero")])
  {
    var r := Request(MethodPost, "/api/v1/calculate/divide", body);
    assert CalcPath(Divide) == r.path;
    EndpointAnswer(lib, Divide, r);
    ServiceError(lib, Divide, r, Binary(10.0, 0.0));
  }
}
