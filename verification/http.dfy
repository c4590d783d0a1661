/** What a handler does to Go's `http.ResponseWriter`, recorded as a trace of
    events, and the response the trace amounts to: the status, the headers
    the handlers set, and the bodies.  Headers `net/http` adds on its own
    (`Date`, `Content-Length`) are not part of it.

    Besides the writer calls (`Header().Set`, `WriteHeader`, `Write`) a trace
    records three kinds of markers that do not touch the writer: the request
    body being decoded, the arithmetic service being invoked, and the two log
    lines of the logging middleware.  They let the model state what a handler
    did NOT do (decode, compute) on a given path. */
module Http {
  import opened Wrappers
  import opened Operations

  type Headers = map<string, string>

  /** What `json.Decoder.Decode` makes of the request body, for each of the
      two request shapes; `None` is a decode error.  The decoder itself is not
      modelled: both outcomes are given with the request. */
  datatype RequestBody = RequestBody(asBinary: Option<(real, real)>, asUnary: Option<real>)

  /** `verb` is `r.Method`, `path` is `r.URL.Path`. */
  datatype Request = Request(verb: string, path: string, body: RequestBody)

  /** A response body: an encoded `Response`, an encoded `ErrorResponse`, or
      literal bytes. */
  datatype Body = ResultJson(result: real, operation: string) | ErrorJson(error: string) | Raw(text: string)

  datatype Event =
    | SetHeader(name: string, value: string)
    | WriteStatus(code: int)
    | WriteBody(body: Body)
    | ReadBody
    | Invoke(op: Op, args: seq<real>)
    | LogRequest(verb: string, path: string)
    | LogCompleted

  type Trace = seq<Event>

  /** Events that leave the writer alone. */
  predicate Quiet(e: Event) {
    e.ReadBody? || e.Invoke? || e.LogRequest? || e.LogCompleted?
  }

  predicate AllQuiet(t: Trace) {
    forall i :: 0 <= i < |t| ==> Quiet(t[i])
  }

  /** The service was called somewhere in the trace. */
  predicate Invoked(t: Trace) {
    exists i :: 0 <= i < |t| && t[i].Invoke?
  }

  /** The request body was decoded somewhere in the trace. */
  predicate BodyRead(t: Trace) {
    exists i :: 0 <= i < |t| && t[i] == ReadBody
  }

  // ---------------------------------------------------------------------------
  // The writer

  /** The state of a `ResponseWriter`: the status once sent, the header map,
      and the bodies written. */
  datatype Writer = Writer(status: Option<int>, headers: Headers, body: seq<Body>)

  const Fresh: Writer := Writer(None, map[], [])

  /** One writer call.  Headers set after the status line are lost, a second
      `WriteHeader` is ignored, and a `Write` before any `WriteHeader` sends
      status 200 first. */
  function Step(w: Writer, e: Event): Writer {
    match e
    case SetHeader(k, v) => if w.status.None? then w.(headers := w.headers[k := v]) else w
    case WriteStatus(c) => if w.status.None? then w.(status := Some(c)) else w
    case WriteBody(b) => w.(status := Some(w.status.GetOr(200)), body := w.body + [b])
    case _ => w
  }

  function Replay(w: Writer, t: Trace): Writer
    decreases |t|
  {
    if |t| == 0 then w else Replay(Step(w, t[0]), t[1..])
  }

  datatype Response = Response(status: int, headers: Headers, body: seq<Body>)

  /** The response the client receives; a handler that writes nothing gets a
      bare 200. */
  function Observe(t: Trace): Response {
    var w := Replay(Fresh, t);
    Response(w.status.GetOr(200), w.headers, w.body)
  }

  // ---------------------------------------------------------------------------
  // Well-behaved traces: headers first, then exactly one status, then the body

  datatype Phase = Open | Sent | Broken

  function Advance(p: Phase, e: Event): Phase {
    match p
    case Open =>
      if e.WriteStatus? then Sent
      else if e.WriteBody? then Broken
      else Open
    case Sent =>
      if e.WriteBody? || e.LogCompleted? then Sent else Broken
    case Broken => Broken
  }

  function Run(p: Phase, t: Trace): Phase
    decreases |t|
  {
    if |t| == 0 then p else Run(Advance(p, t[0]), t[1..])
  }

  /** Every header is set before the status line, the status line is written
      exactly once, nothing but the body and the closing log line follows it,
      and the trace does not stop before a status was sent. */
  predicate Disciplined(t: Trace) {
    Run(Open, t) == Sent
  }

  /** The status codes written, in order. */
  function Statuses(t: Trace): seq<int>
    decreases |t|
  {
    if |t| == 0 then []
    else (if t[0].WriteStatus? then [t[0].code] else []) + Statuses(t[1..])
  }

  /** The bodies written, in order. */
  function Bodies(t: Trace): seq<Body>
    decreases |t|
  {
    if |t| == 0 then []
    else (if t[0].WriteBody? then [t[0].body] else []) + Bodies(t[1..])
  }

  /** `h` with every header the trace sets, later settings winning. */
  function SetAll(h: Headers, t: Trace): Headers
    decreases |t|
  {
    if |t| == 0 then h
    else SetAll(if t[0].SetHeader? then h[t[0].name := t[0].value] else h, t[1..])
  }

  // ---------------------------------------------------------------------------
  // Lemmas

  lemma {:induction false} ReplayAppend(w: Writer, a: Trace, b: Trace)
    ensures Replay(w, a + b) == Replay(Replay(w, a), b)
    decreases |a|
  {
    if |a| == 0 {
      assert a + b == b;
    } else {
      assert (a + b)[0] == a[0];
      assert (a + b)[1..] == a[1..] + b;
      ReplayAppend(Step(w, a[0]), a[1..], b);
    }
  }

  lemma {:induction false} RunAppend(p: Phase, a: Trace, b: Trace)
    ensures Run(p, a + b) == Run(Run(p, a), b)
    decreases |a|
  {
    if |a| == 0 {
      assert a + b == b;
    } else {
      assert (a + b)[0] == a[0];
      assert (a + b)[1..] == a[1..] + b;
      RunAppend(Advance(p, a[0]), a[1..], b);
    }
  }

  /** Quiet events change neither the writer nor an open phase. */
  lemma {:induction false} QuietIsInvisible(w: Writer, t: Trace)
    requires AllQuiet(t)
    ensures Replay(w, t) == w
    ensures Run(Open, t) == Open
    decreases |t|
  {
    if |t| != 0 {
      assert Quiet(t[0]);
      QuietIsInvisible(w, t[1..]);
    }
  }

  lemma {:induction false} BrokenStaysBroken(t: Trace)
    ensures Run(Broken, t) == Broken
    decreases |t|
  {
    if |t| != 0 {
      BrokenStaysBroken(t[1..]);
    }
  }

  /** After the status line, a well-behaved remainder writes no status and
      sets no header; it only appends bodies. */
  lemma {:induction false} ReplayAfterStatus(w: Writer, t: Trace)
    requires w.status.Some?
    requires Run(Sent, t) == Sent
    ensures Statuses(t) == []
    ensures SetAll(w.headers, t) == w.headers
    ensures Replay(w, t) == w.(body := w.body + Bodies(t))
    decreases |t|
  {
    if |t| != 0 {
      var e := t[0];
      if Advance(Sent, e) == Broken {
        BrokenStaysBroken(t[1..]);
        assert false;
      }
      assert e.WriteBody? || e.LogCompleted?;
      var w' := Step(w, e);
      ReplayAfterStatus(w', t[1..]);
      assert w'.status == w.status && w'.headers == w.headers;
      assert Statuses(t) == Statuses(t[1..]);
      assert SetAll(w.headers, t) == SetAll(w.headers, t[1..]);
      assert Bodies(t) == (if e.WriteBody? then [e.body] else []) + Bodies(t[1..]);
      assert w'.body == w.body + (if e.WriteBody? then [e.body] else []);
    }
  }

  /** Before the status line, a well-behaved trace writes exactly one status;
      the client sees that status, every header the trace sets and every body
      it writes. */
  lemma {:induction false} ReplayBeforeStatus(w: Writer, t: Trace)
    requires w.status.None?
    requires Run(Open, t) == Sent
    ensures |Statuses(t)| == 1
    ensures Replay(w, t) == Writer(Some(Statuses(t)[0]), SetAll(w.headers, t), w.body + Bodies(t))
    decreases |t|
  {
    if |t| == 0 {
      assert false;
    }
    var e := t[0];
    var w' := Step(w, e);
    assert Replay(w, t) == Replay(w', t[1..]);
    if e.WriteBody? {
      BrokenStaysBroken(t[1..]);
      assert false;
    } else if e.WriteStatus? {
      assert w' == w.(status := Some(e.code));
      ReplayAfterStatus(w', t[1..]);
      assert Statuses(t) == [e.code] + Statuses(t[1..]);
      assert SetAll(w.headers, t) == SetAll(w.headers, t[1..]);
      assert Bodies(t) == Bodies(t[1..]);
    } else {
      assert w'.status.None? && w'.body == w.body;
      ReplayBeforeStatus(w', t[1..]);
      assert Statuses(t) == Statuses(t[1..]);
      assert SetAll(w.headers, t) == SetAll(w'.headers, t[1..]);
      assert Bodies(t) == Bodies(t[1..]);
    }
  }

  /** The response of a well-behaved trace, read off the trace itself. */
  lemma ObserveDisciplined(t: Trace)
    requires Disciplined(t)
    ensures |Statuses(t)| == 1
    ensures Observe(t) == Response(Statuses(t)[0], SetAll(map[], t), Bodies(t))
  {
    ReplayBeforeStatus(Fresh, t);
  }

  /** Quiet events in front of a trace change nothing the client sees. */
  lemma QuietPrefix(pre: Trace, t: Trace)
    requires AllQuiet(pre)
    ensures Observe(pre + t) == Observe(t)
    ensures Run(Open, pre + t) == Run(Open, t)
  {
    ReplayAppend(Fresh, pre, t);
    RunAppend(Open, pre, t);
    QuietIsInvisible(Fresh, pre);
  }

  /** Setting headers over a base map overrides the base exactly where the
      trace sets a header. */
  lemma {:induction false} SetAllOver(h: Headers, g: Headers, t: Trace)
    ensures SetAll(h + g, t) == h + SetAll(g, t)
    decreases |t|
  {
    if |t| != 0 {
      if t[0].SetHeader? {
        assert (h + g)[t[0].name := t[0].value] == h + g[t[0].name := t[0].value];
        SetAllOver(h, g[t[0].name := t[0].value], t[1..]);
      } else {
        SetAllOver(h, g, t[1..]);
      }
    }
  }

  /** Decoding and service calls in a concatenation are those of its parts. */
  lemma MarkersAppend(pre: Trace, t: Trace)
    ensures BodyRead(pre + t) <==> BodyRead(pre) || BodyRead(t)
    ensures Invoked(pre + t) <==> Invoked(pre) || Invoked(t)
  {
    if BodyRead(pre + t) {
      var i :| 0 <= i < |pre + t| && (pre + t)[i] == ReadBody;
      if i < |pre| {
        assert pre[i] == ReadBody;
      } else {
        assert t[i - |pre|] == ReadBody;
      }
    }
    if BodyRead(pre) {
      var i :| 0 <= i < |pre| && pre[i] == ReadBody;
      assert (pre + t)[i] == ReadBody;
    }
    if BodyRead(t) {
      var i :| 0 <= i < |t| && t[i] == ReadBody;
      assert (pre + t)[|pre| + i] == ReadBody;
    }
    if Invoked(pre + t) {
      var i :| 0 <= i < |pre + t| && (pre + t)[i].Invoke?;
      if i < |pre| {
        assert pre[i].Invoke?;
      } else {
        assert t[i - |pre|].Invoke?;
      }
    }
    if Invoked(pre) {
      var i :| 0 <= i < |pre| && pre[i].Invoke?;
      assert (pre + t)[i].Invoke?;
    }
    if Invoked(t) {
      var i :| 0 <= i < |t| && t[i].Invoke?;
      assert (pre + t)[|pre| + i].Invoke?;
    }
  }
}
