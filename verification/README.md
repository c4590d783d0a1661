# Calculator app: a Dafny model of the request pipeline and the keypad

The calculator app is a small Go HTTP service that exposes seven arithmetic
operations as JSON endpoints, plus a React keypad that calls them. This project
models two parts of it and proves properties of each:

- **The backend, as a pure function from request to response.** It covers the
  arithmetic service's guards (`calculator.Service`) and the handlers' decision
  sequence: method check, decode, compute, error-to-status mapping and the fixed
  operation tag. It also covers the CORS and logging middleware, the health
  check and the fixed route table of `main`.
- **The frontend keypad/display state machine** (`CalculatorApp`'s event
  handlers). It covers digits, the decimal point, operators, equals, AC,
  clear-history, and the state updates when a calculation completes.

Modules, leaf first:

| file | module | models |
|---|---|---|
| `wrappers.dfy` | `Wrappers` | `Option`: Go's `nil` and TypeScript's `null` |
| `operations.dfy` | `Operations` | the seven operations and their URL names |
| `calculator.dfy` | `Calculator` | `service.go` |
| `http.dfy` | `Http` | what a handler does to a `ResponseWriter`, as an event trace, and the response it amounts to: status, the headers the handlers set, and bodies |
| `handlers.dfy` | `Handlers` | `handler.go` |
| `server.dfy` | `Server` | `main.go`: middleware, health check, routes |
| `app.dfy` | `App` | `App.tsx`: the event handlers and the state updates of `performCalculation` |
| `client.dfy` | `Client` | `App.tsx`'s `callApi`, joined end to end with the backend |

Modelling choices:

- **Numbers.** Numbers are exact `real`s. `math.Pow` and `math.Sqrt` have no
  definition here. They are the two fields of a `MathLib` record that every
  operation receives as a parameter. `Calculator.SqrtLaw` states what an exact
  square root promises, and only lemmas assume it.
- **Handler effects.** A handler's effect is a trace of events:
  - `SetHeader`, `WriteStatus` and `WriteBody` are the three writer calls.
  - `ReadBody` marks that the JSON decoder consumed the body.
  - `Invoke` marks that the service was called.
  - `LogRequest` and `LogCompleted` are the two log lines.

  `Http.Observe` replays a trace with the writer's rules. Headers are frozen at
  the first `WriteHeader`, and a later `WriteHeader` is ignored. A `Write` with
  no status sends 200 first.

  `Http.Disciplined` says a trace writes all headers before exactly one status
  line and then only the body.

  The markers let lemmas say what a path did *not* do, for example that a 405
  never decoded the body.
- **Decoding.** The JSON decoder is an oracle. A request carries what its body
  decodes to under each request shape, `asBinary` and `asUnary`. Go's decoder
  can accept a body under one shape and reject it under the other, so the two
  are independent.
- **Handlers.** The seven handler methods differ only in the operation, so
  `Handlers.Handle` takes the operation as a parameter. The handler values that
  `main` builds form a datatype: `Health`, `Endpoint(op)`, `Cors(next)` and
  `Logging(next)`. `Server.Serve` runs such a value on a request.
- **Frontend.** Each frontend handler is a function from state to state. A
  handler that starts a calculation also returns the `Call` it sends. The
  answer arrives later as a separate input, `App.Complete`, with an outcome
  `Ok(shown, entry) | Err(message)`. `parseFloat` is passed in as a parameter.
  Answers may interleave with key presses in any order, which over-approximates
  the asynchronous `performCalculation`.

## Model

| member | source | states |
|---|---|---|
| Calculator.Add | backend/internal/calculator/service.go:24-26 | the sum minus either operand gives back the other operand |
| Calculator.Subtract | backend/internal/calculator/service.go:29-31 | the difference plus the subtrahend gives back the minuend |
| Calculator.Multiply | backend/internal/calculator/service.go:34-36 | dividing the product by a non-zero operand gives back the other operand, and the product is 0 when either operand is 0 |
| Calculator.Divide | backend/internal/calculator/service.go:40-45 | fails exactly when the divisor is 0, then with value 0 and `ErrDivisionByZero`; on success the quotient times the divisor is the dividend |
| Calculator.SquareRoot | backend/internal/calculator/service.go:54-59 | fails exactly when the operand is negative (0 is accepted), then with value 0 and `ErrNegativeSqrt`; on success the value is `math.Sqrt` of the operand |
| Calculator.SquareRootInvertsSquaring | backend/internal/calculator/service.go:52-59 | with an exact square root, every non-negative operand succeeds with a non-negative value whose square is the operand |
| Calculator.PowerExamples | backend/internal/calculator/service.go:48-50 | power has no error path and returns what `math.Pow` gives; with an exact power for whole exponents, 2^3 = 8, 5^0 = 1, 2^-2 = 0.25 and 2^10 = 1024, the whole-exponent cases of the unit tests |
| Calculator.Percentage | backend/internal/calculator/service.go:61-65 | a percent of b, times 100, is a·b; a percent of 100 is a, and 100 percent of b is b |
| Calculator.PercentageExamples | backend/internal/calculator/service_test.go:186-191 | the six percentage test cases, including 20% of 100 = 20 and 150% of 100 = 150 |
| Calculator.MessagesDistinct | backend/internal/calculator/service.go:10-12 | the three error texts are pairwise different |
| Operations.SegmentInjective | backend/cmd/server/main.go:52-58 | different operations have different URL names |
| Http.ObserveDisciplined | backend/internal/handlers/handler.go:45-49 | a trace that sets headers, then writes one status, then a body, delivers exactly that one status, every header it set, and every body it wrote |
| Handlers.SendJSON | backend/internal/handlers/handler.go:45-49 | the response has the given status, the JSON content type and exactly the given body, and the trace is disciplined (header before status) |
| Handlers.SendError | backend/internal/handlers/handler.go:52-54 | the response has the given status and an error body carrying exactly the message |
| Handlers.ValidateMethod | backend/internal/handlers/handler.go:57-63 | passes exactly for POST; anything else is answered 405 "method not allowed" without reading the body or calling the service |
| Handlers.DecodeBinary | backend/internal/handlers/handler.go:66-73 | passes exactly when the body decodes as a pair, with those operands; otherwise answers 400 "invalid request body" without calling the service |
| Handlers.DecodeUnary | backend/internal/handlers/handler.go:76-83 | passes exactly when the body decodes as a single operand; otherwise answers 400 "invalid request body" |
| Handlers.Decode | backend/internal/handlers/handler.go:186-189 | square root decodes the unary shape and every other operation the binary shape; the decoded operands fit the operation |
| Handlers.Compute | backend/internal/calculator/service.go:24-65 | the service fails exactly on a zero divisor for division or a negative operand for square root, only with those two errors (never `ErrInvalidInput`) and value 0; otherwise it returns the exact reference value |
| Handlers.Conclude | backend/internal/handlers/handler.go:150-159 | a service error is answered 400 with the error's own text; a result is answered 200 with the value and the operation's tag; neither reads the body nor calls the service again |
| Handlers.Handle | backend/internal/handlers/handler.go:86-101 | every path of a handler writes one disciplined response with the JSON content type and exactly one body |
| Handlers.MethodNotAllowed | backend/internal/handlers/handler.go:86-89 | a non-POST request gets 405 "method not allowed"; the body is never decoded and the service never called |
| Handlers.InvalidBody | backend/internal/handlers/handler.go:91-94 | a POST whose body does not decode gets 400 "invalid request body"; the service is not called |
| Handlers.ServiceError | backend/internal/handlers/handler.go:150-154 | a service error is answered 400 with exactly the service's message ("division by zero" or the negative-root text) and no result, after calling the service with the decoded operands |
| Handlers.Success | backend/internal/handlers/handler.go:96-100 | an accepted request is answered 200 with the exact result and the operation's fixed tag, after calling the service with the decoded operands |
| Handlers.HandleMeetsExpected | backend/internal/handlers/handler.go:140-161 | every handler answers exactly what the decision sequence owes: 405 for a non-POST, 400 "invalid request body" for an undecodable body, 400 with the domain message for a zero divisor or negative root, else 200 with the exact value and tag |
| Handlers.StatusTable | backend/internal/handlers/handler.go:140-161 | the status is 405 iff the method is not POST, 400 iff a POST fails to decode or hits a service error, and 200 iff neither |
| Handlers.InfallibleRefusals | backend/internal/handlers/handler.go:86-101 | for add, subtract, multiply, power and percentage, the only refusals are 405 and the decode-failure 400 |
| Handlers.TagInjective | backend/internal/handlers/handler.go:97-100 | different operations report different operation tags |
| Server.HealthCheck | backend/cmd/server/main.go:45-49 | the health handler answers 200 with the JSON content type and the literal healthy body |
| Server.CorsEventsSetHeaders | backend/cmd/server/main.go:15-17 | the CORS middleware's first three actions set exactly the three CORS headers, before any status line |
| Server.Serve | backend/cmd/server/main.go:13-35 | every composition of middleware and handlers writes one disciplined response |
| Server.Dispatch | backend/cmd/server/main.go:42-58 | every request the multiplexer routes gets one disciplined response |
| Server.DispatchedPaths | backend/cmd/server/main.go:44-58 | a request is routed exactly when its path is `/health` or one of the seven calculation paths |
| Server.Lookup | backend/cmd/server/main.go:44-58 | a path is routed exactly when some table entry has that path, and then to that entry's handler |
| Server.RouteTable | backend/cmd/server/main.go:44-58 | the table has eight routes: the health check, then one per operation as `Logging(Cors(handler))` with the matching handler, each operation exactly once |
| Server.CalcRoute | backend/cmd/server/main.go:52-58 | each operation's path reaches its own handler, wrapped in CORS and then in logging |
| Server.RoutedPaths | backend/cmd/server/main.go:45-58 | no path other than the health path and the seven calculation paths is routed |
| Server.LoggingTransparent | backend/cmd/server/main.go:29-35 | logging calls the wrapped handler exactly once with the unchanged request, and the client sees exactly the wrapped handler's response |
| Server.CorsPreflight | backend/cmd/server/main.go:19-22 | an OPTIONS request gets 200 with the three CORS headers and no body; the wrapped handler never runs |
| Server.CorsPassThrough | backend/cmd/server/main.go:13-24 | any other method runs the wrapped handler once, and the client sees its status and body with the CORS headers added |
| Server.LoggedCorsMarkers | backend/cmd/server/main.go:13-35 | past the pre-flight check, the CORS and logging middleware add no body read and no service call: the full chain decodes and computes exactly when the wrapped handler does |
| Server.LoggedPreflight | backend/cmd/server/main.go:19-35 | inside the logging middleware a pre-flight still gets 200 with only the CORS headers, and no body read or service call appears |
| Server.CorsPrefix | backend/cmd/server/main.go:15-17 | the three CORS headers set ahead of any well-behaved answer reach the client beside that answer's own headers, and change nothing else |
| Server.EndpointRouted | backend/cmd/server/main.go:52-58 | a calculation path is served by its own handler inside CORS inside logging, and the client sees what the CORS-wrapped handler answers |
| Server.EndpointPreflight | backend/cmd/server/main.go:19-22 | through the full chain, OPTIONS to a calculation path gets 200 with, of the headers the handlers set, only the CORS headers, and no body, without decoding or computing |
| Server.EndpointAnswer | backend/cmd/server/main.go:23-24 | through the full chain, any other method to a calculation path gets exactly the handler's status and body with the CORS and JSON headers |
| Server.EndpointRefusesOtherMethods | backend/internal/handlers/handler.go:57-63 | through the full chain, every method other than POST and OPTIONS gets 405 "method not allowed", and the body is never read nor the service called (for HEAD, `net/http` then drops the body) |
| Server.HealthAnyMethod | backend/cmd/server/main.go:45-49 | `/health` answers every method with 200 and the literal healthy body, without CORS headers (for HEAD, `net/http` then drops the body) |
| Server.AdditionExample | backend/internal/handlers/handler_test.go:21-27 | POST add {10, 5} through the full chain gives 200 with result 15 and tag "addition" |
| Server.DivisionByZeroExample | backend/internal/handlers/handler_test.go:128-133 | POST divide {10, 0} through the full chain gives 400 "division by zero" |
| App.HandleNumber | frontend/src/App.tsx:27-35 | a digit replaces the display after an operator or over "0" and is appended otherwise; it clears the error and the waiting flag and leaves the rest alone |
| App.HandleDecimal | frontend/src/App.tsx:37-44 | after an operator the display becomes "0."; otherwise exactly one "." is appended when the display has none, and a display that already has one leaves the whole state unchanged; the dot count is then 1 or unchanged |
| App.KeypadDots | frontend/src/App.tsx:27-44 | a digit never adds a decimal point, and a point never makes a second one |
| App.HandleOperation | frontend/src/App.tsx:124-139 | square root is sent at once; the first operator stores the parsed display and the operator and waits; with an operand pending, the state is unchanged and the pending calculation is sent, or nothing when no operation is pending |
| App.PendingOperatorWins | frontend/src/App.tsx:132-138 | with an operation pending, the operator pressed next does not matter: the pending one is sent |
| App.HandleEquals | frontend/src/App.tsx:141-146 | sends a call exactly when both an operand and an operation are pending, and changes no state |
| App.HandleClear | frontend/src/App.tsx:148-154 | AC gives the mounted state with the history kept |
| App.HandleClearHistory | frontend/src/App.tsx:156-158 | the history becomes empty and nothing else changes |
| App.Remember | frontend/src/App.tsx:110 | the newest entry comes first, then the older ones in order, at most five in all |
| App.Complete | frontend/src/App.tsx:109-120 | after any answer no operand or operation is pending; a result is shown and remembered with the error cleared; an error shows "Error", keeps the message and leaves the history alone |
| App.InitialConsistent | frontend/src/App.tsx:19-24 | the mounted state is consistent |
| App.PressKeepsConsistent | frontend/src/App.tsx:124-158 | every key press keeps at most five history entries, the operand and operation pending together, and at most one decimal point |
| App.CompleteKeepsConsistent | frontend/src/App.tsx:109-120 | every answer whose shown result has at most one point keeps the state consistent |
| App.SessionKeepsConsistent | frontend/src/App.tsx:27-158 | any interleaving of key presses and answers keeps the state consistent: the display never gains a second point, and the history never exceeds five entries |
| App.TypingExamples | frontend/src/App.test.tsx:127-147 | typing 1, 2, 3 shows "123"; typing 5, ".", 2 shows "5.2" |
| App.TypingDivision | frontend/src/App.test.tsx:69-82 | typing 1, 0, ÷, 0, = sends the division of the number parsed from "10" by the number parsed from "0" |
| Client.ToRequest | frontend/src/App.tsx:49-53 | every call is a POST to the backend path of its own operation, whose body decodes to exactly the call's operands |
| Client.Receive | frontend/src/App.tsx:55-63 | a non-2xx answer is always read as an error with a non-empty message, the body's `error` field when it has one; a 2xx answer is read as a result exactly when it carries one, and then as that value |
| Client.CallsReachTheirHandler | frontend/src/App.tsx:46-53 | the URL each frontend operation calls is routed to the backend handler of the same operation |
| Client.CallAnswered | frontend/src/App.tsx:76-104 | the backend answers every frontend call, never with 405: either 200 with the exact result and the operation's tag, or 400 with the service's message |
| Client.RoundTrip | frontend/src/App.tsx:55-63 | the frontend reads the backend's answer to its own call as the exact result, or as the service's error message |
| Client.DivisionByZeroShown | frontend/src/App.tsx:115-120 | dividing by zero ends with "Error" on the display and "division by zero" as the error |
| Client.DivisionByZeroScenario | frontend/src/App.test.tsx:69-87 | the keypad sequence 1, 0, ÷, 0, = reaches the backend as 10 ÷ 0, and the answer is read as the error "division by zero" |

## Left out

- IEEE-754 arithmetic is not modelled: rounding, NaN, ±Inf and negative zero. In
  Go, NaN < 0 is false, so `SquareRoot(NaN)` succeeds. -0 == 0, so dividing by
  -0 fails like dividing by 0. Numbers are exact reals here.
- Calculator.Power: `math.Pow` is a parameter. `Calculator.PowerExamples`
  covers the whole-exponent test cases under a stated law of exact powers;
  4^0.5 = 2 is left out because it needs the square root law and
  non-linear real arithmetic.
- Calculator.SquareRootInvertsSquaring: does not state that the root of 0 is 0.
  That is a property of `math.Sqrt`, and the service passes 0 through to it.
- `encoding/json` is not modelled. Decoding is an oracle: what a body decodes
  to, or that it fails, comes with the request. That covers missing fields
  defaulting to zero and trailing data. Response bodies are datatypes, not
  bytes.
- `net/http` plumbing is not modelled: mux pattern matching, redirects,
  `ListenAndServe`, and the default 404 for unrouted paths. `Server.Dispatch`
  returns `None` for those paths.
- `net/http` adds headers of its own that `Http.Observe` does not list: `Date`
  on every response, and `Content-Length` on short ones, `Content-Length: 0`
  for the bodiless pre-flight answer. The headers stated here are the ones the
  handlers set.
- `net/http` drops the body of every HEAD response. `Http.Observe` still
  reports the body. So HEAD `/health` (`Server.HealthAnyMethod`) and HEAD to a
  calculation path (`Server.EndpointRefusesOtherMethods`) reach the client with
  their status and headers but no body.
- The log output and timing of the logging middleware appear only as two
  markers. The startup prints of `main` are left out.
- The frontend's rendering, `fetch` and Promise handling, and the `loading`
  flag are not modelled.
- React state batching and the stale `history` captured by
  `performCalculation` are not modelled. `App.Complete` prepends to the current
  history instead.
- `parseFloat`, `Number.prototype.toString` and the text of history entries
  are not modelled. They are parameters or come with the outcome.
  `App.CompleteKeepsConsistent` assumes the shown result has at most one
  decimal point, which holds for JavaScript's number-to-string conversion.
- Client.ToRequest: assumes finite operands. `JSON.stringify` turns NaN and
  infinities into `null`, and Go would decode that as 0.
- Client.Receive: a 2xx answer without a result field is left unmodelled and
  returns `None`. Under exact-real arithmetic the backend never sends one to a
  POST. A non-2xx answer whose body is not JSON makes `response.json()` throw
  before the status is looked at. The message is then the parser's, not "API
  request failed". Response bodies here are always JSON datatypes, so that
  case is not modelled.
- IEEE results the JSON encoder refuses are not modelled. `math.Pow(-8, 0.5)`
  is NaN and 1e308 * 10 is +Inf. `sendJSON` writes the 200 status first, and
  then `json.Encoder` refuses the value and writes no body. The client gets 200
  with an empty body, `response.json()` throws, and the display shows "Error".
  With exact reals this path does not arise.
- The test files are used only as evidence for the properties and examples
  above.
