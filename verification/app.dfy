/** The keypad and display logic of the React frontend (`CalculatorApp`).

    The component's state hooks become one immutable record, and each event
    handler a function from state to state.  A handler that starts a
    calculation also returns the `Call` it sends; the answer arrives later as
    a separate event, `Complete`, with an outcome the model does not compute:
    `fetch`, `Number.prototype.toString` and the history-entry text are
    outside the model, and `parseFloat` is passed in as a parameter. */
module App {
  import opened Wrappers
  import opened Operations

  datatype CalcState = CalcState(
    display: string,
    firstOperand: Option<real>,
    operation: Option<Op>,
    waitingForSecond: bool,
    history: seq<string>,
    error: Option<string>)

  /** The state the component mounts with. */
  const Initial := CalcState("0", None, None, false, [], None)

  /** How many history entries are kept. */
  const HistoryLimit := 5

  /** A calculation sent to the backend: `b` is absent for square root. */
  datatype Call = Call(op: Op, a: real, b: Option<real>)

  /** How a calculation ends: the result as displayed together with its
      history line, or the message of the error thrown. */
  datatype Outcome = Ok(shown: string, entry: string) | Err(message: string)

  // ---------------------------------------------------------------------------
  // Decimal points

  function DotCount(s: string): nat
    decreases |s|
  {
    if |s| == 0 then 0 else (if s[0] == '.' then 1 else 0) + DotCount(s[1..])
  }

  lemma {:induction false} DotCountAppend(a: string, b: string)
    ensures DotCount(a + b) == DotCount(a) + DotCount(b)
    decreases |a|
  {
    if |a| == 0 {
      assert a + b == b;
    } else {
      assert (a + b)[0] == a[0];
      assert (a + b)[1..] == a[1..] + b;
      DotCountAppend(a[1..], b);
    }
  }

  /** `display.includes('.')` is a positive dot count. */
  lemma {:induction false} DotCountContains(s: string)
    ensures '.' in s <==> DotCount(s) > 0
    decreases |s|
  {
    if |s| != 0 {
      assert s == [s[0]] + s[1..];
      DotCountContains(s[1..]);
    }
  }

  // ---------------------------------------------------------------------------
  // Event handlers

  /** `handleNumber`: typing `num` starts a new number after an operator or
      over a lone "0", and otherwise extends the display; any error is
      cleared. */
  function HandleNumber(s: CalcState, num: string): (r: CalcState)
    ensures r.error.None? && !r.waitingForSecond
    ensures r.firstOperand == s.firstOperand && r.operation == s.operation && r.history == s.history
    ensures s.waitingForSecond || s.display == "0" ==> r.display == num
    ensures !s.waitingForSecond && s.display != "0" ==> |r.display| == |s.display| + |num|
    ensures !s.waitingForSecond && s.display != "0" ==> r.display[..|s.display|] == s.display && r.display[|s.display|..] == num
  {
    if s.waitingForSecond then
      s.(error := None, display := num, waitingForSecond := false)
    else
      s.(error := None, display := if s.display == "0" then num else s.display + num)
  }

  /** `handleDecimal`: a point starts "0." after an operator and is otherwise
      added only to a display without one; the error is left as it was. */
  function HandleDecimal(s: CalcState): (r: CalcState)
    ensures r.error == s.error && r.history == s.history
    ensures r.firstOperand == s.firstOperand && r.operation == s.operation
    ensures !r.waitingForSecond && '.' in r.display
    ensures s.waitingForSecond ==> r.display == "0."
    ensures !s.waitingForSecond ==> |s.display| <= |r.display| && r.display[..|s.display|] == s.display
    ensures !s.waitingForSecond ==> DotCount(r.display) == if DotCount(s.display) == 0 then 1 else DotCount(s.display)
    ensures !s.waitingForSecond && '.' !in s.display ==> r.display == s.display + "."
    ensures !s.waitingForSecond && '.' in s.display ==> r == s
  {
    DotCountContains(s.display);
    if s.waitingForSecond then
      var r := s.(display := "0.", waitingForSecond := false);
      assert r.display[1] == '.';
      r
    else if '.' !in s.display then
      var r := s.(display := s.display + ".");
      DotCountAppend(s.display, ".");
      assert r.display[|s.display|] == '.';
      assert DotCount(".") == 1 by {
        assert "."[1..] == [];
      }
      r
    else
      s
  }

  /** `handleOperation`.  Square root is sent at once; the first operator
      stores the displayed number and waits for the second one; an operator
      pressed while one is pending sends the pending calculation. */
  function HandleOperation(s: CalcState, op: Op, parseFloat: string -> real): (r: (CalcState, Option<Call>))
    ensures op == Sqrt ==> r == (s, Some(Call(Sqrt, parseFloat(s.display), None)))
    ensures op != Sqrt && s.firstOperand.None? ==>
      r == (s.(firstOperand := Some(parseFloat(s.display)), operation := Some(op), waitingForSecond := true), None)
    ensures op != Sqrt && s.firstOperand.Some? ==> r.0 == s
    ensures op != Sqrt && s.firstOperand.Some? && s.operation.Some? ==>
      r.1 == Some(Call(s.operation.value, s.firstOperand.value, Some(parseFloat(s.display))))
    ensures op != Sqrt && s.firstOperand.Some? && s.operation.None? ==> r.1.None?
  {
    var current := parseFloat(s.display);
    if op == Sqrt then
      (s, Some(Call(Sqrt, current, None)))
    else if s.firstOperand.None? then
      (s.(firstOperand := Some(current), operation := Some(op), waitingForSecond := true), None)
    else if s.operation.Some? then
      (s, Some(Call(s.operation.value, s.firstOperand.value, Some(current))))
    else
      (s, None)
  }

  /** `handleEquals`: sends the pending calculation when there is one and
      changes nothing else. */
  function HandleEquals(s: CalcState, parseFloat: string -> real): (r: (CalcState, Option<Call>))
    ensures r.0 == s
    ensures r.1.Some? <==> s.firstOperand.Some? && s.operation.Some?
    ensures r.1.Some? ==> r.1.value == Call(s.operation.value, s.firstOperand.value, Some(parseFloat(s.display)))
  {
    if s.firstOperand.Some? && s.operation.Some? then
      (s, Some(Call(s.operation.value, s.firstOperand.value, Some(parseFloat(s.display)))))
    else
      (s, None)
  }

  /** `handleClear` (AC): back to the mounted state, except that the history
      is kept. */
  function HandleClear(s: CalcState): (r: CalcState)
    ensures r == Initial.(history := s.history)
  {
    s.(display := "0", firstOperand := None, operation := None, waitingForSecond := false, error := None)
  }

  /** `handleClearHistory`: empties the history and touches nothing else. */
  function HandleClearHistory(s: CalcState): (r: CalcState)
    ensures r.history == []
    ensures r.(history := s.history) == s
  {
    s.(history := [])
  }

  /** `[entry, ...history].slice(0, 5)`: the newest entry first, then the
      older ones, at most five in all. */
  function Remember(entry: string, history: seq<string>): (h: seq<string>)
    ensures |h| == if |history| < HistoryLimit then |history| + 1 else HistoryLimit
    ensures h[0] == entry
    ensures h[1..] == history[..|h| - 1]
  {
    var all := [entry] + history;
    var h := if |all| <= HistoryLimit then all else all[..HistoryLimit];
    assert h[1..] == history[..|h| - 1];
    h
  }

  /** The state updates at the end of `performCalculation`.  Either way the
      pending operand and operation are dropped; a result is shown and
      remembered, an error shows "Error" and keeps its message. */
  function Complete(s: CalcState, outcome: Outcome): (r: CalcState)
    ensures r.firstOperand.None? && r.operation.None?
    ensures r.waitingForSecond == s.waitingForSecond
    ensures outcome.Ok? ==>
      r.display == outcome.shown && r.error.None? && r.history == Remember(outcome.entry, s.history)
    ensures outcome.Err? ==>
      r.display == "Error" && r.error == Some(outcome.message) && r.history == s.history
  {
    match outcome
    case Ok(shown, entry) =>
      s.(display := shown, history := Remember(entry, s.history), firstOperand := None, operation := None, error := None)
    case Err(message) =>
      s.(error := Some(message), display := "Error", firstOperand := None, operation := None)
  }

  // ---------------------------------------------------------------------------
  // The keypad

  type DigitValue = n: nat | n < 10

  /** The keys of the keypad. */
  datatype Key = Digit(n: DigitValue) | Point | Operator(op: Op) | Equals | AllClear | ClearHistory

  function DigitText(n: DigitValue): (d: string)
    ensures |d| == 1 && '0' <= d[0] <= '9'
  {
    [(48 + n) as char]
  }

  /** What pressing `key` does, with the calculation it sends, if any. */
  function Press(s: CalcState, key: Key, parseFloat: string -> real): (CalcState, Option<Call>) {
    match key
    case Digit(n) => (HandleNumber(s, DigitText(n)), None)
    case Point => (HandleDecimal(s), None)
    case Operator(op) => HandleOperation(s, op, parseFloat)
    case Equals => HandleEquals(s, parseFloat)
    case AllClear => (HandleClear(s), None)
    case ClearHistory => (HandleClearHistory(s), None)
  }

  /** Something that happens to the component: a key press, or the answer
      to a calculation sent earlier. */
  datatype Input = Pressed(key: Key) | Answered(outcome: Outcome)

  /** An answer whose displayed result is a well-formed number: at most one
      decimal point, as `Number.prototype.toString` produces. */
  predicate Plausible(i: Input) {
    i.Answered? && i.outcome.Ok? ==> DotCount(i.outcome.shown) <= 1
  }

  /** The state after a sequence of inputs, in order. */
  function Session(s: CalcState, inputs: seq<Input>, parseFloat: string -> real): CalcState
    decreases |inputs|
  {
    if |inputs| == 0 then s
    else
      var next := match inputs[0]
        case Pressed(k) => Press(s, k, parseFloat).0
        case Answered(o) => Complete(s, o);
      Session(next, inputs[1..], parseFloat)
  }

  /** The invariant of the component's state: at most five history entries,
      an operand is pending exactly when an operation is, and the display
      holds at most one decimal point. */
  predicate Consistent(s: CalcState) {
    && |s.history| <= HistoryLimit
    && (s.firstOperand.Some? <==> s.operation.Some?)
    && DotCount(s.display) <= 1
  }

  // ---------------------------------------------------------------------------
  // Lemmas

  /** Typing a digit never adds a decimal point, and typing a point never adds
      a second one. */
  lemma KeypadDots(s: CalcState, n: DigitValue)
    ensures DotCount(HandleNumber(s, DigitText(n)).display) <= DotCount(s.display)
    ensures DotCount(HandleDecimal(s).display) <= if DotCount(s.display) <= 1 then 1 else DotCount(s.display)
  {
    var d := DigitText(n);
    assert DotCount(d) == 0 by {
      assert d[1..] == [];
    }
    if !s.waitingForSecond && s.display != "0" {
      DotCountAppend(s.display, d);
    }
    if s.waitingForSecond {
      assert DotCount("0.") == 1 by {
        assert "0."[1..] == ".";
        assert "."[1..] == [];
      }
    }
  }

  /** Every key press keeps the state consistent. */
  lemma PressKeepsConsistent(s: CalcState, key: Key, parseFloat: string -> real)
    requires Consistent(s)
    ensures Consistent(Press(s, key, parseFloat).0)
  {
    match key
    case Digit(n) => KeypadDots(s, n);
    case Point => KeypadDots(s, 0);
    case _ =>
      assert DotCount(Initial.display) == 0 by {
        assert "0"[1..] == [];
      }
  }

  /** Every answer whose result is a well-formed number keeps the state
      consistent; in particular the history never exceeds five entries. */
  lemma CompleteKeepsConsistent(s: CalcState, outcome: Outcome)
    requires Consistent(s)
    requires Plausible(Answered(outcome))
    ensures Consistent(Complete(s, outcome))
  {
    if outcome.Err? {
      assert DotCount("Error") == 0 by {
        assert "Error"[1..] == "rror";
        assert "rror"[1..] == "ror";
        assert "ror"[1..] == "or";
        assert "or"[1..] == "r";
        assert "r"[1..] == [];
      }
    }
  }

  /** From a consistent state, any interleaving of key presses and answers
      stays consistent: the display never gains a second decimal point and
      the history never holds more than five entries. */
  lemma {:induction false} SessionKeepsConsistent(s: CalcState, inputs: seq<Input>, parseFloat: string -> real)
    requires Consistent(s)
    requires forall i :: 0 <= i < |inputs| ==> Plausible(inputs[i])
    ensures Consistent(Session(s, inputs, parseFloat))
    decreases |inputs|
  {
    if |inputs| != 0 {
      var next := match inputs[0]
        case Pressed(k) => Press(s, k, parseFloat).0
        case Answered(o) => Complete(s, o);
      match inputs[0] {
        case Pressed(k) => PressKeepsConsistent(s, k, parseFloat);
        case Answered(o) => assert Plausible(inputs[0]); CompleteKeepsConsistent(s, o);
      }
      assert forall i :: 0 <= i < |inputs[1..]| ==> inputs[1..][i] == inputs[i + 1];
      SessionKeepsConsistent(next, inputs[1..], parseFloat);
    }
  }

  lemma InitialConsistent()
    ensures Consistent(Initial)
  {
    assert "0"[1..] == [];
  }

  /** While an operation is pending, the operator pressed next does not
      matter: the pending operation is the one sent. */
  lemma PendingOperatorWins(s: CalcState, x: Op, y: Op, parseFloat: string -> real)
    requires Consistent(s) && s.firstOperand.Some?
    requires x != Sqrt && y != Sqrt
    ensures HandleOperation(s, x, parseFloat) == HandleOperation(s, y, parseFloat)
    ensures HandleOperation(s, x, parseFloat).1.value.op == s.operation.value
  {
  }

  /** The keypad examples of the component tests: 1, 2, 3 shows "123" and
      5, ".", 2 shows "5.2". */
  lemma TypingExamples(parseFloat: string -> real)
    ensures Session(Initial, [Pressed(Digit(1)), Pressed(Digit(2)), Pressed(Digit(3))], parseFloat).display == "123"
    ensures Session(Initial, [Pressed(Digit(5)), Pressed(Point), Pressed(Digit(2))], parseFloat).display == "5.2"
  {
  }

  /** The call sent by typing 1, 0, ÷, 0, = on a fresh keypad. */
  function DivisionTyped(parseFloat: string -> real): Option<Call> {
    var keys := [Pressed(Digit(1)), Pressed(Digit(0)), Pressed(Operator(Divide)), Pressed(Digit(0))];
    Press(Session(Initial, keys, parseFloat), Equals, parseFloat).1
  }

  /** Typing 1, 0, ÷, 0 and then = sends the division of the number parsed
      from "10" by the number parsed from "0". */
  lemma TypingDivision(parseFloat: string -> real)
    ensures DivisionTyped(parseFloat) == Some(Call(Divide, parseFloat("10"), Some(parseFloat("0"))))
  {
    var keys := [Pressed(Digit(1)), Pressed(Digit(0)), Pressed(Operator(Divide)), Pressed(Digit(0))];
    var s1 := Press(Initial, Digit(1), parseFloat).0;
    assert s1.display == "1";
    var s2 := Press(s1, Digit(0), parseFloat).0;
    assert s2.display == "10";
    var s3 := Press(s2, Operator(Divide), parseFloat).0;
    assert s3.firstOperand == Some(parseFloat("10")) && s3.operation == Some(Divide);
    var s4 := Press(s3, Digit(0), parseFloat).0;
    assert s4.display == "0" && s4.firstOperand == s3.firstOperand && s4.operation == s3.operation;
    assert keys[1..][1..][1..][1..] == [];
    assert Session(Initial, keys, parseFloat) == Session(s1, keys[1..], parseFloat);
    assert Session(s1, keys[1..], parseFloat) == Session(s2, keys[1..][1..], parseFloat);
    assert Session(s2, keys[1..][1..], parseFloat) == Session(s3, keys[1..][1..][1..], parseFloat);
    assert Session(s3, keys[1..][1..][1..], parseFloat) == s4;
  }
}
