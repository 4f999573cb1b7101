/** The Loki log sink: a bounded buffer, one sender goroutine, and a shutdown that flushes,
    as a state machine over the steps of Handle, Close and the sender loop. */
module LokiSink {
  import opened Options

  const BUFFER: nat := 1024

  /** The sender goroutine. `Sending`/`FlushSending`: inside `send` with a record taken from the buffer. */
  datatype Loop = Waiting | Sending | Flushing | FlushSending | Exited

  /** `accepted` and `sent` list the records put into the buffer and those passed to `send`, in order.
      `closing` and the closed stop channel are set together under the mutex. `closers`: calls of Close, returned or not. */
  datatype State = State(buffer: seq<nat>, loop: Loop, closing: bool, accepted: seq<nat>, sent: seq<nat>, closers: map<nat, bool>, waitGroup: int)

  const Initial := State([], Waiting, false, [], [], map[], 1)

  datatype Action =
    | Handle(r: nat)
    | Receive
    | SendReturns
    | SeeStop
    | FlushEmpty
    | CloseCall(k: nat)
    | CloseReturn(k: nat)

  function Step(s: State, a: Action): Option<State> {
    match a
    case Handle(r) =>
      if s.closing || |s.buffer| >= BUFFER then Some(s)            // ignored, or dropped because full
      else Some(s.(buffer := s.buffer + [r], accepted := s.accepted + [r]))
    case Receive =>
      if s.buffer == [] || !(s.loop.Waiting? || s.loop.Flushing?) then None
      else Some(s.(buffer := s.buffer[1..], sent := s.sent + [s.buffer[0]],
                   loop := if s.loop.Waiting? then Sending else FlushSending))
    case SendReturns =>
      if s.loop.Sending? then Some(s.(loop := Waiting))
      else if s.loop.FlushSending? then Some(s.(loop := Flushing)) else None
    case SeeStop => if s.loop.Waiting? && s.closing then Some(s.(loop := Flushing)) else None
    case FlushEmpty =>
      if s.loop.Flushing? && s.buffer == [] then Some(s.(loop := Exited, waitGroup := s.waitGroup - 1)) else None
    case CloseCall(k) =>
      if k in s.closers then None else Some(s.(closing := true, closers := s.closers[k := false]))
    case CloseReturn(k) =>
      if k !in s.closers || s.closers[k] || s.waitGroup != 0 then None else Some(s.(closers := s.closers[k := true]))
  }

  function Run(s: State, run: seq<Action>): Option<State> {
    if run == [] then Some(s)
    else
      var before := Run(s, run[..|run| - 1]);
      if before.None? then None else Step(before.value, run[|run| - 1])
  }

  ghost predicate Inv(s: State) {
    && s.accepted == s.sent + s.buffer
    && |s.buffer| <= BUFFER
    && (s.loop.Flushing? || s.loop.FlushSending? || s.loop.Exited? ==> s.closing)
    && (s.loop.Exited? ==> s.buffer == [])
    && s.waitGroup == (if s.loop.Exited? then 0 else 1)
    && (forall k :: k in s.closers ==> s.closing && (s.closers[k] ==> s.loop.Exited?))
  }

  lemma StepKeepsInv(s: State, a: Action)
    requires Inv(s) && Step(s, a).Some?
    ensures Inv(Step(s, a).value)
    ensures s.sent <= Step(s, a).value.sent && s.accepted <= Step(s, a).value.accepted
    ensures s.closing ==> Step(s, a).value.closing && Step(s, a).value.accepted == s.accepted
  {
    match a {
      case Handle(r) => assert s.sent + (s.buffer + [r]) == (s.sent + s.buffer) + [r];
      case Receive =>
        if s.buffer != [] {
          assert s.buffer == [s.buffer[0]] + s.buffer[1..];
          assert s.sent + ([s.buffer[0]] + s.buffer[1..]) == (s.sent + [s.buffer[0]]) + s.buffer[1..];
        }
      case _ =>
    }
  }

  lemma {:induction false} InvOverRuns(s: State, run: seq<Action>)
    requires Inv(s) && Run(s, run).Some?
    ensures Inv(Run(s, run).value)
    ensures s.sent <= Run(s, run).value.sent && s.accepted <= Run(s, run).value.accepted
    ensures s.closing ==> Run(s, run).value.closing && Run(s, run).value.accepted == s.accepted
  {
    if run != [] {
      InvOverRuns(s, run[..|run| - 1]);
      StepKeepsInv(Run(s, run[..|run| - 1]).value, run[|run| - 1]);
    }
  }

  /** A call of Close is among the steps. */
  predicate CloseWasCalled(run: seq<Action>) { run != [] && (run[|run| - 1].CloseCall? || CloseWasCalled(run[..|run| - 1])) }

  /** How many records the sender has taken. */
  function Received(run: seq<Action>): nat {
    if run == [] then 0 else Received(run[..|run| - 1]) + if run[|run| - 1].Receive? then 1 else 0
  }

  /** The records accepted, by the steps alone: those handled before any Close while fewer than 1024 accepted ones had not
      been taken yet. */
  function Admitted(run: seq<Action>): seq<nat> {
    if run == [] then []
    else
      var front, a := run[..|run| - 1], run[|run| - 1];
      if a.Handle? && !CloseWasCalled(front) && |Admitted(front)| - Received(front) < 1024 then Admitted(front) + [a.r] else Admitted(front)
  }

  lemma AcceptStep(s: State, a: Action)
    requires Inv(s) && Step(s, a).Some?
    ensures var t := Step(s, a).value;
            && t.accepted == s.accepted + (if a.Handle? && !s.closing && |s.accepted| - |s.sent| < 1024 then [a.r] else [])
            && |t.sent| == |s.sent| + (if a.Receive? then 1 else 0)
            && (t.closing <==> s.closing || a.CloseCall?)
  {
    assert s.accepted + [] == s.accepted;
  }

  /** Exactly which records are accepted. */
  lemma {:induction false} AcceptedExactly(run: seq<Action>, s: State)
    requires Run(Initial, run) == Some(s)
    ensures s.accepted == Admitted(run) && |s.sent| == Received(run) && (s.closing <==> CloseWasCalled(run))
  {
    if run != [] {
      var front := run[..|run| - 1];
      AcceptedExactly(front, Run(Initial, front).value);
      InvOverRuns(Initial, front);
      AcceptStep(Run(Initial, front).value, run[|run| - 1]);
      assert Admitted(front) + [] == Admitted(front);
    }
  }

  /** In every interleaving, the records passed to `send` are the accepted ones in their order, each exactly once, the
      rest still waiting in the buffer. */
  lemma SentInOrder(run: seq<Action>, s: State)
    requires Run(Initial, run) == Some(s)
    ensures s.accepted == s.sent + s.buffer
  {
    InvOverRuns(Initial, run);
  }

  /** When any Close has returned, everything ever accepted has been passed to `send`, in order, and nothing is accepted
      or sent in any continuation. */
  lemma CloseLosesNothing(run: seq<Action>, s: State, k: nat, more: seq<Action>, t: State)
    requires Run(Initial, run) == Some(s) && k in s.closers && s.closers[k] && Run(s, more) == Some(t)
    ensures s.sent == s.accepted && t.accepted == s.accepted && t.sent == s.sent
  {
    InvOverRuns(Initial, run);
    InvOverRuns(s, more);
    assert s.sent + [] == s.sent;
    assert s.sent <= t.sent && |t.sent| <= |t.accepted|;
  }

  /** From the moment closing is set nothing more is accepted. */
  lemma NothingAcceptedAfterClosing(run: seq<Action>, s: State, more: seq<Action>, t: State)
    requires Run(Initial, run) == Some(s) && s.closing && Run(s, more) == Some(t)
    ensures t.accepted == s.accepted
  {
    InvOverRuns(Initial, run);
    InvOverRuns(s, more);
  }

  /** The work left for the sender once closing is set. */
  function Measure(s: State): nat {
    4 * |s.buffer| + match s.loop
                     case Sending => 3
                     case Waiting => 2
                     case FlushSending => 2
                     case Flushing => 1
                     case Exited => 0
  }

  predicate SenderStep(a: Action) { a.Receive? || a.SendReturns? || a.SeeStop? || a.FlushEmpty? }

  /** After closing is set the sender always has a step until it has exited, each of its steps uses up work and no other
      step adds any; so Close waits only for `send`. */
  lemma ShutdownTerminates(s: State, a: Action)
    requires Inv(s) && s.closing
    ensures !s.loop.Exited? ==> exists b :: SenderStep(b) && Step(s, b).Some?
    ensures Step(s, a).Some? ==> Measure(Step(s, a).value) <= Measure(s)
    ensures Step(s, a).Some? && SenderStep(a) ==> Measure(Step(s, a).value) < Measure(s)
  {
    if s.loop.Sending? || s.loop.FlushSending? {
      assert Step(s, SendReturns).Some?;
    } else if s.loop.Waiting? {
      assert Step(s, SeeStop).Some?;
    } else if s.loop.Flushing? {
      if s.buffer == [] { assert Step(s, FlushEmpty).Some?; } else { assert Step(s, Receive).Some?; }
    }
  }
}
