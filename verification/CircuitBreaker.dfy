/** The circuit breaker: a clock-driven state machine whose half-open state is derived, never stored. */
module CircuitBreakers {
  import opened Options

  datatype Circuit = Closed | Open | HalfOpen

  /** How the protected function ended. `NoRetry` is an error marked as not counting. */
  datatype Result = Success | NoRetry | Failure

  datatype Config = Config(threshold: nat, resetTimeout: nat, halfOpenMax: nat)

  datatype Breaker = Breaker(state: Circuit, failures: nat, successes: nat, lastFailure: int, halfOpenCalls: nat)

  ghost predicate ValidConfig(c: Config) { c.threshold >= 1 && c.resetTimeout >= 1 && c.halfOpenMax >= 1 }

  function CurrentState(c: Config, b: Breaker, now: int): Circuit {
    if b.state == Open && now - b.lastFailure >= c.resetTimeout then HalfOpen else b.state
  }

  function Admits(c: Config, b: Breaker, now: int): bool {
    match CurrentState(c, b, now)
    case Closed => true
    case Open => false
    case HalfOpen => b.halfOpenCalls < c.halfOpenMax
  }

  function BeforeCall(c: Config, b: Breaker, now: int): Breaker {
    if CurrentState(c, b, now) == HalfOpen && b.halfOpenCalls < c.halfOpenMax
    then b.(halfOpenCalls := b.halfOpenCalls + 1) else b
  }

  function ResetOf(b: Breaker): Breaker {
    b.(state := Closed, failures := 0, successes := 0, halfOpenCalls := 0)
  }

  function OnSuccess(c: Config, b: Breaker, state: Circuit): Breaker {
    match state
    case HalfOpen => if b.successes + 1 >= c.halfOpenMax then ResetOf(b) else b.(successes := b.successes + 1)
    case Closed => b.(failures := 0)
    case Open => b
  }

  function OnFailure(c: Config, b: Breaker, state: Circuit, later: int): Breaker {
    var counted := b.(failures := b.failures + 1, lastFailure := later);
    match state
    case Closed => if counted.failures >= c.threshold then counted.(state := Open) else counted
    case HalfOpen => counted.(state := Open, halfOpenCalls := 0, successes := 0)
    case Open => counted
  }

  /** The clock is read at `now` to derive the state, and again at `later` when a failure is recorded. */
  function AfterCall(c: Config, b: Breaker, now: int, later: int, r: Result): Breaker {
    match r
    case Success => OnSuccess(c, b, CurrentState(c, b, now))
    case NoRetry => b
    case Failure => OnFailure(c, b, CurrentState(c, b, now), later)
  }

  /** What holds of the breaker's fields at any clock reading `now`. */
  ghost predicate Inv(c: Config, b: Breaker, now: int) {
    && b.state != HalfOpen
    && (b.state == Closed ==> b.failures < c.threshold && b.successes == 0 && b.halfOpenCalls == 0)
    && (b.state == Open ==> b.failures >= c.threshold && b.lastFailure <= now)
    && (b.successes > 0 || b.halfOpenCalls > 0 ==> now - b.lastFailure >= c.resetTimeout)
    && b.successes < c.halfOpenMax && b.halfOpenCalls <= c.halfOpenMax
  }

  class CircuitBreaker {
    var state: Circuit
    var failures: nat
    var successes: nat
    var lastFailure: int
    var halfOpenCalls: nat
    const threshold: nat
    const resetTimeout: nat
    const halfOpenMax: nat

    ghost function Cfg(): Config { Config(threshold, resetTimeout, halfOpenMax) }

    ghost function View(): Breaker reads this { Breaker(state, failures, successes, lastFailure, halfOpenCalls) }

    /** Non-positive settings fall back to 5 failures, 30 seconds, one probe. */
    constructor (failureThreshold: int, timeout: int, maxProbes: int)
      ensures ValidConfig(Cfg()) && forall now :: Inv(Cfg(), View(), now)
      ensures threshold == (if failureThreshold <= 0 then 5 else failureThreshold)
      ensures resetTimeout == (if timeout <= 0 then 30_000_000_000 else timeout)
      ensures halfOpenMax == (if maxProbes <= 0 then 1 else maxProbes)
      ensures View() == Breaker(Closed, 0, 0, 0, 0)
    {
      threshold := if failureThreshold <= 0 then 5 else failureThreshold;
      resetTimeout := if timeout <= 0 then 30_000_000_000 else timeout;
      halfOpenMax := if maxProbes <= 0 then 1 else maxProbes;
      state, failures, successes, lastFailure, halfOpenCalls := Closed, 0, 0, 0, 0;
    }

    method Before(now: int) returns (admitted: bool)
      modifies this`halfOpenCalls
      ensures admitted == Admits(Cfg(), old(View()), now)
      ensures View() == BeforeCall(Cfg(), old(View()), now)
    {
      var s := if state == Open && now - lastFailure >= resetTimeout then HalfOpen else state;
      match s {
        case Closed => return true;
        case Open => return false;
        case HalfOpen =>
          if halfOpenCalls >= halfOpenMax {
            return false;
          }
          halfOpenCalls := halfOpenCalls + 1;
          return true;
      }
    }

    method After(now: int, later: int, r: Result)
      modifies this
      ensures View() == AfterCall(Cfg(), old(View()), now, later, r)
    {
      var s := if state == Open && now - lastFailure >= resetTimeout then HalfOpen else state;
      if r == Success {
        match s {
          case HalfOpen =>
            successes := successes + 1;
            if successes >= halfOpenMax {
              Reset();
            }
          case Closed => failures := 0;
          case Open =>
        }
      } else if r == Failure {
        failures := failures + 1;
        lastFailure := later;
        match s {
          case Closed =>
            if failures >= threshold {
              state := Open;
            }
          case HalfOpen => state, halfOpenCalls, successes := Open, 0, 0;
          case Open =>
        }
      }
    }

    method Reset()
      modifies this
      ensures View() == ResetOf(old(View()))
    {
      state, failures, successes, halfOpenCalls := Closed, 0, 0, 0;
    }
  }

  // ---- Interleavings: every step below is one critical section of one of many callers. ----

  /** `Abandon`: the protected function panicked, so its call never comes back. */
  datatype Action =
    | Call(id: nat, now: int)
    | Return(id: nat, now: int, later: int, result: Result)
    | Abandon(id: nat)
    | ManualReset

  /** How a call in flight was admitted: normally, or as a probe of the given half-open epoch. */
  datatype Ticket = Plain | Probe(epoch: nat)

  /** `served`, `spent` and `lost` say how the finished probes of the current epoch ended:
      in success, in a `NoRetry` error, or abandoned. */
  datatype System = System(b: Breaker, clock: int, flying: map<nat, Ticket>, epoch: nat, served: nat, spent: nat, lost: nat)

  const Start := System(Breaker(Closed, 0, 0, 0, 0), 0, map[], 0, 0, 0, 0)

  /** Whether the step gives all probe slots back. */
  predicate EndsEpoch(c: Config, b: Breaker, now: int, r: Result) {
    CurrentState(c, b, now) == HalfOpen && (r == Failure || (r == Success && b.successes + 1 >= c.halfOpenMax))
  }

  function Step(c: Config, s: System, a: Action): Option<System> {
    match a
    case Call(id, now) =>
      if now < s.clock || id in s.flying then None
      else if !Admits(c, s.b, now) then Some(s.(clock := now))
      else Some(s.(b := BeforeCall(c, s.b, now), clock := now,
                   flying := s.flying[id := if CurrentState(c, s.b, now) == HalfOpen then Probe(s.epoch) else Plain]))
    case Return(id, now, later, r) =>
      if id !in s.flying || now < s.clock || later < now then None
      else
        var s1 := s.(b := AfterCall(c, s.b, now, later, r), clock := later, flying := s.flying - {id});
        if EndsEpoch(c, s.b, now, r) then Some(s1.(epoch := s.epoch + 1, served := 0, spent := 0, lost := 0))
        else if s.flying[id] == Probe(s.epoch) && r == Success then Some(s1.(served := s.served + 1))
        else if s.flying[id] == Probe(s.epoch) && r == NoRetry then Some(s1.(spent := s.spent + 1))
        else Some(s1)
    case Abandon(id) =>
      if id !in s.flying then None
      else if s.flying[id] == Probe(s.epoch) then Some(s.(flying := s.flying - {id}, lost := s.lost + 1))
      else Some(s.(flying := s.flying - {id}))
    case ManualReset =>
      Some(s.(b := ResetOf(s.b), epoch := s.epoch + 1, served := 0, spent := 0, lost := 0))
  }

  /** The state after a whole run, if every step of it was possible. */
  function Run(c: Config, s: System, run: seq<Action>): Option<System> {
    if run == [] then Some(s)
    else
      var before := Run(c, s, run[..|run| - 1]);
      if before.None? then None else Step(c, before.value, run[|run| - 1])
  }

  /** Probes of the current epoch still in flight. */
  ghost function Probes(s: System): set<nat> {
    set id | id in s.flying && s.flying[id] == Probe(s.epoch)
  }

  /** Every used probe slot is accounted for, and the breaker's own invariant holds. */
  ghost predicate SystemInv(c: Config, s: System) {
    && Inv(c, s.b, s.clock)
    && (forall id :: id in s.flying && s.flying[id].Probe? ==> s.flying[id].epoch <= s.epoch)
    && s.b.halfOpenCalls == |Probes(s)| + s.served + s.spent + s.lost
    && s.served <= s.b.successes
  }

  lemma CallKeepsInv(c: Config, s: System, id: nat, now: int)
    requires ValidConfig(c) && SystemInv(c, s) && Step(c, s, Call(id, now)).Some?
    ensures SystemInv(c, Step(c, s, Call(id, now)).value)
  {
    var t := Step(c, s, Call(id, now)).value;
    if Admits(c, s.b, now) && CurrentState(c, s.b, now) == HalfOpen {
      assert Probes(t) == Probes(s) + {id};
    } else {
      assert Probes(t) == Probes(s);
    }
  }

  /** The breaker's fields keep their invariant across a returning call. */
  lemma AfterCallKeepsInv(c: Config, b: Breaker, clock: int, now: int, later: int, r: Result)
    requires ValidConfig(c) && Inv(c, b, clock) && clock <= now <= later
    ensures Inv(c, AfterCall(c, b, now, later, r), later)
    ensures EndsEpoch(c, b, now, r) ==> AfterCall(c, b, now, later, r).halfOpenCalls == 0 && AfterCall(c, b, now, later, r).successes == 0
    ensures !EndsEpoch(c, b, now, r) ==> AfterCall(c, b, now, later, r).halfOpenCalls == b.halfOpenCalls
    ensures !EndsEpoch(c, b, now, r) && b.halfOpenCalls > 0 ==>
              AfterCall(c, b, now, later, r).successes == b.successes + (if r == Success then 1 else 0) && r != Failure
    ensures !EndsEpoch(c, b, now, r) ==> AfterCall(c, b, now, later, r).successes >= b.successes
  {
  }

  lemma ReturnKeepsInv(c: Config, s: System, id: nat, now: int, later: int, r: Result)
    requires ValidConfig(c) && SystemInv(c, s) && Step(c, s, Return(id, now, later, r)).Some?
    ensures SystemInv(c, Step(c, s, Return(id, now, later, r)).value)
  {
    var t := Step(c, s, Return(id, now, later, r)).value;
    AfterCallKeepsInv(c, s.b, s.clock, now, later, r);
    if EndsEpoch(c, s.b, now, r) {
      assert Probes(t) == {};
    } else if s.flying[id] == Probe(s.epoch) {
      assert id in Probes(s) && Probes(t) == Probes(s) - {id};
    } else {
      assert Probes(t) == Probes(s);
    }
  }

  lemma StepKeepsInv(c: Config, s: System, a: Action)
    requires ValidConfig(c) && SystemInv(c, s) && Step(c, s, a).Some?
    ensures SystemInv(c, Step(c, s, a).value)
  {
    match a {
      case Call(id, now) => CallKeepsInv(c, s, id, now);
      case Return(id, now, later, r) => ReturnKeepsInv(c, s, id, now, later, r);
      case Abandon(id) => assert Probes(Step(c, s, a).value) == Probes(s) - {id};
      case ManualReset => assert Probes(Step(c, s, a).value) == {};
    }
  }

  /** Over every interleaving with a monotone clock: the stored state is never half-open, closed means
      fewer failures than the threshold and no probe counters, open means at least the threshold, and a
      probe counter is non-zero only once the reset timeout has elapsed. */
  lemma {:induction false} InvOverRuns(c: Config, run: seq<Action>)
    requires ValidConfig(c) && Run(c, Start, run).Some?
    ensures SystemInv(c, Run(c, Start, run).value)
  {
    if run == [] {
      assert Probes(Start) == {};
    } else {
      InvOverRuns(c, run[..|run| - 1]);
      StepKeepsInv(c, Run(c, Start, run[..|run| - 1]).value, run[|run| - 1]);
    }
  }

  /** The steps that forget earlier failures: a manual reset, a success while closed, the last success needed while half-open. */
  predicate Forgets(c: Config, s: System, a: Action) {
    || a.ManualReset?
    || (a.Return? && a.result == Success
        && match CurrentState(c, s.b, a.now)
           case Closed => true
           case HalfOpen => s.b.successes + 1 >= c.halfOpenMax
           case Open => false)
  }

  /** The counted failures of a run since the last step that forgets them. */
  ghost function FailuresSinceForgotten(c: Config, run: seq<Action>): nat
    requires Run(c, Start, run).Some?
  {
    if run == [] then 0
    else
      var front, a := run[..|run| - 1], run[|run| - 1];
      if Forgets(c, Run(c, Start, front).value, a) then 0
      else FailuresSinceForgotten(c, front) + if a.Return? && a.result == Failure then 1 else 0
  }

  lemma FailuresStep(c: Config, s: System, a: Action)
    requires ValidConfig(c) && Inv(c, s.b, s.clock) && Step(c, s, a).Some?
    ensures Step(c, s, a).value.b.failures ==
            if Forgets(c, s, a) then 0 else s.b.failures + if a.Return? && a.result == Failure then 1 else 0
  {
  }

  lemma {:induction false} FailuresAreCounted(c: Config, run: seq<Action>)
    requires ValidConfig(c) && Run(c, Start, run).Some?
    ensures Run(c, Start, run).value.b.failures == FailuresSinceForgotten(c, run)
  {
    if run != [] {
      var front := run[..|run| - 1];
      FailuresAreCounted(c, front);
      InvOverRuns(c, front);
      FailuresStep(c, Run(c, Start, front).value, run[|run| - 1]);
    }
  }

  /** The clock reading of the last counted failure of a run. */
  function LastFailureAt(run: seq<Action>): int {
    if run == [] then 0
    else
      var a := run[|run| - 1];
      if a.Return? && a.result == Failure then a.later else LastFailureAt(run[..|run| - 1])
  }

  lemma {:induction false} LastFailureIsRecorded(c: Config, run: seq<Action>)
    requires Run(c, Start, run).Some?
    ensures Run(c, Start, run).value.b.lastFailure == LastFailureAt(run)
  {
    if run != [] {
      LastFailureIsRecorded(c, run[..|run| - 1]);
    }
  }

  /** What an observer of the steps alone keeps: failures not yet forgotten, the time of the last one, and the probes let
      through and won since the breaker last opened. There is no stored state. */
  datatype Record = Record(failures: nat, last: int, used: nat, won: nat)

  predicate Tripped(c: Config, h: Record) { h.failures >= c.threshold }

  predicate Probing(c: Config, h: Record, now: int) { Tripped(c, h) && now >= h.last + c.resetTimeout }

  function Track(c: Config, h: Record, a: Action): Record {
    match a
    case Call(_, now) => if Probing(c, h, now) && h.used < c.halfOpenMax then h.(used := h.used + 1) else h
    case Return(_, now, _, Success) =>
      if !Tripped(c, h) then h.(failures := 0)
      else if !Probing(c, h, now) then h
      else if h.won + 1 < c.halfOpenMax then h.(won := h.won + 1)
      else Record(0, h.last, 0, 0)
    case Return(_, now, later, Failure) =>
      if Probing(c, h, now) then Record(h.failures + 1, later, 0, 0) else h.(failures := h.failures + 1, last := later)
    case ManualReset => Record(0, h.last, 0, 0)
    case _ => h
  }

  function TrackAll(c: Config, run: seq<Action>): Record {
    if run == [] then Record(0, 0, 0, 0) else Track(c, TrackAll(c, run[..|run| - 1]), run[|run| - 1])
  }

  /** The breaker's fields, the stored state included, as the record determines them. */
  function Fields(c: Config, h: Record): Breaker {
    Breaker(if Tripped(c, h) then Open else Closed, h.failures, h.won, h.last, h.used)
  }

  lemma TrackReturn(c: Config, h: Record, clock: int, id: nat, now: int, later: int, r: Result)
    requires ValidConfig(c) && Inv(c, Fields(c, h), clock) && clock <= now <= later
    ensures AfterCall(c, Fields(c, h), now, later, r) == Fields(c, Track(c, h, Return(id, now, later, r)))
  {
  }

  lemma TrackStep(c: Config, s: System, h: Record, a: Action)
    requires ValidConfig(c) && s.b == Fields(c, h) && Inv(c, s.b, s.clock) && Step(c, s, a).Some?
    ensures Step(c, s, a).value.b == Fields(c, Track(c, h, a))
  {
    if a.Return? { TrackReturn(c, h, s.clock, a.id, a.now, a.later, a.result); }
  }

  lemma {:induction false} TrackedExactly(c: Config, run: seq<Action>)
    requires ValidConfig(c) && Run(c, Start, run).Some?
    ensures Run(c, Start, run).value.b == Fields(c, TrackAll(c, run))
  {
    if run != [] {
      var front := run[..|run| - 1];
      TrackedExactly(c, front);
      InvOverRuns(c, front);
      TrackStep(c, Run(c, Start, front).value, TrackAll(c, front), run[|run| - 1]);
    }
  }

  /** In terms of the steps alone: a call is admitted if and only if fewer failures than the threshold stand, or the reset
      timeout has passed since the last of them and a probe is left. */
  lemma AdmissionLaw(c: Config, run: seq<Action>, now: int)
    requires ValidConfig(c) && Run(c, Start, run).Some?
    ensures var h := TrackAll(c, run);
            Admits(c, Run(c, Start, run).value.b, now) <==>
              h.failures < c.threshold || (now >= h.last + c.resetTimeout && h.used < c.halfOpenMax)
  {
    TrackedExactly(c, run);
  }

  /** All probe slots are taken and nobody is left to give one back. */
  ghost predicate Wedged(c: Config, s: System) {
    s.b.state == Open && s.b.halfOpenCalls >= c.halfOpenMax && s.flying == map[]
  }

  /** A wedge needs a probe that ended in a `NoRetry` error or was abandoned. */
  lemma WedgeHasACause(c: Config, run: seq<Action>)
    requires ValidConfig(c) && Run(c, Start, run).Some?
    requires Wedged(c, Run(c, Start, run).value)
    ensures var s := Run(c, Start, run).value; s.spent + s.lost >= 1
  {
    InvOverRuns(c, run);
    assert Probes(Run(c, Start, run).value) == {};
  }

  lemma WedgedStep(c: Config, s: System, a: Action)
    requires Wedged(c, s) && Step(c, s, a).Some? && a != ManualReset
    ensures var t := Step(c, s, a).value; t.b == s.b && t.flying == map[] && t.clock >= s.clock
  {
  }

  /** Once wedged, every later call is rejected until a manual reset. */
  lemma {:induction false} WedgedForever(c: Config, s: System, more: seq<Action>)
    requires Wedged(c, s) && ManualReset !in more && Run(c, s, more).Some?
    ensures var t := Run(c, s, more).value;
            t.b == s.b && t.flying == map[] && t.clock >= s.clock && forall now :: !Admits(c, t.b, now)
  {
    if more != [] {
      var front, a := more[..|more| - 1], more[|more| - 1];
      assert a in more && ManualReset !in front;
      WedgedForever(c, s, front);
      WedgedStep(c, Run(c, s, front).value, a);
    }
  }

  /** Some continuation without a manual reset comes to admit a call. */
  ghost predicate CanAdmit(c: Config, s: System) {
    exists more: seq<Action>, t: System, now: int ::
      ManualReset !in more && Run(c, s, more) == Some(t) && now >= t.clock && Admits(c, t.b, now)
  }

  function Later(a: int, b: int): int { if a < b then b else a }

  lemma AdmitsNow(c: Config, s: System, now: int)
    requires now >= s.clock && Admits(c, s.b, now)
    ensures CanAdmit(c, s)
  {
    assert Run(c, s, []) == Some(s);
  }

  /** A call still in flight that fails after the reset timeout frees all probe slots. */
  lemma FailureFreesSlots(c: Config, s: System, id: nat)
    requires ValidConfig(c) && Inv(c, s.b, s.clock) && s.b.state == Open && id in s.flying
    ensures CanAdmit(c, s)
  {
    var now := Later(s.clock, s.b.lastFailure + c.resetTimeout);
    var a := Return(id, now, now, Failure);
    assert [a][..0] == [] && Run(c, s, []) == Some(s);
    assert Run(c, s, [a]) == Step(c, s, a);
    var t := Step(c, s, a).value;
    assert t.b.halfOpenCalls == 0 && t.b.lastFailure == now && t.b.state == Open;
    assert Admits(c, t.b, now + c.resetTimeout);
    assert ManualReset !in [a];
  }

  /** The exact condition for recovery: without a manual reset some later call can still be admitted if and only if the
      breaker is not wedged. */
  lemma RecoveryLaw(c: Config, run: seq<Action>, s: System)
    requires ValidConfig(c) && Run(c, Start, run) == Some(s)
    ensures CanAdmit(c, s) <==> !Wedged(c, s)
  {
    InvOverRuns(c, run);
    if Wedged(c, s) {
      forall more: seq<Action>, t: System, now: int | ManualReset !in more && Run(c, s, more) == Some(t) ensures !Admits(c, t.b, now) {
        WedgedForever(c, s, more);
      }
    } else if s.b.state == Closed {
      AdmitsNow(c, s, s.clock);
    } else if s.b.halfOpenCalls < c.halfOpenMax {
      AdmitsNow(c, s, Later(s.clock, s.b.lastFailure + c.resetTimeout));
    } else {
      assert s.flying.Keys != {};
      var id :| id in s.flying;
      FailureFreesSlots(c, s, id);
    }
  }

  /** The wedge is real: one failure, one probe, one non-counting error. */
  lemma WedgeExample()
    ensures var c := Config(1, 30, 1);
            var run := [Call(0, 0), Return(0, 1, 1, Failure), Call(1, 40), Return(1, 41, 41, NoRetry)];
            Run(c, Start, run).Some? && Wedged(c, Run(c, Start, run).value)
  {
    var c := Config(1, 30, 1);
    var a1, a2, a3, a4 := Call(0, 0), Return(0, 1, 1, Failure), Call(1, 40), Return(1, 41, 41, NoRetry);
    var s1 := Start.(flying := map[0 := Plain]);
    var s2 := System(Breaker(Open, 1, 0, 1, 0), 1, map[], 0, 0, 0, 0);
    var s3 := System(Breaker(Open, 1, 0, 1, 1), 40, map[1 := Probe(0)], 0, 0, 0, 0);
    var s4 := System(Breaker(Open, 1, 0, 1, 1), 41, map[], 0, 0, 1, 0);
    assert Step(c, Start, a1) == Some(s1);
    assert Step(c, s1, a2) == Some(s2);
    assert Step(c, s2, a3) == Some(s3);
    assert Step(c, s3, a4) == Some(s4);
    Snoc(c, Start, [], Start, a1);
    Snoc(c, Start, [] + [a1], s1, a2);
    Snoc(c, Start, [] + [a1] + [a2], s2, a3);
    Snoc(c, Start, [] + [a1] + [a2] + [a3], s3, a4);
    assert [] + [a1] + [a2] + [a3] + [a4] == [a1, a2, a3, a4];
  }

  lemma Snoc(c: Config, s: System, run: seq<Action>, t: System, a: Action)
    requires Run(c, s, run) == Some(t)
    ensures Run(c, s, run + [a]) == Step(c, t, a)
  {
    assert (run + [a])[..|run|] == run;
  }
}
