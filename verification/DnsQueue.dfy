/** The DNS sync queue: a bounded channel, one worker with retries, verification goroutines and shutdown,
    as a state machine over their critical steps. */
module DnsQueue {
  import opened Options
  import Fresh

  const CAPACITY: nat := 100
  const MAX_RETRIES: nat := 3

  function One(b: bool): nat { if b then 1 else 0 }

  // ---- Where the jobs are ----

  /** `Discarded`: no provider, unknown action, provider panic, or stopped while sleeping.
      `Dropped`: refused by `Enqueue`, closed or full. */
  datatype Fate = Succeeded | Abandoned | Discarded | Dropped

  /** `entering`: submissions past the closed test and not yet sent; `queue`: the channel; `held`: the worker's job. */
  datatype Jobs = Jobs(entering: set<nat>, queue: seq<nat>, held: Option<nat>, fates: map<nat, Fate>)

  /** In how many places a job is: being submitted, queued (each time), held by the worker, finished. */
  function Places(q: Jobs, j: nat): nat {
    One(j in q.entering) + multiset(q.queue)[j] + One(q.held == Some(j)) + One(j in q.fates)
  }

  /** Exactly the known jobs are somewhere, each in one place. */
  ghost predicate Conserved(q: Jobs, known: set<nat>) { forall j {:trigger Places(q, j)} :: Places(q, j) == One(j in known) }

  function Accept(q: Jobs, j: nat): Jobs { q.(entering := q.entering + {j}) }

  function Refuse(q: Jobs, j: nat): Jobs { q.(fates := q.fates[j := Dropped]) }

  function Push(q: Jobs, j: nat): Jobs {
    if |q.queue| < CAPACITY then q.(entering := q.entering - {j}, queue := q.queue + [j])
    else q.(entering := q.entering - {j}, fates := q.fates[j := Dropped])
  }

  function Pull(q: Jobs): Jobs
    requires q.queue != []
  {
    q.(held := Some(q.queue[0]), queue := q.queue[1..])
  }

  function Settle(q: Jobs, f: Fate): Jobs
    requires q.held.Some?
  {
    q.(held := None, fates := q.fates[q.held.value := f])
  }

  function PushBack(q: Jobs): Jobs
    requires q.held.Some?
  {
    if |q.queue| < CAPACITY then q.(held := None, queue := q.queue + [q.held.value]) else Settle(q, Dropped)
  }

  lemma QueueGrows(q: seq<nat>, j: nat, i: nat)
    ensures multiset(q + [j])[i] == multiset(q)[i] + One(i == j)
  {
  }

  lemma SubmitConserves(q: Jobs, known: set<nat>, j: nat)
    requires Conserved(q, known) && j !in known
    ensures Conserved(Accept(q, j), known + {j}) && Conserved(Refuse(q, j), known + {j})
  {
    forall i ensures Places(Accept(q, j), i) == One(i in known + {j}) && Places(Refuse(q, j), i) == One(i in known + {j}) {
      assert Places(q, i) == One(i in known);
    }
  }

  lemma PushConserves(q: Jobs, known: set<nat>, j: nat)
    requires Conserved(q, known) && j in q.entering
    ensures Conserved(Push(q, j), known)
  {
    forall i ensures Places(Push(q, j), i) == One(i in known) {
      assert Places(q, i) == One(i in known);
      QueueGrows(q.queue, j, i);
    }
  }

  lemma PullConserves(q: Jobs, known: set<nat>)
    requires Conserved(q, known) && q.queue != [] && q.held.None?
    ensures Conserved(Pull(q), known)
  {
    forall i ensures Places(Pull(q), i) == One(i in known) {
      assert Places(q, i) == One(i in known);
      assert q.queue == [q.queue[0]] + q.queue[1..];
    }
  }

  lemma HeldIsLive(q: Jobs, known: set<nat>)
    requires Conserved(q, known) && q.held.Some?
    ensures q.held.value in known && q.held.value !in q.fates
  {
    assert Places(q, q.held.value) == One(q.held.value in known);
  }

  lemma SettleConserves(q: Jobs, known: set<nat>, f: Fate)
    requires Conserved(q, known) && q.held.Some?
    ensures Conserved(Settle(q, f), known)
  {
    HeldIsLive(q, known);
    forall i ensures Places(Settle(q, f), i) == One(i in known) {
      assert Places(q, i) == One(i in known);
    }
  }

  lemma PushBackConserves(q: Jobs, known: set<nat>)
    requires Conserved(q, known) && q.held.Some?
    ensures Conserved(PushBack(q), known)
  {
    SettleConserves(q, known, Dropped);
    forall i ensures |q.queue| < CAPACITY ==> Places(PushBack(q), i) == One(i in known) {
      assert Places(q, i) == One(i in known);
      QueueGrows(q.queue, q.held.value, i);
    }
  }

  // ---- The protocol ----

  /** The worker goroutine; `Resending`: a retry that has passed the closed test. */
  datatype Phase = NotStarted | Idle | Calling | Sleeping | Resending | Dead

  predicate Holding(p: Phase) { p == Calling || p == Sleeping || p == Resending }

  predicate Alive(p: Phase) { p != NotStarted && p != Dead }

  datatype Tally = Tally(retries: nat, calls: nat)

  /** A call of Stop: whether it has to wait for the wait group, and whether it has returned. */
  datatype Stopper = Stopper(mustWait: bool, returned: bool)

  datatype State = State(
    jobs: Jobs,
    tally: map<nat, Tally>,        // every job ever submitted
    phase: Phase,
    verifies: nat,                 // live verification goroutines
    started: bool,
    closed: bool,
    stoppers: map<nat, Stopper>,
    waitGroup: int)

  const Initial := State(Jobs({}, [], None, map[]), map[], NotStarted, 0, false, false, map[], 0)

  datatype Action =
    | Submit(j: nat)
    | Send(j: nat)
    | Start
    | Take
    | Reject
    | CallOk
    | CallFails
    | CallPanics
    | Wake
    | StopWhileSleeping
    | Resend
    | WorkerExit
    | VerifyEnds
    | StopCall(k: nat)
    | StopReturn(k: nat)

  function Step(s: State, a: Action): Option<State> {
    match a
    case Submit(j) =>
      if j in s.tally then None
      else Some(s.(tally := s.tally[j := Tally(0, 0)], jobs := if s.closed then Refuse(s.jobs, j) else Accept(s.jobs, j)))
    case Send(j) =>
      if j !in s.jobs.entering then None else Some(s.(jobs := Push(s.jobs, j)))
    case Start =>
      if s.closed || s.started then Some(s) else Some(s.(started := true, phase := Idle, waitGroup := s.waitGroup + 1))
    case Take =>
      if s.phase != Idle || s.jobs.queue == [] then None else Some(s.(phase := Calling, jobs := Pull(s.jobs)))
    case VerifyEnds =>
      if s.verifies == 0 then None else Some(s.(verifies := s.verifies - 1, waitGroup := s.waitGroup - 1))
    case WorkerExit =>
      if s.phase != Idle || !s.closed then None else Some(s.(phase := Dead, waitGroup := s.waitGroup - 1))
    case StopCall(k) =>
      if k in s.stoppers then None
      else Some(s.(stoppers := s.stoppers[k := Stopper(s.closed || s.started, false)], closed := true))
    case StopReturn(k) =>
      if k !in s.stoppers || s.stoppers[k].returned || (s.stoppers[k].mustWait && s.waitGroup != 0) then None
      else Some(s.(stoppers := s.stoppers[k := s.stoppers[k].(returned := true)]))
    case _ => WorkerStep(s, a)
  }

  /** What `process` does with the job in hand. */
  function WorkerStep(s: State, a: Action): Option<State> {
    if s.jobs.held.None? || s.jobs.held.value !in s.tally then None
    else
      var j := s.jobs.held.value;
      var n := s.tally[j];
      match a
      case Reject =>
        if s.phase != Calling then None else Some(s.(phase := Idle, jobs := Settle(s.jobs, Discarded)))
      case CallOk =>
        if s.phase != Calling then None
        else Some(s.(phase := Idle, jobs := Settle(s.jobs, Succeeded), tally := s.tally[j := n.(calls := n.calls + 1)],
                     verifies := s.verifies + 1, waitGroup := s.waitGroup + 1))
      case CallFails =>
        if s.phase != Calling then None
        else
          var s1 := s.(tally := s.tally[j := Tally(n.retries + 1, n.calls + 1)]);
          if n.retries + 1 >= MAX_RETRIES then Some(s1.(phase := Idle, jobs := Settle(s.jobs, Abandoned))) else Some(s1.(phase := Sleeping))
      case CallPanics =>
        if s.phase != Calling then None
        else Some(s.(phase := Dead, jobs := Settle(s.jobs, Discarded), tally := s.tally[j := n.(calls := n.calls + 1)], waitGroup := s.waitGroup - 1))
      case Wake =>
        if s.phase != Sleeping then None
        else if s.closed then Some(s.(phase := Idle, jobs := Settle(s.jobs, Dropped))) else Some(s.(phase := Resending))
      case StopWhileSleeping =>
        if s.phase != Sleeping || !s.closed then None else Some(s.(phase := Idle, jobs := Settle(s.jobs, Discarded)))
      case Resend =>
        if s.phase != Resending then None else Some(s.(phase := Idle, jobs := PushBack(s.jobs)))
      case _ => None
  }

  function Run(s: State, run: seq<Action>): Option<State> {
    if run == [] then Some(s)
    else
      var before := Run(s, run[..|run| - 1]);
      if before.None? then None else Step(before.value, run[|run| - 1])
  }

  // ---- Invariants ----

  /** What a fate says about failures and provider calls. */
  predicate FateFits(f: Fate, n: Tally) {
    match f
    case Succeeded => n.calls == n.retries + 1 <= MAX_RETRIES
    case Abandoned => n.calls == n.retries == MAX_RETRIES
    case Discarded => n.retries <= n.calls <= n.retries + 1 <= MAX_RETRIES
    case Dropped => n.calls == n.retries < MAX_RETRIES
  }

  /** A job not yet finished has as many provider calls behind it as failures, fewer than the limit. */
  ghost predicate CallsCounted(tally: map<nat, Tally>, fates: map<nat, Fate>) {
    forall j :: j in tally ==> if j in fates then FateFits(fates[j], tally[j]) else tally[j].calls == tally[j].retries < MAX_RETRIES
  }

  ghost predicate StoppersFit(stoppers: map<nat, Stopper>, started: bool, closed: bool, quiet: bool) {
    forall k :: k in stoppers ==> closed && (!stoppers[k].mustWait ==> !started) && (stoppers[k].returned ==> quiet)
  }

  ghost predicate Inv(s: State) {
    && Conserved(s.jobs, s.tally.Keys)
    && |s.jobs.queue| <= CAPACITY
    && CallsCounted(s.tally, s.jobs.fates)
    && (s.jobs.held.Some? <==> Holding(s.phase))
    && s.waitGroup == One(Alive(s.phase)) + s.verifies
    && (!s.started <==> s.phase == NotStarted)
    && (!s.started ==> s.verifies == 0)
    && StoppersFit(s.stoppers, s.started, s.closed, s.waitGroup == 0)
  }

  lemma SubmitKeepsInv(s: State, j: nat)
    requires Inv(s) && Step(s, Submit(j)).Some?
    ensures Inv(Step(s, Submit(j)).value)
  {
    SubmitConserves(s.jobs, s.tally.Keys, j);
    assert s.tally[j := Tally(0, 0)].Keys == s.tally.Keys + {j};
    assert Places(s.jobs, j) == 0;
  }

  lemma TakeKeepsInv(s: State)
    requires Inv(s) && Step(s, Take).Some?
    ensures Inv(Step(s, Take).value)
  {
    PullConserves(s.jobs, s.tally.Keys);
  }

  lemma ControlStepKeepsInv(s: State, a: Action)
    requires Inv(s) && Step(s, a).Some?
    requires a.Start? || a.VerifyEnds? || a.WorkerExit? || a.StopCall? || a.StopReturn?
    ensures Inv(Step(s, a).value)
  {
  }

  /** Settling the held job with its final tally. */
  lemma SettleTally(tally: map<nat, Tally>, fates: map<nat, Fate>, j: nat, n: Tally, f: Fate)
    requires CallsCounted(tally, fates) && j in tally && FateFits(f, n)
    ensures CallsCounted(tally[j := n], fates[j := f]) && tally[j := n].Keys == tally.Keys
  {
  }

  lemma SendKeepsInv(s: State, j: nat)
    requires Inv(s) && Step(s, Send(j)).Some?
    ensures Inv(Step(s, Send(j)).value)
  {
    PushConserves(s.jobs, s.tally.Keys, j);
    assert Places(s.jobs, j) == One(j in s.tally.Keys);
    SettleTally(s.tally, s.jobs.fates, j, s.tally[j], Dropped);
    assert s.tally[j := s.tally[j]] == s.tally;
  }

  lemma CallEndsKeepsInv(s: State, a: Action)
    requires Inv(s) && Step(s, a).Some? && (a.CallOk? || a.CallPanics?)
    ensures Inv(Step(s, a).value)
  {
    var j := s.jobs.held.value;
    var f := if a.CallOk? then Succeeded else Discarded;
    HeldIsLive(s.jobs, s.tally.Keys);
    SettleConserves(s.jobs, s.tally.Keys, f);
    SettleTally(s.tally, s.jobs.fates, j, s.tally[j].(calls := s.tally[j].calls + 1), f);
  }

  lemma CallFailsKeepsInv(s: State)
    requires Inv(s) && Step(s, CallFails).Some?
    ensures Inv(Step(s, CallFails).value)
  {
    var j := s.jobs.held.value;
    var n := Tally(s.tally[j].retries + 1, s.tally[j].calls + 1);
    HeldIsLive(s.jobs, s.tally.Keys);
    SettleConserves(s.jobs, s.tally.Keys, Abandoned);
    assert s.tally[j].calls == s.tally[j].retries < MAX_RETRIES;
    if n.retries < MAX_RETRIES {
      assert CallsCounted(s.tally[j := n], s.jobs.fates);
    } else {
      SettleTally(s.tally, s.jobs.fates, j, n, Abandoned);
    }
  }

  lemma SettleStepKeepsInv(s: State, a: Action)
    requires Inv(s) && Step(s, a).Some? && (a.Reject? || a.Wake? || a.StopWhileSleeping? || a.Resend?)
    ensures Inv(Step(s, a).value)
  {
    var j := s.jobs.held.value;
    var f := if a.Reject? || a.StopWhileSleeping? then Discarded else Dropped;
    HeldIsLive(s.jobs, s.tally.Keys);
    SettleConserves(s.jobs, s.tally.Keys, f);
    SettleTally(s.tally, s.jobs.fates, j, s.tally[j], f);
    assert s.tally[j := s.tally[j]] == s.tally;
    PushBackConserves(s.jobs, s.tally.Keys);
  }

  lemma StepKeepsInv(s: State, a: Action)
    requires Inv(s) && Step(s, a).Some?
    ensures Inv(Step(s, a).value)
  {
    if a.Submit? { SubmitKeepsInv(s, a.j); }
    else if a.Send? { SendKeepsInv(s, a.j); }
    else if a.Take? { TakeKeepsInv(s); }
    else if a.CallFails? { CallFailsKeepsInv(s); }
    else if a.CallOk? || a.CallPanics? { CallEndsKeepsInv(s, a); }
    else if a.Reject? || a.Wake? || a.StopWhileSleeping? || a.Resend? { SettleStepKeepsInv(s, a); }
    else { ControlStepKeepsInv(s, a); }
  }

  lemma {:induction false} InvOverRuns(s: State, run: seq<Action>)
    requires Inv(s) && Run(s, run).Some?
    ensures Inv(Run(s, run).value)
  {
    if run != [] {
      InvOverRuns(s, run[..|run| - 1]);
      StepKeepsInv(Run(s, run[..|run| - 1]).value, run[|run| - 1]);
    }
  }

  lemma InitialInv()
    ensures Inv(Initial)
  {
    assert forall j :: Places(Initial.jobs, j) == 0;
  }

  lemma {:induction false} Reachable(run: seq<Action>, s: State)
    requires Run(Initial, run) == Some(s)
    ensures Inv(s)
  {
    if run == [] {
      InitialInv();
    } else {
      var m := Run(Initial, run[..|run| - 1]).value;
      Reachable(run[..|run| - 1], m);
      StepKeepsInv(m, run[|run| - 1]);
    }
  }

  // ---- What every run keeps ----

  /** At all times every submitted job is in exactly one place: being submitted, queued once, held by the worker,
      or finished with one fate; it has caused at most three provider calls, three failed ones exactly if it was abandoned,
      and one more than failed if it succeeded. */
  lemma {:induction false} ExactlyOnePlace(run: seq<Action>, s: State, j: nat)
    requires Run(Initial, run) == Some(s)
    ensures One(j in s.jobs.entering) + multiset(s.jobs.queue)[j] + One(s.jobs.held == Some(j)) + One(j in s.jobs.fates) == One(j in s.tally)
    ensures |s.jobs.queue| <= 100
    ensures j in s.tally ==> s.tally[j].calls <= 3
    ensures j in s.jobs.fates ==> (s.jobs.fates[j] == Abandoned <==> s.tally[j].retries == 3)
    ensures j in s.jobs.fates && s.jobs.fates[j] == Succeeded ==> s.tally[j].calls == s.tally[j].retries + 1
  {
    Reachable(run, s);
    assert Places(s.jobs, j) == One(j in s.tally.Keys);
  }

  /** What the step puts into the channel. */
  function In(s: State, a: Action): seq<nat> {
    if a.Send? && |s.jobs.queue| < 100 then [a.j]
    else if a.Resend? && s.jobs.held.Some? && |s.jobs.queue| < 100 then [s.jobs.held.value]
    else []
  }

  /** What the step takes out of it, into the worker's hand. */
  function Out(a: Action, t: State): seq<nat> { if a.Take? && t.jobs.held.Some? then [t.jobs.held.value] else [] }

  /** The jobs that went into the channel, in order. */
  function Entered(run: seq<Action>): seq<nat>
    requires Run(Initial, run).Some?
  {
    if run == [] then [] else Entered(run[..|run| - 1]) + In(Run(Initial, run[..|run| - 1]).value, run[|run| - 1])
  }

  /** The jobs the worker took, in order. */
  function Taken(run: seq<Action>): seq<nat>
    requires Run(Initial, run).Some?
  {
    if run == [] then [] else Taken(run[..|run| - 1]) + Out(run[|run| - 1], Run(Initial, run).value)
  }

  lemma ChannelStep(s: State, a: Action)
    requires Step(s, a).Some?
    ensures s.jobs.queue + In(s, a) == Out(a, Step(s, a).value) + Step(s, a).value.jobs.queue
    ensures a.Take? ==> Step(s, a).value.jobs.held.Some?
  {
  }

  lemma Regroup(e: seq<nat>, x: seq<nat>, q: seq<nat>, i: seq<nat>, o: seq<nat>, r: seq<nat>)
    requires e == x + q && q + i == o + r
    ensures e + i == (x + o) + r
  {
    assert e + i == x + (q + i);
  }

  /** The channel is first in, first out: what went in is what the worker took and then what is still there. */
  lemma {:induction false} FirstInFirstOut(run: seq<Action>, s: State)
    requires Run(Initial, run) == Some(s)
    ensures Entered(run) == Taken(run) + s.jobs.queue
  {
    if run != [] {
      var front, a := run[..|run| - 1], run[|run| - 1];
      var m := Run(Initial, front).value;
      FirstInFirstOut(front, m);
      ChannelStep(m, a);
      Regroup(Entered(front), Taken(front), m.jobs.queue, In(m, a), Out(a, s), s.jobs.queue);
    }
  }

  function IsSuccess(a: Action): bool { a.CallOk? }

  function IsVerified(a: Action): bool { a.VerifyEnds? }

  lemma VerifyStep(s: State, a: Action)
    requires Step(s, a).Some?
    ensures Step(s, a).value.verifies == s.verifies + One(a.CallOk?) - One(a.VerifyEnds?)
  {
  }

  /** Every successful call, and nothing else, starts a verification. */
  lemma {:induction false} EverySuccessIsVerified(run: seq<Action>, s: State)
    requires Run(Initial, run) == Some(s)
    ensures CountOf(run, IsSuccess) == CountOf(run, IsVerified) + s.verifies
  {
    if run != [] {
      var m := Run(Initial, run[..|run| - 1]).value;
      EverySuccessIsVerified(run[..|run| - 1], m);
      VerifyStep(m, run[|run| - 1]);
    }
  }

  // ---- The worker's life ----

  predicate StopWasCalled(run: seq<Action>) { run != [] && (run[|run| - 1].StopCall? || StopWasCalled(run[..|run| - 1])) }

  /** Some `Start` came before any `Stop`. */
  predicate WasStarted(run: seq<Action>) {
    run != [] && (WasStarted(run[..|run| - 1]) || (run[|run| - 1].Start? && !StopWasCalled(run[..|run| - 1])))
  }

  lemma WorkerLifeStep(s: State, a: Action)
    requires Inv(s) && Step(s, a).Some?
    ensures var t := Step(s, a).value;
            && (t.closed <==> s.closed || a.StopCall?)
            && (t.started <==> s.started || (a.Start? && !s.closed))
            && (Alive(t.phase) <==> (Alive(s.phase) || (a.Start? && !s.closed && !s.started)) && !a.CallPanics? && !a.WorkerExit?)
            && (a.WorkerExit? ==> s.closed) && (a.CallPanics? || a.WorkerExit? ==> s.started)
  {
  }

  /** The one worker lives from the first Start, if no Stop came before, until it leaves after a Stop or a provider panics;
      nothing starts another. */
  lemma {:induction false} WorkerLaw(run: seq<Action>, s: State)
    requires Run(Initial, run) == Some(s)
    ensures s.closed <==> StopWasCalled(run)
    ensures s.started <==> WasStarted(run)
    ensures Alive(s.phase) <==> WasStarted(run) && CallPanics !in run && WorkerExit !in run
    ensures WorkerExit in run ==> StopWasCalled(run)
    ensures CallPanics in run || WorkerExit in run ==> WasStarted(run)
  {
    if run != [] {
      var front, a := run[..|run| - 1], run[|run| - 1];
      var m := Run(Initial, front).value;
      WorkerLaw(front, m);
      Reachable(front, m);
      WorkerLifeStep(m, a);
      assert run == front + [a];
    }
  }

  lemma DeadStep(s: State, a: Action)
    requires s.phase == Dead && s.started && s.jobs.held.None? && Step(s, a).Some?
    ensures var t := Step(s, a).value;
            && t.phase == Dead && t.started && t.jobs.held.None? && s.jobs.queue <= t.jobs.queue
            && forall j :: j in s.tally ==> j in t.tally && t.tally[j] == s.tally[j]
  {
  }

  /** After a provider panic the queue accepts jobs as before, but none is ever taken from the channel or tried again. */
  lemma {:induction false} DeadForever(run: seq<Action>, s: State, more: seq<Action>, t: State)
    requires Run(Initial, run) == Some(s) && CallPanics in run && Run(s, more) == Some(t)
    ensures t.phase == Dead && t.started && t.jobs.held.None? && s.jobs.queue <= t.jobs.queue
    ensures forall j :: j in s.tally ==> j in t.tally && t.tally[j] == s.tally[j]
  {
    if more == [] {
      Reachable(run, s);
      WorkerLaw(run, s);
    } else {
      var front := more[..|more| - 1];
      DeadForever(run, s, front, Run(s, front).value);
      DeadStep(Run(s, front).value, more[|more| - 1]);
    }
  }

  // ---- Retries run out ----

  function Weight(n: Tally): nat { if n.retries < MAX_RETRIES then MAX_RETRIES - n.retries else 0 }

  ghost function Sum(tally: map<nat, Tally>, live: set<nat>): nat
    requires live <= tally.Keys
  {
    if live == {} then 0 else var j :| j in live; Weight(tally[j]) + Sum(tally, live - {j})
  }

  lemma {:induction false} SumSplit(tally: map<nat, Tally>, live: set<nat>, j: nat)
    requires live <= tally.Keys && j in live
    ensures Sum(tally, live) == Weight(tally[j]) + Sum(tally, live - {j})
    decreases live
  {
    var i :| i in live && Sum(tally, live) == Weight(tally[i]) + Sum(tally, live - {i});
    if i != j {
      SumSplit(tally, live - {i}, j);
      SumSplit(tally, live - {j}, i);
      assert live - {i} - {j} == live - {j} - {i};
    }
  }

  lemma {:induction false} SumSame(a: map<nat, Tally>, b: map<nat, Tally>, live: set<nat>)
    requires live <= a.Keys && live <= b.Keys && forall j :: j in live ==> Weight(a[j]) == Weight(b[j])
    ensures Sum(a, live) == Sum(b, live)
    decreases live
  {
    if live != {} {
      var j :| j in live;
      SumSplit(a, live, j);
      SumSplit(b, live, j);
      SumSame(a, b, live - {j});
    }
  }

  ghost function Live(s: State): set<nat> { s.tally.Keys - s.jobs.fates.Keys }

  /** The attempts all unfinished jobs still have: the sum of three minus Retries. */
  ghost function Potential(s: State): nat { Sum(s.tally, Live(s)) }

  lemma SettleCosts(s: State, t: State, j: nat)
    requires j in Live(s) && Live(t) == Live(s) - {j} && t.tally.Keys == s.tally.Keys
    requires forall i :: i in s.tally && i != j ==> t.tally[i] == s.tally[i]
    ensures Potential(t) + Weight(s.tally[j]) == Potential(s)
  {
    SumSplit(s.tally, Live(s), j);
    SumSame(s.tally, t.tally, Live(t));
  }

  /** Every failed provider call uses up exactly one attempt. */
  lemma FailureCostsOne(s: State)
    requires Inv(s) && Step(s, CallFails).Some?
    ensures Potential(Step(s, CallFails).value) == Potential(s) - 1
  {
    var t, j := Step(s, CallFails).value, s.jobs.held.value;
    HeldIsLive(s.jobs, s.tally.Keys);
    assert s.tally[j].retries < MAX_RETRIES && t.tally.Keys == s.tally.Keys;
    if t.phase == Idle {
      assert Live(t) == Live(s) - {j};
      SettleCosts(s, t, j);
    } else {
      assert Live(t) == Live(s);
      SumSplit(s.tally, Live(s), j);
      SumSplit(t.tally, Live(t), j);
      SumSame(s.tally, t.tally, Live(s) - {j});
    }
  }

  lemma SettleStepCosts(s: State, a: Action)
    requires Inv(s) && Step(s, a).Some? && !a.CallFails? && !a.Submit?
    ensures Potential(Step(s, a).value) <= Potential(s)
  {
    var t := Step(s, a).value;
    if t.jobs.fates.Keys == s.jobs.fates.Keys {
      if s.jobs.held.Some? { HeldIsLive(s.jobs, s.tally.Keys); }
      assert t.tally == s.tally;
    } else if a.Send? {
      assert Places(s.jobs, a.j) == One(a.j in s.tally.Keys);
      assert Live(t) == Live(s) - {a.j};
      SettleCosts(s, t, a.j);
    } else {
      var j := s.jobs.held.value;
      HeldIsLive(s.jobs, s.tally.Keys);
      assert t.tally.Keys == s.tally.Keys && t.jobs.fates.Keys == s.jobs.fates.Keys + {j};
      assert Live(t) == Live(s) - {j};
      SettleCosts(s, t, j);
    }
  }

  lemma SubmitAddsThree(s: State, j: nat)
    requires Inv(s) && Step(s, Submit(j)).Some?
    ensures Potential(Step(s, Submit(j)).value) <= Potential(s) + MAX_RETRIES
  {
    var t := Step(s, Submit(j)).value;
    assert Places(s.jobs, j) == 0;
    SumSame(s.tally, t.tally, Live(s));
    if s.closed {
      assert Live(t) == Live(s);
    } else {
      assert Live(t) == Live(s) + {j};
      SumSplit(t.tally, Live(t), j);
      assert Live(t) - {j} == Live(s);
    }
  }

  function CountOf(run: seq<Action>, f: Action -> bool): nat {
    if run == [] then 0 else CountOf(run[..|run| - 1], f) + One(f(run[|run| - 1]))
  }

  function IsFailure(a: Action): bool { a.CallFails? }

  function IsSubmit(a: Action): bool { a.Submit? }

  /** Over any run, failed attempts and attempts left together never exceed three per submitted job. */
  lemma {:induction false} RetriesRunOut(run: seq<Action>, s: State)
    requires Run(Initial, run) == Some(s)
    ensures CountOf(run, IsFailure) + Potential(s) <= MAX_RETRIES * CountOf(run, IsSubmit)
  {
    if run == [] {
      assert Live(s) == {};
    } else {
      var front, a := run[..|run| - 1], run[|run| - 1];
      var m := Run(Initial, front).value;
      RetriesRunOut(front, m);
      Reachable(front, m);
      if a.CallFails? { FailureCostsOne(m); }
      else if a.Submit? { SubmitAddsThree(m, a.j); }
      else { SettleStepCosts(m, a); }
    }
  }

  // ---- After Stop ----

  /** The queue is shut: closed, no worker, no verifier. */
  ghost predicate Quiet(s: State) { s.closed && !Alive(s.phase) && s.verifies == 0 && s.jobs.held.None? }

  lemma QuietStep(s: State, a: Action)
    requires Quiet(s) && Inv(s) && Step(s, a).Some?
    ensures var t := Step(s, a).value;
            Quiet(t) && s.jobs.queue <= t.jobs.queue && forall j :: j in s.tally ==> j in t.tally && t.tally[j] == s.tally[j]
  {
  }

  lemma {:induction false} QuietForever(s: State, more: seq<Action>)
    requires Quiet(s) && Inv(s) && Run(s, more).Some?
    ensures var t := Run(s, more).value;
            Quiet(t) && s.jobs.queue <= t.jobs.queue && forall j :: j in s.tally ==> j in t.tally && t.tally[j] == s.tally[j]
  {
    if more != [] {
      var front := more[..|more| - 1];
      QuietForever(s, front);
      InvOverRuns(s, front);
      QuietStep(Run(s, front).value, more[|more| - 1]);
    }
  }

  /** Once a Stop has returned, no worker or verification goroutine is alive, now or after any further steps; no job
      causes another provider call, and a job in the channel stays there. */
  lemma {:induction false} NothingAfterStop(run: seq<Action>, s: State, k: nat, more: seq<Action>, t: State)
    requires Run(Initial, run) == Some(s) && k in s.stoppers && s.stoppers[k].returned && Run(s, more) == Some(t)
    ensures !Alive(t.phase) && t.verifies == 0 && t.waitGroup == 0 && s.jobs.queue <= t.jobs.queue
    ensures forall j :: j in s.tally ==> j in t.tally && t.tally[j] == s.tally[j]
  {
    Reachable(run, s);
    InvOverRuns(s, more);
    QuietForever(s, more);
  }

  // ---- Stranded jobs ----

  ghost predicate AnyReturned(s: State) { exists k :: k in s.stoppers && s.stoppers[k].returned }

  /** Some continuation ends with a Stop returned and a job in the channel, which nobody will take. */
  ghost predicate CanStrand(s: State) {
    exists more: seq<Action>, t: State :: Run(s, more) == Some(t) && AnyReturned(t) && t.jobs.queue != []
  }

  /** Nothing is in the channel or on its way into it. */
  predicate Drained(s: State) { s.jobs.queue == [] && s.jobs.entering == {} && s.phase != Resending }

  lemma DrainedStep(s: State, a: Action)
    requires s.closed && Drained(s) && Step(s, a).Some?
    ensures Step(s, a).value.closed && Drained(Step(s, a).value)
  {
  }

  lemma {:induction false} DrainedForever(s: State, more: seq<Action>)
    requires s.closed && Drained(s) && Run(s, more).Some?
    ensures Run(s, more).value.closed && Drained(Run(s, more).value)
  {
    if more != [] {
      DrainedForever(s, more[..|more| - 1]);
      DrainedStep(Run(s, more[..|more| - 1]).value, more[|more| - 1]);
    }
  }

  /** Some run leads from `s` to `t`. */
  ghost predicate Leads(s: State, t: State) { exists run: seq<Action> :: Run(s, run) == Some(t) }

  lemma LeadsHere(s: State)
    ensures Leads(s, s)
  {
    assert Run(s, []) == Some(s);
  }

  lemma LeadsThen(s: State, t: State, a: Action)
    requires Leads(s, t) && Step(t, a).Some?
    ensures Leads(s, Step(t, a).value)
  {
    var run :| Run(s, run) == Some(t);
    assert (run + [a])[..|run|] == run;
    assert Run(s, run + [a]) == Step(t, a);
  }

  /** A state on the way to a returned Stop: closed, reached from `s`, with something in the channel. */
  ghost predicate Loaded(s: State, m: State) { Leads(s, m) && Inv(m) && m.closed && m.jobs.queue != [] }

  lemma LoadedThen(s: State, m: State, a: Action)
    requires Loaded(s, m) && Step(m, a).Some? && (a.WorkerExit? || a.VerifyEnds? || a.StopCall? || a.Reject? || a.StopWhileSleeping?)
    ensures Loaded(s, Step(m, a).value)
  {
    StepKeepsInv(m, a);
    LeadsThen(s, m, a);
  }

  /** The worker lets go of its job without taking another from the channel, or puts one back into it. */
  lemma WorkerCanIdle(s: State, m: State) returns (t: State)
    requires Leads(s, m) && Inv(m) && m.closed && (m.jobs.queue != [] || m.phase == Resending)
    ensures Loaded(s, t) && !Holding(t.phase)
  {
    t := m;
    if Holding(m.phase) {
      HeldIsLive(m.jobs, m.tally.Keys);
      if m.phase == Resending {
        StepKeepsInv(m, Resend);
        LeadsThen(s, m, Resend);
        t := Step(m, Resend).value;
      } else {
        var a := if m.phase == Calling then Reject else StopWhileSleeping;
        LoadedThen(s, m, a);
        t := Step(m, a).value;
      }
    }
  }

  lemma {:induction false} VerifiersCanEnd(s: State, m: State) returns (t: State)
    requires Loaded(s, m) && !Alive(m.phase)
    ensures Loaded(s, t) && !Alive(t.phase) && t.verifies == 0
    decreases m.verifies
  {
    t := m;
    if m.verifies > 0 {
      LoadedThen(s, m, VerifyEnds);
      t := VerifiersCanEnd(s, Step(m, VerifyEnds).value);
    }
  }

  /** A Stop can return although something is in the channel. */
  lemma StopCanReturn(s: State, m: State)
    requires Loaded(s, m) && !Holding(m.phase)
    ensures CanStrand(s)
  {
    var m1 := m;
    if Alive(m.phase) {
      LoadedThen(s, m, WorkerExit);
      m1 := Step(m, WorkerExit).value;
    }
    var m2 := VerifiersCanEnd(s, m1);
    var k := Fresh.Above(m2.stoppers.Keys);
    LoadedThen(s, m2, StopCall(k));
    var m3 := Step(m2, StopCall(k)).value;
    LeadsThen(s, m3, StopReturn(k));
    var t := Step(m3, StopReturn(k)).value;
    assert k in t.stoppers && t.stoppers[k].returned;
  }

  /** The exact law at any moment after Stop was called: jobs can be left behind for ever if and only if one is in the
      channel, being submitted, or being put back by the worker. No race is needed. */
  lemma StrandingLaw(run: seq<Action>, s: State)
    requires Run(Initial, run) == Some(s) && s.closed
    ensures CanStrand(s) <==> !Drained(s)
  {
    Reachable(run, s);
    LeadsHere(s);
    if Drained(s) {
      DrainedStaysEmpty(s);
    } else if s.jobs.queue != [] || s.phase == Resending {
      var m := WorkerCanIdle(s, s);
      StopCanReturn(s, m);
    } else {
      var j :| j in s.jobs.entering;
      StepKeepsInv(s, Send(j));
      LeadsThen(s, s, Send(j));
      var m := WorkerCanIdle(s, Step(s, Send(j)).value);
      StopCanReturn(s, m);
    }
  }

  ghost predicate StaysEmpty(s: State) {
    forall more: seq<Action>, t: State :: Run(s, more) == Some(t) ==> t.jobs.queue == []
  }

  lemma DrainedStaysEmpty(s: State)
    requires s.closed && Drained(s)
    ensures StaysEmpty(s)
  {
    forall more: seq<Action>, t: State | Run(s, more) == Some(t) ensures t.jobs.queue == [] { DrainedForever(s, more); }
  }

  lemma ReturnedIsQuiet(s: State, k: nat)
    requires Inv(s) && k in s.stoppers && s.stoppers[k].returned
    ensures s.closed && s.phase != Resending
  {
  }

  /** Once a Stop has returned: the channel stays empty in every continuation if and only if it is empty and nobody is
      between the closed test and the send. */
  lemma StrandingAfterStop(run: seq<Action>, s: State, k: nat)
    requires Run(Initial, run) == Some(s) && k in s.stoppers && s.stoppers[k].returned
    ensures StaysEmpty(s) <==> s.jobs.queue == [] && s.jobs.entering == {}
  {
    Reachable(run, s);
    ReturnedIsQuiet(s, k);
    StrandingLaw(run, s);
    if Drained(s) { DrainedStaysEmpty(s); }
  }

  // ---- Retries happen ----

  /** A job asleep in an open queue with room goes to the end of the channel when its delay is over. */
  lemma RetryGoesBack(run: seq<Action>, s: State)
    requires Run(Initial, run) == Some(s) && !s.closed && s.phase == Sleeping && |s.jobs.queue| < 100
    ensures s.jobs.held.Some? && Step(s, Wake).Some?
    ensures var t := Step(Step(s, Wake).value, Resend);
            t.Some? && t.value == s.(phase := Idle, jobs := s.jobs.(held := None, queue := s.jobs.queue + [s.jobs.held.value]))
  {
    Reachable(run, s);
    HeldIsLive(s.jobs, s.tally.Keys);
  }

  /** `m` is reached from `s`, the queue is open, the worker lives and `j` is not finished and as often tried as in `n`. */
  ghost predicate OnTheWay(s: State, m: State, j: nat, n: Tally) {
    Leads(s, m) && Inv(m) && !m.closed && Alive(m.phase) && j in m.tally && j !in m.jobs.fates && m.tally[j] == n
  }

  lemma OnTheWayThen(s: State, m: State, j: nat, n: Tally, a: Action)
    requires OnTheWay(s, m, j, n) && Step(m, a).Some? && !a.StopCall? && !a.CallPanics?
    requires a.CallFails? || a.CallOk? || a.Reject? ==> m.jobs.held != Some(j)
    requires (a.Resend? && m.jobs.held == Some(j)) || (a.Send? && a.j == j) ==> |m.jobs.queue| < CAPACITY
    ensures OnTheWay(s, Step(m, a).value, j, n)
  {
    StepKeepsInv(m, a);
    LeadsThen(s, m, a);
  }

  /** The worker lets go of another job. */
  lemma LetGo(s: State, m: State, j: nat, n: Tally) returns (t: State)
    requires OnTheWay(s, m, j, n) && m.jobs.held != Some(j)
    ensures OnTheWay(s, t, j, n) && t.phase == Idle
  {
    t := m;
    if m.phase != Idle {
      HeldIsLive(m.jobs, m.tally.Keys);
      if m.phase == Calling {
        OnTheWayThen(s, m, j, n, Reject);
        t := Step(m, Reject).value;
      } else {
        if m.phase == Sleeping {
          OnTheWayThen(s, m, j, n, Wake);
          t := Step(m, Wake).value;
        }
        OnTheWayThen(s, t, j, n, Resend);
        t := Step(t, Resend).value;
      }
    }
  }

  /** The worker works through the channel up to `j`, which it then holds with room behind it. */
  lemma {:induction false} TakeUpTo(s: State, m: State, j: nat, n: Tally) returns (t: State)
    requires OnTheWay(s, m, j, n) && m.phase == Idle && j in m.jobs.queue
    ensures OnTheWay(s, t, j, n) && t.phase == Calling && t.jobs.held == Some(j) && |t.jobs.queue| < CAPACITY
    decreases |m.jobs.queue|
  {
    OnTheWayThen(s, m, j, n, Take);
    t := Step(m, Take).value;
    if m.jobs.queue[0] != j {
      HeldIsLive(t.jobs, t.tally.Keys);
      OnTheWayThen(s, t, j, n, Reject);
      t := TakeUpTo(s, Step(t, Reject).value, j, n);
    }
  }

  /** A submission is sent, after a place was made for it. */
  lemma SendIn(s: State, m: State, j: nat, n: Tally) returns (t: State)
    requires OnTheWay(s, m, j, n) && m.phase == Idle && j in m.jobs.entering
    ensures OnTheWay(s, t, j, n) && t.phase == Idle && j in t.jobs.queue
  {
    t := m;
    if |m.jobs.queue| >= CAPACITY {
      OnTheWayThen(s, m, j, n, Take);
      t := Step(m, Take).value;
      HeldIsLive(t.jobs, t.tally.Keys);
      assert Places(t.jobs, j) == 1;
      OnTheWayThen(s, t, j, n, Reject);
      t := Step(t, Reject).value;
    }
    OnTheWayThen(s, t, j, n, Send(j));
    t := Step(t, Send(j)).value;
    assert t.jobs.queue[|t.jobs.queue| - 1] == j;
  }

  /** The worker gets to an unfinished job it does not hold. */
  lemma PickUp(s: State, m: State, j: nat, n: Tally) returns (t: State)
    requires OnTheWay(s, m, j, n) && m.jobs.held != Some(j)
    ensures OnTheWay(s, t, j, n) && t.phase == Calling && t.jobs.held == Some(j) && |t.jobs.queue| < CAPACITY
  {
    t := LetGo(s, m, j, n);
    assert Places(t.jobs, j) == 1;
    if j in t.jobs.entering { t := SendIn(s, t, j, n); }
    t := TakeUpTo(s, t, j, n);
  }

  /** A sleeping job is sent back and comes up again. */
  lemma ComeBack(s: State, m: State, j: nat, n: Tally) returns (t: State)
    requires OnTheWay(s, m, j, n) && m.jobs.held == Some(j) && m.phase != Calling && |m.jobs.queue| < CAPACITY
    ensures OnTheWay(s, t, j, n) && t.phase == Calling && t.jobs.held == Some(j) && |t.jobs.queue| < CAPACITY
  {
    t := m;
    if m.phase == Sleeping {
      OnTheWayThen(s, m, j, n, Wake);
      t := Step(m, Wake).value;
    }
    OnTheWayThen(s, t, j, n, Resend);
    t := Step(t, Resend).value;
    assert t.jobs.queue[|t.jobs.queue| - 1] == j;
    t := TakeUpTo(s, t, j, n);
  }

  /** The job in hand fails until only its third call is left. */
  lemma {:induction false} LastCall(s: State, m: State, j: nat, n: Tally) returns (t: State)
    requires OnTheWay(s, m, j, n) && m.phase == Calling && m.jobs.held == Some(j) && (n.retries == 2 || |m.jobs.queue| < CAPACITY)
    ensures OnTheWay(s, t, j, Tally(2, 2)) && t.phase == Calling && t.jobs.held == Some(j)
    decreases 2 - n.retries
  {
    t := m;
    if n.retries < 2 {
      StepKeepsInv(m, CallFails);
      LeadsThen(s, m, CallFails);
      var n1 := Tally(n.retries + 1, n.calls + 1);
      t := ComeBack(s, Step(m, CallFails).value, j, n1);
      t := LastCall(s, t, j, n1);
    }
  }

  /** The worker holds the job and needs a place in the full channel for its next attempt, which nobody can make. */
  predicate Stuck(s: State, j: nat) {
    && s.jobs.held == Some(j) && |s.jobs.queue| == 100
    && !(s.phase == Calling && j in s.tally && s.tally[j].retries == 2)
  }

  /** Some continuation ends the job with that fate and that tally. */
  ghost predicate CanEnd(s: State, j: nat, f: Fate, n: Tally) {
    exists t: State :: Leads(s, t) && j in t.jobs.fates && t.jobs.fates[j] == f && j in t.tally && t.tally[j] == n
  }

  lemma UnstuckCanEnd(s: State, j: nat)
    requires Inv(s) && !s.closed && Alive(s.phase) && j in s.tally && j !in s.jobs.fates && !Stuck(s, j)
    ensures CanEnd(s, j, Succeeded, Tally(2, 3)) && CanEnd(s, j, Abandoned, Tally(3, 3))
  {
    LeadsHere(s);
    var n, m := s.tally[j], s;
    if s.jobs.held != Some(j) {
      m := PickUp(s, s, j, n);
    } else if s.phase != Calling {
      m := ComeBack(s, s, j, n);
    }
    m := LastCall(s, m, j, n);
    LeadsThen(s, m, CallOk);
    LeadsThen(s, m, CallFails);
    assert Step(m, CallOk).value.tally[j] == Tally(2, 3);
    assert Step(m, CallFails).value.tally[j] == Tally(3, 3);
  }

  /** The job is held before a full channel, or finished, with at most two calls made or under way. */
  ghost predicate ShortOfThree(s: State, j: nat) {
    && j in s.tally && s.tally[j].calls + One(s.phase == Calling && s.jobs.held == Some(j)) <= 2
    && (j in s.jobs.fates || (s.jobs.held == Some(j) && |s.jobs.queue| >= CAPACITY))
  }

  lemma ShortOfThreeStep(s: State, j: nat, a: Action)
    requires Inv(s) && ShortOfThree(s, j) && Step(s, a).Some?
    ensures ShortOfThree(Step(s, a).value, j)
  {
    assert Places(s.jobs, j) == 1;
    if s.jobs.held.Some? { HeldIsLive(s.jobs, s.tally.Keys); }
  }

  lemma {:induction false} ShortOfThreeForever(s: State, j: nat, more: seq<Action>, t: State)
    requires Inv(s) && ShortOfThree(s, j) && Run(s, more) == Some(t)
    ensures ShortOfThree(t, j)
  {
    if more != [] {
      var front := more[..|more| - 1];
      ShortOfThreeForever(s, j, front, Run(s, front).value);
      InvOverRuns(s, front);
      ShortOfThreeStep(Run(s, front).value, j, more[|more| - 1]);
    }
  }

  /** The exact retry law. With the queue open and the worker alive, an unfinished job that has failed `n` times can still
      fail `2 - n` times and then succeed, and can still be given up after three failed calls, if and only if it is not in
      the worker's hand before a full channel with a place in it still to be needed. */
  lemma RetryLaw(run: seq<Action>, s: State, j: nat)
    requires Run(Initial, run) == Some(s) && !s.closed && Alive(s.phase) && j in s.tally && j !in s.jobs.fates
    ensures s.tally[j].retries <= 2
    ensures CanEnd(s, j, Succeeded, Tally(2, 3)) <==> !Stuck(s, j)
    ensures CanEnd(s, j, Abandoned, Tally(3, 3)) <==> !Stuck(s, j)
  {
    Reachable(run, s);
    if Stuck(s, j) {
      forall t: State | Leads(s, t) && j in t.tally ensures t.tally[j].calls <= 2 {
        var more :| Run(s, more) == Some(t);
        ShortOfThreeForever(s, j, more, t);
      }
    } else {
      UnstuckCanEnd(s, j);
    }
  }

  lemma Snoc(s: State, run: seq<Action>, t: State, a: Action)
    requires Run(s, run) == Some(t)
    ensures Run(s, run + [a]) == Step(t, a)
  {
    assert (run + [a])[..|run|] == run;
  }

  const Started := Initial.(started := true, phase := Idle, waitGroup := 1)

  lemma StartedRun()
    ensures Run(Initial, [Start]) == Some(Started)
  {
    assert Run(Initial, []) == Some(Initial);
    Snoc(Initial, [], Initial, Start);
    assert [] + [Start] == [Start];
  }

  /** A job in the channel when Stop is called, and the worker leaves. */
  lemma {:induction false} QueuedJobCanBeStranded()
    ensures var s := Run(Initial, [Start, Submit(0), Send(0), StopCall(0), WorkerExit, StopReturn(0)]);
            s.Some? && 0 in s.value.stoppers && s.value.stoppers[0].returned && s.value.jobs.queue == [0]
  {
    StartedRun();
    var r1 := [Start];
    var s2 := Step(Started, Submit(0)).value;
    Snoc(Initial, r1, Started, Submit(0));
    var r2 := r1 + [Submit(0)];
    var s3 := Step(s2, Send(0)).value;
    Snoc(Initial, r2, s2, Send(0));
    var r3 := r2 + [Send(0)];
    var s4 := Step(s3, StopCall(0)).value;
    Snoc(Initial, r3, s3, StopCall(0));
    var r4 := r3 + [StopCall(0)];
    var s5 := Step(s4, WorkerExit).value;
    Snoc(Initial, r4, s4, WorkerExit);
    var r5 := r4 + [WorkerExit];
    Snoc(Initial, r5, s5, StopReturn(0));
    assert r5 + [StopReturn(0)] == [Start, Submit(0), Send(0), StopCall(0), WorkerExit, StopReturn(0)];
  }

  /** A submission that races Stop can even enter the channel after Stop has returned. */
  lemma {:induction false} SubmissionCanBeStranded()
    ensures var s := Run(Initial, [Start, Submit(0), StopCall(0), WorkerExit, StopReturn(0), Send(0)]);
            s.Some? && 0 in s.value.stoppers && s.value.stoppers[0].returned && s.value.jobs.queue == [0] && 0 in s.value.tally
  {
    StartedRun();
    var r1 := [Start];
    var s2 := Step(Started, Submit(0)).value;
    Snoc(Initial, r1, Started, Submit(0));
    var r2 := r1 + [Submit(0)];
    var s3 := Step(s2, StopCall(0)).value;
    Snoc(Initial, r2, s2, StopCall(0));
    var r3 := r2 + [StopCall(0)];
    var s4 := Step(s3, WorkerExit).value;
    Snoc(Initial, r3, s3, WorkerExit);
    var r4 := r3 + [WorkerExit];
    var s5 := Step(s4, StopReturn(0)).value;
    Snoc(Initial, r4, s4, StopReturn(0));
    var r5 := r4 + [StopReturn(0)];
    Snoc(Initial, r5, s5, Send(0));
    assert r5 + [Send(0)] == [Start, Submit(0), StopCall(0), WorkerExit, StopReturn(0), Send(0)];
  }
}
