/** The event bus's asynchronous pool: semaphore, retry, wait group and drain,
    as a state machine over the critical steps of publishers and handler goroutines. */
module EventPool {
  import opened Options
  import Fresh

  const POOL_SIZE: nat := 64

  /** Where the goroutine of one asynchronous delivery stands. */
  datatype Phase =
    | Acquired               // the publisher holds a slot for it and has not started it yet
    | First                  // first handler call
    | Releasing              // first call returned without error, or panicked; the slot goes back next
    | Backoff                // first call failed; slot returned, sleeping
    | Waiting                // backoff over, asking for a slot again
    | Retrying               // second handler call
    | Exiting(retried: bool) // only the wait-group decrement is left
    | Gone(retried: bool)

  datatype Delivery = Delivery(owner: nat, phase: Phase, calls: nat)

  /** A running `Publish`. `tracked` tells `PublishAsync` from a direct call; `todo` lists the matched
      subscriptions still to serve (true: asynchronous); `pending`: a slot is held for `todo[0]`. */
  datatype Publisher = Publisher(tracked: bool, todo: seq<bool>, pending: bool)

  datatype State = State(occupied: nat, waitGroup: int, publishers: map<nat, Publisher>, deliveries: map<nat, Delivery>)

  const Start := State(0, 0, map[], map[])

  datatype Action =
    | Begin(p: nat, tracked: bool, subs: seq<bool>)
    | SyncReturns(p: nat, ok: bool)   // not ok: an error, or a panic
    | Acquire(p: nat, d: nat)
    | Spawn(d: nat)
    | End(p: nat)
    | FirstEnds(d: nat)      // nil result or recovered panic
    | FirstFails(d: nat)
    | Release(d: nat)
    | Canceled(d: nat)
    | TimerFires(d: nat)
    | Reacquire(d: nat)
    | RetryEnds(d: nat)      // any result: the deferred release is skipped
    | Done(d: nat)

  function Set(s: State, d: nat, ph: Phase): State
    requires d in s.deliveries
  {
    s.(deliveries := s.deliveries[d := s.deliveries[d].(phase := ph)])
  }

  predicate At(s: State, d: nat, ph: Phase) { d in s.deliveries && s.deliveries[d].phase == ph }

  /** One critical step; `None` when it is not possible, e.g. a send on the full semaphore. */
  function Step(s: State, a: Action): Option<State> {
    match a
    case Begin(p, tracked, subs) =>
      if p in s.publishers then None
      else Some(s.(publishers := s.publishers[p := Publisher(tracked, subs, false)],
                   waitGroup := s.waitGroup + if tracked then 1 else 0))
    case SyncReturns(p, ok) =>
      if p !in s.publishers then None
      else
        var pub := s.publishers[p];
        if pub.todo == [] || pub.todo[0] then None
        else Some(s.(publishers := s.publishers[p := pub.(todo := if ok then pub.todo[1..] else [])]))
    case Acquire(p, d) =>
      if p !in s.publishers || d in s.deliveries || s.occupied >= POOL_SIZE then None
      else
        var pub := s.publishers[p];
        if pub.todo == [] || !pub.todo[0] || pub.pending then None
        else Some(s.(occupied := s.occupied + 1, publishers := s.publishers[p := pub.(pending := true)],
                     deliveries := s.deliveries[d := Delivery(p, Acquired, 0)]))
    case Spawn(d) =>
      if !At(s, d, Acquired) || s.deliveries[d].owner !in s.publishers then None
      else
        var pub := s.publishers[s.deliveries[d].owner];
        if pub.todo == [] then None
        else Some(s.(waitGroup := s.waitGroup + 1,
                     publishers := s.publishers[s.deliveries[d].owner := pub.(todo := pub.todo[1..], pending := false)],
                     deliveries := s.deliveries[d := s.deliveries[d].(phase := First, calls := 1)]))
    case End(p) =>
      if p !in s.publishers || s.publishers[p].todo != [] then None
      else Some(s.(publishers := s.publishers - {p}, waitGroup := s.waitGroup - if s.publishers[p].tracked then 1 else 0))
    case FirstEnds(d) => if At(s, d, First) then Some(Set(s, d, Releasing)) else None
    case FirstFails(d) =>
      if At(s, d, First) && s.occupied > 0 then Some(Set(s, d, Backoff).(occupied := s.occupied - 1)) else None
    case Release(d) =>
      if At(s, d, Releasing) && s.occupied > 0 then Some(Set(s, d, Exiting(false)).(occupied := s.occupied - 1)) else None
    case Canceled(d) => if At(s, d, Backoff) then Some(Set(s, d, Exiting(false))) else None
    case TimerFires(d) => if At(s, d, Backoff) then Some(Set(s, d, Waiting)) else None
    case Reacquire(d) =>
      if At(s, d, Waiting) && s.occupied < POOL_SIZE
      then Some(s.(occupied := s.occupied + 1, deliveries := s.deliveries[d := s.deliveries[d].(phase := Retrying, calls := 2)]))
      else None
    case RetryEnds(d) => if At(s, d, Retrying) then Some(Set(s, d, Exiting(true))) else None
    case Done(d) =>
      if d in s.deliveries && s.deliveries[d].phase.Exiting?
      then Some(Set(s, d, Gone(s.deliveries[d].phase.retried)).(waitGroup := s.waitGroup - 1)) else None
  }

  function Run(s: State, run: seq<Action>): Option<State> {
    if run == [] then Some(s)
    else
      var before := Run(s, run[..|run| - 1]);
      if before.None? then None else Step(before.value, run[|run| - 1])
  }

  // ---- Counting ----

  predicate UsesSlot(ph: Phase) { ph.Acquired? || ph.First? || ph.Releasing? || ph.Retrying? }

  predicate FinishedRetry(ph: Phase) { (ph.Exiting? || ph.Gone?) && ph.retried }

  predicate Executing(ph: Phase) { ph.First? || ph.Retrying? }

  predicate Alive(ph: Phase) { !ph.Acquired? && !ph.Gone? }

  /** The deliveries whose phase satisfies `f`. */
  ghost function Where(m: map<nat, Delivery>, f: Phase -> bool): set<nat> { set d | d in m && f(m[d].phase) }

  /** Deliveries acquired but not started, in their first attempt, or in their retry. */
  ghost function InUse(s: State): set<nat> { Where(s.deliveries, UsesSlot) }

  /** Deliveries whose retry is over: their second slot was never given back. */
  ghost function Leaked(s: State): set<nat> { Where(s.deliveries, FinishedRetry) }

  /** Deliveries inside a handler call. */
  ghost function Handling(s: State): set<nat> { Where(s.deliveries, Executing) }

  /** Handler goroutines that have started and not finished. */
  ghost function Goroutines(s: State): set<nat> { Where(s.deliveries, Alive) }

  ghost function Tracked(m: map<nat, Publisher>): set<nat> { set p | p in m && m[p].tracked }

  ghost function TrackedPublishers(s: State): set<nat> { Tracked(s.publishers) }

  ghost predicate Inv(s: State) {
    && s.occupied == |InUse(s)| + |Leaked(s)|
    && s.occupied <= POOL_SIZE
    && s.waitGroup == |TrackedPublishers(s)| + |Goroutines(s)|
    && PendingMatchesAcquired(s.publishers, s.deliveries)
    && (forall d :: d in s.deliveries ==> CallsFit(s.deliveries[d]))
  }

  /** A publisher holding a slot is at an asynchronous subscription, and each unstarted delivery is the
      one its publisher holds the slot for. */
  ghost predicate PendingMatchesAcquired(pubs: map<nat, Publisher>, m: map<nat, Delivery>) {
    && (forall p :: p in pubs && pubs[p].pending ==> pubs[p].todo != [] && pubs[p].todo[0])
    && (forall d :: d in m && m[d].phase.Acquired? ==> m[d].owner in pubs && pubs[m[d].owner].pending)
    && (forall d, e :: d in m && e in m && m[d].phase.Acquired? && m[e].phase.Acquired? && m[d].owner == m[e].owner ==> d == e)
  }

  /** The handler has been called as often as the phase says: never, once, or twice. */
  predicate CallsFit(x: Delivery) {
    x.calls == if x.phase.Acquired? then 0 else if x.phase.Retrying? || FinishedRetry(x.phase) then 2 else 1
  }

  function One(b: bool): nat { if b then 1 else 0 }

  /** How a count moves when one delivery is added or changes phase. */
  lemma WhereMoves(m: map<nat, Delivery>, d: nat, x: Delivery, f: Phase -> bool)
    ensures |Where(m[d := x], f)| == |Where(m, f)| - One(d in m && f(m[d].phase)) + One(f(x.phase))
  {
    if f(x.phase) {
      assert Where(m[d := x], f) == Where(m, f) + {d};
    } else {
      assert Where(m[d := x], f) == Where(m, f) - {d};
    }
  }

  lemma TrackedMoves(m: map<nat, Publisher>, p: nat, x: Publisher)
    ensures |Tracked(m[p := x])| == |Tracked(m)| - One(p in m && m[p].tracked) + One(x.tracked)
  {
    if x.tracked {
      assert Tracked(m[p := x]) == Tracked(m) + {p};
    } else {
      assert Tracked(m[p := x]) == Tracked(m) - {p};
    }
  }

  /** A publisher that holds no slot may change freely. */
  lemma PendingKept(pubs: map<nat, Publisher>, m: map<nat, Delivery>, p: nat, x: Publisher)
    requires PendingMatchesAcquired(pubs, m) && !x.pending && (p in pubs ==> !pubs[p].pending)
    ensures PendingMatchesAcquired(pubs[p := x], m) && PendingMatchesAcquired(pubs - {p}, m)
  {
  }

  lemma PublisherStepKeepsInv(s: State, a: Action)
    requires Inv(s) && Step(s, a).Some? && (a.Begin? || a.SyncReturns? || a.End?)
    ensures Inv(Step(s, a).value)
  {
    match a {
      case Begin(p, tracked, subs) =>
        var x := Publisher(tracked, subs, false);
        TrackedMoves(s.publishers, p, x);
        PendingKept(s.publishers, s.deliveries, p, x);
      case SyncReturns(p, ok) =>
        var pub := s.publishers[p];
        var x := pub.(todo := if ok then pub.todo[1..] else []);
        TrackedMoves(s.publishers, p, x);
        PendingKept(s.publishers, s.deliveries, p, x);
      case End(p) =>
        assert Tracked(s.publishers - {p}) == Tracked(s.publishers) - {p};
        PendingKept(s.publishers, s.deliveries, p, s.publishers[p]);
    }
  }

  lemma HandoverKeepsInv(s: State, a: Action)
    requires Inv(s) && Step(s, a).Some? && (a.Acquire? || a.Spawn?)
    ensures Inv(Step(s, a).value)
  {
    var t := Step(s, a).value;
    var x := t.deliveries[a.d];
    WhereMoves(s.deliveries, a.d, x, UsesSlot);
    WhereMoves(s.deliveries, a.d, x, FinishedRetry);
    WhereMoves(s.deliveries, a.d, x, Alive);
    TrackedMoves(s.publishers, x.owner, t.publishers[x.owner]);
  }

  /** A started delivery moves on; the semaphore and the wait group follow its phase. */
  lemma PhaseStepKeepsInv(s: State, t: State, d: nat, x: Delivery)
    requires Inv(s) && d in s.deliveries && t == s.(deliveries := s.deliveries[d := x], occupied := t.occupied, waitGroup := t.waitGroup)
    requires !s.deliveries[d].phase.Acquired? && !x.phase.Acquired? && CallsFit(x)
    requires t.occupied == s.occupied - One(UsesSlot(s.deliveries[d].phase) || FinishedRetry(s.deliveries[d].phase))
                           + One(UsesSlot(x.phase) || FinishedRetry(x.phase))
    requires t.occupied <= POOL_SIZE
    requires t.waitGroup == s.waitGroup - One(Alive(s.deliveries[d].phase)) + One(Alive(x.phase))
    ensures Inv(t)
  {
    WhereMoves(s.deliveries, d, x, UsesSlot);
    WhereMoves(s.deliveries, d, x, FinishedRetry);
    WhereMoves(s.deliveries, d, x, Alive);
  }

  lemma HandlerStepKeepsInv(s: State, a: Action)
    requires Inv(s) && Step(s, a).Some?
    requires HandlerStep(a)
    ensures Inv(Step(s, a).value)
  {
    var t := Step(s, a).value;
    assert CallsFit(s.deliveries[a.d]);
    PhaseStepKeepsInv(s, t, a.d, t.deliveries[a.d]);
  }

  lemma {:induction false} InvOverRuns(s: State, run: seq<Action>)
    requires Inv(s) && Run(s, run).Some?
    ensures Inv(Run(s, run).value)
  {
    if run != [] {
      var front, a := run[..|run| - 1], run[|run| - 1];
      InvOverRuns(s, front);
      var m := Run(s, front).value;
      if a.Begin? || a.SyncReturns? || a.End? { PublisherStepKeepsInv(m, a); }
      else if a.Acquire? || a.Spawn? { HandoverKeepsInv(m, a); }
      else { HandlerStepKeepsInv(m, a); }
    }
  }

  lemma StartInv()
    ensures Inv(Start)
  {
    assert InUse(Start) == {} && Leaked(Start) == {} && Goroutines(Start) == {} && TrackedPublishers(Start) == {};
  }

  // ---- What a publish serves ----

  /** The subscriptions a publisher was begun with, by the last `Begin` of the run under its number. */
  function Subs(run: seq<Action>, p: nat): Option<seq<bool>> {
    if run == [] then None
    else
      var a := run[|run| - 1];
      if a.Begin? && a.p == p then Some(a.subs) else Subs(run[..|run| - 1], p)
  }

  /** The publisher a delivery's slot was acquired by. */
  function OwnerIn(run: seq<Action>, d: nat): Option<nat> {
    if run == [] then None
    else
      var a := run[|run| - 1];
      if a.Acquire? && a.d == d then Some(a.p) else OwnerIn(run[..|run| - 1], d)
  }

  /** What the publisher has served since its `Begin`, in order: false for a synchronous handler that has returned, true for an
      asynchronous one that was started. */
  function Served(run: seq<Action>, p: nat): seq<bool> {
    if run == [] then []
    else
      var front, a := run[..|run| - 1], run[|run| - 1];
      if a.Begin? && a.p == p then []
      else if a.SyncReturns? && a.p == p then Served(front, p) + [false]
      else if a.Spawn? && OwnerIn(front, a.d) == Some(p) then Served(front, p) + [true]
      else Served(front, p)
  }

  /** A synchronous handler of the publisher has failed since its `Begin`. */
  predicate FailedIn(run: seq<Action>, p: nat) {
    if run == [] then false
    else
      var front, a := run[..|run| - 1], run[|run| - 1];
      if a.Begin? && a.p == p then false else FailedIn(front, p) || (a.SyncReturns? && a.p == p && !a.ok)
  }

  lemma {:induction false} OwnersAreRecorded(run: seq<Action>, s: State, d: nat)
    requires Run(Start, run) == Some(s)
    ensures OwnerIn(run, d) == if d in s.deliveries then Some(s.deliveries[d].owner) else None
  {
    if run != [] { OwnersAreRecorded(run[..|run| - 1], Run(Start, run[..|run| - 1]).value, d); }
  }

  /** How far a publisher has come: without a failure it has served all but what is left; a failure is the last thing served. */
  ghost predicate Progress(subs: seq<bool>, served: seq<bool>, failed: bool, left: seq<bool>) {
    if failed then left == [] && served <= subs && served != [] && !served[|served| - 1] else served + left == subs
  }

  lemma ProgressBy(subs: seq<bool>, served: seq<bool>, left: seq<bool>)
    requires served + left == subs && left != []
    ensures Progress(subs, served + [left[0]], false, left[1..])
    ensures !left[0] ==> Progress(subs, served + [left[0]], true, [])
  {
    assert [left[0]] + left[1..] == left;
    assert (served + [left[0]]) + left[1..] == subs;
  }

  lemma {:induction false} ProgressOverRuns(run: seq<Action>, s: State, p: nat)
    requires Run(Start, run) == Some(s)
    ensures p in s.publishers ==> Subs(run, p).Some? && Progress(Subs(run, p).value, Served(run, p), FailedIn(run, p), s.publishers[p].todo)
    ensures p !in s.publishers && Subs(run, p).Some? ==> Progress(Subs(run, p).value, Served(run, p), FailedIn(run, p), [])
  {
    if run != [] {
      var front, a := run[..|run| - 1], run[|run| - 1];
      var m := Run(Start, front).value;
      ProgressOverRuns(front, m, p);
      if a.SyncReturns? && a.p == p {
        if !FailedIn(front, p) { ProgressBy(Subs(front, p).value, Served(front, p), m.publishers[p].todo); }
      } else if a.Spawn? {
        OwnersAreRecorded(front, m, a.d);
        SpawnServesAsync(front, m, a.d);
        if m.deliveries[a.d].owner == p { ProgressBy(Subs(front, p).value, Served(front, p), m.publishers[p].todo); }
      }
    }
  }

  lemma SpawnServesAsync(run: seq<Action>, s: State, d: nat)
    requires Run(Start, run) == Some(s) && Step(s, Spawn(d)).Some?
    ensures var pub := s.publishers[s.deliveries[d].owner]; pub.todo != [] && pub.todo[0]
  {
    StartInv();
    InvOverRuns(Start, run);
  }

  /** The delivery law of Publish, counted from the steps alone. A publish that has ended served its subscriptions in order: all
      of them if no synchronous handler failed, and otherwise exactly those up to and including the one that did. */
  lemma PublishLaw(run: seq<Action>, s: State, p: nat)
    requires Run(Start, run) == Some(s) && Subs(run, p).Some? && p !in s.publishers
    ensures var subs, served := Subs(run, p).value, Served(run, p);
            if FailedIn(run, p) then served <= subs && served != [] && !served[|served| - 1] else served == subs
  {
    ProgressOverRuns(run, s, p);
    assert Served(run, p) + [] == Served(run, p);
  }

  /** A publish still going on has served the front of its subscriptions, and the rest is what it goes on with. */
  lemma PublishGoesOn(run: seq<Action>, s: State, p: nat)
    requires Run(Start, run) == Some(s) && p in s.publishers && !FailedIn(run, p)
    ensures Subs(run, p).Some? && Served(run, p) + s.publishers[p].todo == Subs(run, p).value
    ensures s.publishers[p].todo == [] <==> Step(s, End(p)).Some?
  {
    ProgressOverRuns(run, s, p);
  }

  // ---- The slot law ----

  /** In every interleaving: a slot is occupied for every delivery acquired but not started, every first attempt,
      every retry, and for ever after for every finished retry. */
  lemma SlotLaw(run: seq<Action>)
    requires Run(Start, run).Some?
    ensures var s := Run(Start, run).value;
            && s.occupied == |InUse(s)| + |Leaked(s)| <= 64
            && |Handling(s)| <= 64
            && (s.occupied == |InUse(s)| <==> Leaked(s) == {})
  {
    StartInv();
    InvOverRuns(Start, run);
    var s := Run(Start, run).value;
    SubsetSize(Handling(s), InUse(s));
  }

  lemma {:induction false} SubsetSize(a: set<nat>, b: set<nat>)
    requires a <= b
    ensures |a| <= |b|
  {
    if a != {} {
      var x :| x in a;
      SubsetSize(a - {x}, b - {x});
    }
  }

  /** How often a step of the run was `a`. */
  function Times(run: seq<Action>, a: Action): nat {
    if run == [] then 0 else Times(run[..|run| - 1], a) + One(run[|run| - 1] == a)
  }

  function CallsOf(s: State, d: nat): nat { if d in s.deliveries then s.deliveries[d].calls else 0 }

  lemma CallsStep(s: State, a: Action, d: nat)
    requires Step(s, a).Some? && (d in s.deliveries ==> CallsFit(s.deliveries[d]))
    ensures CallsOf(Step(s, a).value, d) == CallsOf(s, d) + One(a == Spawn(d)) + One(a == Reacquire(d))
  {
  }

  /** The handler calls of a delivery, counted from the steps: one when it is started, one when it gets a slot again. */
  lemma {:induction false} CallsCounted(run: seq<Action>, s: State, d: nat)
    requires Run(Start, run) == Some(s)
    ensures Times(run, Spawn(d)) + Times(run, Reacquire(d)) == CallsOf(s, d)
  {
    if run != [] {
      var m := Run(Start, run[..|run| - 1]).value;
      CallsCounted(run[..|run| - 1], m, d);
      StartInv();
      InvOverRuns(Start, run[..|run| - 1]);
      CallsStep(m, run[|run| - 1], d);
    }
  }

  /** A handler is called at most twice per delivery; a finished delivery was called, twice exactly if it got a slot again. */
  lemma CallsBounded(run: seq<Action>, d: nat)
    requires Run(Start, run).Some? && d in Run(Start, run).value.deliveries
    ensures var x := Run(Start, run).value.deliveries[d];
            && Times(run, Spawn(d)) + Times(run, Reacquire(d)) == x.calls <= 2
            && (x.phase.Gone? ==> x.calls == if x.phase.retried then 2 else 1)
  {
    StartInv();
    InvOverRuns(Start, run);
    CallsCounted(run, Run(Start, run).value, d);
  }

  /** A delivery that failed once is retried or given up, whichever comes first; and a started delivery can always take its
      next step, unless it waits for a slot again and all 64 are taken. */
  lemma NextStep(run: seq<Action>, s: State, d: nat)
    requires Run(Start, run) == Some(s) && d in Goroutines(s)
    ensures At(s, d, Backoff) ==> Step(s, TimerFires(d)).Some? && Step(s, Canceled(d)).Some?
    ensures (exists a: Action :: HandlerStep(a) && a.d == d && Step(s, a).Some?) <==> !(At(s, d, Waiting) && s.occupied == 64)
  {
    ReleaseNeverBlocks(run, d);
    StartInv();
    InvOverRuns(Start, run);
    var a := match s.deliveries[d].phase
      case First => FirstEnds(d)
      case Releasing => Release(d)
      case Backoff => TimerFires(d)
      case Waiting => Reacquire(d)
      case Retrying => RetryEnds(d)
      case _ => Done(d);
    assert HandlerStep(a) && a.d == d;
  }

  predicate HandlerStep(a: Action) { !(a.Begin? || a.SyncReturns? || a.End? || a.Acquire? || a.Spawn?) }

  /** Giving a slot back never blocks. */
  lemma ReleaseNeverBlocks(run: seq<Action>, d: nat)
    requires Run(Start, run).Some?
    ensures var s := Run(Start, run).value;
            (At(s, d, First) ==> Step(s, FirstFails(d)).Some?) && (At(s, d, Releasing) ==> Step(s, Release(d)).Some?)
  {
    StartInv();
    InvOverRuns(Start, run);
    var s := Run(Start, run).value;
    if At(s, d, First) || At(s, d, Releasing) {
      assert d in InUse(s);
    }
  }

  // ---- When the pool is dead ----

  /** Some run leads from `s` to `t`. */
  ghost predicate Leads(s: State, t: State) { exists run: seq<Action> :: Run(s, run) == Some(t) }

  lemma LeadsThen(s: State, t: State, a: Action)
    requires Leads(s, t) && Step(t, a).Some?
    ensures Leads(s, Step(t, a).value)
  {
    var run :| Run(s, run) == Some(t);
    assert (run + [a])[..|run|] == run;
    assert Run(s, run + [a]) == Step(t, a);
  }

  /** A retry in progress, or one that is over: its slot never comes back. */
  predicate Spent(ph: Phase) { ph.Retrying? || FinishedRetry(ph) }

  ghost function SpentSlots(s: State): set<nat> { Where(s.deliveries, Spent) }

  lemma SpentOnlyGrow(s: State, a: Action)
    requires Step(s, a).Some?
    ensures SpentSlots(s) <= SpentSlots(Step(s, a).value)
  {
  }

  lemma SpentAreOccupied(s: State)
    requires Inv(s)
    ensures |SpentSlots(s)| <= s.occupied
    ensures |SpentSlots(s)| < s.occupied ==> exists d :: d in InUse(s) && d !in SpentSlots(s)
  {
    var all := InUse(s) + Leaked(s);
    assert InUse(s) * Leaked(s) == {} && |all| == |InUse(s)| + |Leaked(s)|;
    SubsetSize(SpentSlots(s), all);
    if forall d :: d in InUse(s) ==> d in SpentSlots(s) {
      SubsetSize(all, SpentSlots(s));
    }
  }

  /** Once the retries in progress and those finished are as many as the pool has slots, no acquire is ever possible again. */
  lemma {:induction false} DeadPool(s: State, more: seq<Action>)
    requires Inv(s) && |SpentSlots(s)| >= POOL_SIZE && Run(s, more).Some?
    ensures var t := Run(s, more).value;
            && SpentSlots(s) <= SpentSlots(t)
            && (forall p, d :: Step(t, Acquire(p, d)).None?) && (forall d :: Step(t, Reacquire(d)).None?)
  {
    if more != [] {
      var front := more[..|more| - 1];
      DeadPool(s, front);
      SpentOnlyGrow(Run(s, front).value, more[|more| - 1]);
    }
    InvOverRuns(s, more);
    var t := Run(s, more).value;
    SubsetSize(SpentSlots(s), SpentSlots(t));
    SpentAreOccupied(t);
  }

  /** Some continuation takes a slot for a new delivery. */
  ghost predicate CanAcquire(s: State) {
    exists t: State, p: nat, d: nat :: Leads(s, t) && Step(t, Acquire(p, d)).Some?
  }

  /** With a slot free, a new event with one asynchronous subscriber takes it. */
  lemma FreeSlotIsTaken(s: State, t: State)
    requires Leads(s, t) && t.occupied < POOL_SIZE
    ensures CanAcquire(s)
  {
    var p := Fresh.Above(t.publishers.Keys);
    var d := Fresh.Above(t.deliveries.Keys);
    LeadsThen(s, t, Begin(p, false, [true]));
    var u := Step(t, Begin(p, false, [true])).value;
    assert Step(u, Acquire(p, d)).Some?;
  }

  /** A first attempt comes to its end and gives its slot back. */
  lemma FirstAttemptFrees(s: State, t: State, d: nat)
    requires Leads(s, t) && (At(t, d, First) || At(t, d, Releasing)) && 0 < t.occupied <= POOL_SIZE
    ensures CanAcquire(s)
  {
    var u := t;
    if At(t, d, First) {
      LeadsThen(s, t, FirstEnds(d));
      u := Step(t, FirstEnds(d)).value;
    }
    LeadsThen(s, u, Release(d));
    FreeSlotIsTaken(s, Step(u, Release(d)).value);
  }

  /** The exact condition: a new delivery can still get a slot, after some continuation, if and only if the retries in
      progress and the finished ones are fewer than the slots. */
  lemma PoolLaw(run: seq<Action>, s: State)
    requires Run(Start, run) == Some(s)
    ensures CanAcquire(s) <==> |SpentSlots(s)| < 64
  {
    StartInv();
    InvOverRuns(Start, run);
    assert Run(s, []) == Some(s);
    if |SpentSlots(s)| >= POOL_SIZE {
      forall t: State, p: nat, d: nat | Leads(s, t) ensures Step(t, Acquire(p, d)).None? {
        var more :| Run(s, more) == Some(t);
        DeadPool(s, more);
      }
    } else if s.occupied < POOL_SIZE {
      FreeSlotIsTaken(s, s);
    } else {
      SpentAreOccupied(s);
      var d :| d in InUse(s) && d !in SpentSlots(s);
      if At(s, d, Acquired) {
        LeadsThen(s, s, Spawn(d));
        FirstAttemptFrees(s, Step(s, Spawn(d)).value, d);
      } else {
        FirstAttemptFrees(s, s, d);
      }
    }
  }

  // ---- Such a pool is reachable: n events whose handler fails once ----

  /** The state after `n` deliveries that were all retried, while delivery `n` is at `x`. */
  ghost function Mid(n: nat, occupied: nat, waitGroup: int, pubs: map<nat, Publisher>, x: Delivery): State {
    State(occupied, waitGroup, pubs, AfterRounds(n).deliveries[n := x])
  }

  ghost function AfterRounds(n: nat): State {
    State(n, 0, map[], map d: nat | d < n :: Delivery(d, Gone(true), 2))
  }

  lemma RoundsGrow(n: nat)
    ensures AfterRounds(n).deliveries[n := Delivery(n, Gone(true), 2)] == AfterRounds(n + 1).deliveries
  {
  }

  lemma Overwrite<V>(m: map<nat, V>, d: nat, x: V, y: V)
    ensures m[d := x][d := y] == m[d := y]
  {
  }

  /** Publish, acquire, spawn, and the publisher returns. */
  lemma RoundStarts(s: State, n: nat)
    requires n < POOL_SIZE && Leads(s, AfterRounds(n))
    ensures Leads(s, Mid(n, n + 1, 1, map[], Delivery(n, First, 1)))
  {
    var m := AfterRounds(n).deliveries;
    var p0, p1, p2 := Publisher(false, [true], false), Publisher(false, [true], true), Publisher(false, [], false);
    var s1 := AfterRounds(n).(publishers := map[n := p0]);
    LeadsThen(s, AfterRounds(n), Begin(n, false, [true]));
    assert map[][n := p0] == map[n := p0];
    assert map[n := p0][n := p1] == map[n := p1];
    LeadsThen(s, s1, Acquire(n, n));
    var s2 := Mid(n, n + 1, 0, map[n := p1], Delivery(n, Acquired, 0));
    assert map[n := p1][n := p2] == map[n := p2] && [true][1..] == [];
    Overwrite(m, n, Delivery(n, Acquired, 0), Delivery(n, First, 1));
    LeadsThen(s, s2, Spawn(n));
    assert map[n := p2] - {n} == map[];
    LeadsThen(s, Mid(n, n + 1, 1, map[n := p2], Delivery(n, First, 1)), End(n));
  }

  /** The handler fails, sleeps, asks for a slot again. */
  lemma RoundFails(s: State, n: nat)
    requires n < POOL_SIZE && Leads(s, Mid(n, n + 1, 1, map[], Delivery(n, First, 1)))
    ensures Leads(s, Mid(n, n, 1, map[], Delivery(n, Waiting, 1)))
  {
    var m := AfterRounds(n).deliveries;
    Overwrite(m, n, Delivery(n, First, 1), Delivery(n, Backoff, 1));
    LeadsThen(s, Mid(n, n + 1, 1, map[], Delivery(n, First, 1)), FirstFails(n));
    Overwrite(m, n, Delivery(n, Backoff, 1), Delivery(n, Waiting, 1));
    LeadsThen(s, Mid(n, n, 1, map[], Delivery(n, Backoff, 1)), TimerFires(n));
  }

  /** The retry takes a slot and ends without giving it back. */
  lemma RoundRetries(s: State, n: nat)
    requires n < POOL_SIZE && Leads(s, Mid(n, n, 1, map[], Delivery(n, Waiting, 1)))
    ensures Leads(s, Mid(n, n + 1, 1, map[], Delivery(n, Exiting(true), 2)))
  {
    var m := AfterRounds(n).deliveries;
    Overwrite(m, n, Delivery(n, Waiting, 1), Delivery(n, Retrying, 2));
    LeadsThen(s, Mid(n, n, 1, map[], Delivery(n, Waiting, 1)), Reacquire(n));
    Overwrite(m, n, Delivery(n, Retrying, 2), Delivery(n, Exiting(true), 2));
    LeadsThen(s, Mid(n, n + 1, 1, map[], Delivery(n, Retrying, 2)), RetryEnds(n));
  }

  lemma RoundEnds(s: State, n: nat)
    requires Leads(s, Mid(n, n + 1, 1, map[], Delivery(n, Exiting(true), 2)))
    ensures Leads(s, AfterRounds(n + 1))
  {
    var m := AfterRounds(n).deliveries;
    Overwrite(m, n, Delivery(n, Exiting(true), 2), Delivery(n, Gone(true), 2));
    RoundsGrow(n);
    LeadsThen(s, Mid(n, n + 1, 1, map[], Delivery(n, Exiting(true), 2)), Done(n));
  }

  /** Each delivery that needs its retry costs one slot for good, so 64 of them, one after the other and with
      nothing else going on, end in a pool with no slot left and no goroutine alive. */
  lemma {:induction false} PoolDiesAfterRetries(n: nat)
    requires n <= POOL_SIZE
    ensures Leads(Start, AfterRounds(n))
  {
    if n == 0 {
      assert AfterRounds(0) == Start;
      assert Run(Start, []) == Some(Start);
    } else {
      PoolDiesAfterRetries(n - 1);
      RoundStarts(Start, n - 1);
      RoundFails(Start, n - 1);
      RoundRetries(Start, n - 1);
      RoundEnds(Start, n - 1);
    }
  }

  lemma {:induction false} AllSlotsLeaked(n: nat)
    ensures |Leaked(AfterRounds(n))| == n && InUse(AfterRounds(n)) == {} && Goroutines(AfterRounds(n)) == {}
  {
    if n == 0 {
      assert Leaked(AfterRounds(0)) == {};
    } else {
      AllSlotsLeaked(n - 1);
      assert Leaked(AfterRounds(n)) == Leaked(AfterRounds(n - 1)) + {n - 1};
    }
  }

  // ---- Drain ----

  /** A publisher holding a slot has an unstarted delivery of its own. */
  ghost predicate SlotsHeld(pubs: map<nat, Publisher>, m: map<nat, Delivery>) {
    forall p :: p in pubs && pubs[p].pending ==> HoldsFor(m, p)
  }

  ghost predicate HoldsFor(m: map<nat, Delivery>, p: nat) { exists d :: d in m && m[d].phase.Acquired? && m[d].owner == p }

  lemma SlotsHeldStep(s: State, a: Action)
    requires Inv(s) && SlotsHeld(s.publishers, s.deliveries) && Step(s, a).Some?
    ensures SlotsHeld(Step(s, a).value.publishers, Step(s, a).value.deliveries)
  {
    var t := Step(s, a).value;
    forall p | p in t.publishers && t.publishers[p].pending ensures HoldsFor(t.deliveries, p) {
      if a.Acquire? && a.p == p {
        assert t.deliveries[a.d] == Delivery(p, Acquired, 0);
      } else {
        assert p in s.publishers && s.publishers[p].pending;
        var d :| d in s.deliveries && s.deliveries[d].phase.Acquired? && s.deliveries[d].owner == p;
        assert t.deliveries[d] == s.deliveries[d];
      }
    }
  }

  lemma {:induction false} SlotsHeldOverRuns(run: seq<Action>)
    requires Run(Start, run).Some?
    ensures SlotsHeld(Run(Start, run).value.publishers, Run(Start, run).value.deliveries)
  {
    if run != [] {
      var front := run[..|run| - 1];
      SlotsHeldOverRuns(front);
      StartInv();
      InvOverRuns(Start, front);
      SlotsHeldStep(Run(Start, front).value, run[|run| - 1]);
    }
  }

  /** When the wait group is at zero (so `Drain` returns), no `PublishAsync` and no handler goroutine is left; a slot
      held for an unstarted delivery then belongs to a direct `Publish`, and every delivery is over if and only if no
      publisher holds a slot. */
  lemma DrainLaw(run: seq<Action>)
    requires Run(Start, run).Some?
    ensures var s := Run(Start, run).value;
            && (s.waitGroup == 0 <==> TrackedPublishers(s) == {} && Goroutines(s) == {})
            && (s.waitGroup == 0 ==> forall d :: d in s.deliveries ==> s.deliveries[d].phase.Gone? || HeldByDirect(s, d))
            && (s.waitGroup == 0 ==>
                  ((forall d :: d in s.deliveries ==> s.deliveries[d].phase.Gone?)
                   <==> forall p :: p in s.publishers ==> !s.publishers[p].pending))
  {
    StartInv();
    InvOverRuns(Start, run);
    SlotsHeldOverRuns(run);
    var s := Run(Start, run).value;
    if s.waitGroup == 0 {
      forall d | d in s.deliveries && !s.deliveries[d].phase.Gone? ensures HeldByDirect(s, d) {
        assert d !in Goroutines(s);
        assert s.deliveries[d].owner !in TrackedPublishers(s);
      }
      forall p | p in s.publishers && s.publishers[p].pending ensures exists d :: d in s.deliveries && !s.deliveries[d].phase.Gone? {
        assert HoldsFor(s.deliveries, p);
      }
    }
  }

  /** The delivery is not started yet, and a direct `Publish` holds its slot. */
  predicate HeldByDirect(s: State, d: nat)
    requires d in s.deliveries
  {
    var x := s.deliveries[d];
    x.phase.Acquired? && x.owner in s.publishers && s.publishers[x.owner].pending && !s.publishers[x.owner].tracked
  }

  /** A direct `Publish` can hold a slot, about to start a handler, while `Drain` already returns. */
  lemma DrainMissesDirectPublish()
    ensures exists s :: Leads(Start, s) && s.waitGroup == 0 && At(s, 0, Acquired) && Step(s, Spawn(0)).Some?
  {
    var s1 := Step(Start, Begin(0, false, [true])).value;
    var s2 := Step(s1, Acquire(0, 0)).value;
    assert Run(Start, []) == Some(Start);
    LeadsThen(Start, Start, Begin(0, false, [true]));
    LeadsThen(Start, s1, Acquire(0, 0));
    assert Step(s2, Spawn(0)).Some?;
  }
}
