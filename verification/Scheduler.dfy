/** The cron scheduler's lifecycle: start, tick, run and stop, as a state machine over its critical sections. */
module Scheduler {
  import opened Options
  import opened Schedule

  /** A `CronJob` object. `slots` lists the scheduled instants it was dispatched for since it was last added;
      `runner` is the run that set `running`. */
  datatype Job = Job(schedule: string, running: bool, nextRun: int, lastRun: Option<int>, slots: seq<int>, runner: nat)

  /** A `runJob` goroutine: in (or about to enter) its handler, or past its final critical section. */
  datatype Run = Run(obj: nat, handling: bool)

  datatype State = State(
    jobs: map<string, nat>,        // registered IDs and the object each names
    objs: map<nat, Job>,
    runs: map<nat, Run>,
    loopAlive: bool,
    started: bool,
    stopped: bool,
    stoppers: map<nat, bool>,      // calls of Stop: waiting (false) or returned (true)
    waitGroup: int,
    clock: int)

  const Initial := State(map[], map[], map[], false, false, false, map[], 0, 0)

  /** A tick dispatches its due jobs one `Dispatch` at a time, all at the tick's clock reading. */
  datatype Action =
    | Add(id: string, o: nat, schedule: string, now: int)
    | Remove(id: string)
    | Start
    | Dispatch(id: string, r: nat, now: int)
    | Finish(r: nat, now: int, later: int)
    | RunDone(r: nat)
    | LoopExit
    | StopCall(k: nat)
    | StopReturn(k: nat)

  function Step(e: Env, s: State, a: Action): Option<State> {
    match a
    case Add(id, o, schedule, now) =>
      if now < s.clock then None
      else
        var job := if o in s.objs then s.objs[o].(nextRun := CalcNextRun(e, s.objs[o].schedule, now), slots := [])
                   else Job(schedule, false, CalcNextRun(e, schedule, now), None, [], 0);
        Some(s.(jobs := s.jobs[id := o], objs := s.objs[o := job], clock := now))
    case Remove(id) => Some(s.(jobs := s.jobs - {id}))
    case Start =>
      if s.started || s.stopped then Some(s)
      else Some(s.(started := true, loopAlive := true, waitGroup := s.waitGroup + 1))
    case Dispatch(id, r, now) =>
      if s.stopped || id !in s.jobs || s.jobs[id] !in s.objs || r in s.runs || now < s.clock then None
      else
        var o := s.jobs[id];
        var job := s.objs[o];
        if job.running || now < job.nextRun then None
        else Some(s.(objs := s.objs[o := job.(running := true, slots := job.slots + [job.nextRun], runner := r)],
                     runs := s.runs[r := Run(o, true)], waitGroup := s.waitGroup + 1, clock := now))
    case Finish(r, now, later) =>
      if r !in s.runs || !s.runs[r].handling || s.runs[r].obj !in s.objs || now < s.clock || later < now then None
      else
        var job := s.objs[s.runs[r].obj];
        Some(s.(objs := s.objs[s.runs[r].obj := job.(running := false, lastRun := Some(now), nextRun := CalcNextRun(e, job.schedule, later))],
                runs := s.runs[r := s.runs[r].(handling := false)], clock := later))
    case RunDone(r) =>
      if r !in s.runs || s.runs[r].handling then None
      else Some(s.(runs := s.runs - {r}, waitGroup := s.waitGroup - 1))
    case LoopExit =>
      if !s.loopAlive || !s.stopped then None else Some(s.(loopAlive := false, waitGroup := s.waitGroup - 1))
    case StopCall(k) =>
      if k in s.stoppers then None else Some(s.(stopped := true, stoppers := s.stoppers[k := false]))
    case StopReturn(k) =>
      if k !in s.stoppers || s.stoppers[k] || s.waitGroup != 0 then None else Some(s.(stoppers := s.stoppers[k := true]))
  }

  function RunAll(e: Env, s: State, run: seq<Action>): Option<State> {
    if run == [] then Some(s)
    else
      var before := RunAll(e, s, run[..|run| - 1]);
      if before.None? then None else Step(e, before.value, run[|run| - 1])
  }

  // ---- Invariants ----

  function One(b: bool): nat { if b then 1 else 0 }

  /** The Running flag of an object is set exactly while its runner is in the handler. */
  ghost predicate FlagsMatchRuns(objs: map<nat, Job>, runs: map<nat, Run>) {
    && (forall r :: r in runs && runs[r].handling ==> runs[r].obj in objs && objs[runs[r].obj].running && objs[runs[r].obj].runner == r)
    && (forall o :: o in objs && objs[o].running ==> objs[o].runner in runs && runs[objs[o].runner] == Run(o, true))
  }

  ghost predicate AnyReturned(stoppers: map<nat, bool>) { exists k :: k in stoppers && stoppers[k] }

  ghost predicate StopReturned(s: State) { AnyReturned(s.stoppers) }

  ghost predicate Inv(s: State) {
    && s.waitGroup == |s.runs.Keys| + One(s.loopAlive)
    && FlagsMatchRuns(s.objs, s.runs)
    && (s.loopAlive ==> s.started)
    && (s.stoppers != map[] ==> s.stopped)
    && (StopReturned(s) ==> s.runs == map[] && !s.loopAlive)
  }

  lemma FlagsUpdate(objs: map<nat, Job>, runs: map<nat, Run>, o: nat, job: Job)
    requires FlagsMatchRuns(objs, runs)
    requires if o in objs then job.running == objs[o].running && job.runner == objs[o].runner else !job.running
    ensures FlagsMatchRuns(objs[o := job], runs)
  {
  }

  lemma FlagsDispatch(objs: map<nat, Job>, runs: map<nat, Run>, o: nat, job: Job, r: nat)
    requires FlagsMatchRuns(objs, runs) && o in objs && !objs[o].running && r !in runs && job.running && job.runner == r
    ensures FlagsMatchRuns(objs[o := job], runs[r := Run(o, true)])
  {
  }

  lemma FlagsFinish(objs: map<nat, Job>, runs: map<nat, Run>, r: nat, job: Job)
    requires FlagsMatchRuns(objs, runs) && r in runs && runs[r].handling && !job.running
    ensures FlagsMatchRuns(objs[runs[r].obj := job], runs[r := Run(runs[r].obj, false)])
  {
  }

  lemma DispatchKeepsInv(e: Env, s: State, id: string, r: nat, now: int)
    requires Inv(s) && Step(e, s, Dispatch(id, r, now)).Some?
    ensures Inv(Step(e, s, Dispatch(id, r, now)).value)
  {
    var t := Step(e, s, Dispatch(id, r, now)).value;
    FlagsDispatch(s.objs, s.runs, s.jobs[id], t.objs[s.jobs[id]], r);
    assert t.runs.Keys == s.runs.Keys + {r};
    assert s.stoppers == map[];
  }

  lemma FinishKeepsInv(e: Env, s: State, r: nat, now: int, later: int)
    requires Inv(s) && Step(e, s, Finish(r, now, later)).Some?
    ensures Inv(Step(e, s, Finish(r, now, later)).value)
  {
    var t := Step(e, s, Finish(r, now, later)).value;
    FlagsFinish(s.objs, s.runs, r, t.objs[s.runs[r].obj]);
    assert t.runs.Keys == s.runs.Keys;
  }

  lemma RunDoneKeepsInv(e: Env, s: State, r: nat)
    requires Inv(s) && Step(e, s, RunDone(r)).Some?
    ensures Inv(Step(e, s, RunDone(r)).value)
  {
    assert (s.runs - {r}).Keys == s.runs.Keys - {r};
  }

  lemma ReturnedGrows(stoppers: map<nat, bool>, k: nat)
    requires k !in stoppers
    ensures AnyReturned(stoppers[k := false]) <==> AnyReturned(stoppers)
  {
    if AnyReturned(stoppers) {
      var j :| j in stoppers && stoppers[j];
      assert stoppers[k := false][j];
    }
  }

  lemma StepKeepsInv(e: Env, s: State, a: Action)
    requires Inv(s) && Step(e, s, a).Some?
    ensures Inv(Step(e, s, a).value)
  {
    match a {
      case Dispatch(id, r, now) => DispatchKeepsInv(e, s, id, r, now);
      case Finish(r, now, later) => FinishKeepsInv(e, s, r, now, later);
      case RunDone(r) => RunDoneKeepsInv(e, s, r);
      case Add(id, o, schedule, now) => FlagsUpdate(s.objs, s.runs, o, Step(e, s, a).value.objs[o]);
      case StopCall(k) => ReturnedGrows(s.stoppers, k);
      case StopReturn(k) => assert s.runs.Keys == {};
      case _ =>
    }
  }

  lemma {:induction false} InvOverRuns(e: Env, s: State, run: seq<Action>)
    requires Inv(s) && RunAll(e, s, run).Some?
    ensures Inv(RunAll(e, s, run).value)
  {
    if run != [] {
      InvOverRuns(e, s, run[..|run| - 1]);
      StepKeepsInv(e, RunAll(e, s, run[..|run| - 1]).value, run[|run| - 1]);
    }
  }

  // ---- What every run keeps ----

  /** The wait group counts the live loop and the live runs; an object's Running flag is set exactly while a run of
      that object is in progress; and two such runs never overlap. */
  lemma RunsNeverOverlap(e: Env, run: seq<Action>)
    requires RunAll(e, Initial, run).Some?
    ensures var s := RunAll(e, Initial, run).value;
            && s.waitGroup == |s.runs.Keys| + One(s.loopAlive)
            && (forall o :: o in s.objs ==> (s.objs[o].running <==> exists r :: r in s.runs && s.runs[r] == Run(o, true)))
            && (forall r, q :: r in s.runs && q in s.runs && s.runs[r].handling && s.runs[q].handling && s.runs[r].obj == s.runs[q].obj ==> r == q)
  {
    InvOverRuns(e, Initial, run);
  }

  /** Once a Stop has returned, no loop and no run is alive, now and after any further steps, and none can start. */
  lemma NothingAfterStop(e: Env, run: seq<Action>, more: seq<Action>)
    requires RunAll(e, Initial, run).Some? && StopReturned(RunAll(e, Initial, run).value)
    requires RunAll(e, RunAll(e, Initial, run).value, more).Some?
    ensures var t := RunAll(e, RunAll(e, Initial, run).value, more).value;
            t.runs == map[] && !t.loopAlive && t.waitGroup == 0 && forall id, r, now :: Step(e, t, Dispatch(id, r, now)).None?
  {
    var s := RunAll(e, Initial, run).value;
    InvOverRuns(e, Initial, run);
    InvOverRuns(e, s, more);
    ReturnedStays(e, s, more);
  }

  lemma ReturnedStaysOneStep(e: Env, s: State, a: Action)
    requires StopReturned(s) && Step(e, s, a).Some?
    ensures StopReturned(Step(e, s, a).value)
  {
    if a.StopCall? {
      ReturnedGrows(s.stoppers, a.k);
    } else if a.StopReturn? {
      assert Step(e, s, a).value.stoppers[a.k];
    }
  }

  lemma {:induction false} ReturnedStays(e: Env, s: State, more: seq<Action>)
    requires StopReturned(s) && RunAll(e, s, more).Some?
    ensures StopReturned(RunAll(e, s, more).value)
  {
    if more != [] {
      ReturnedStays(e, s, more[..|more| - 1]);
      ReturnedStaysOneStep(e, RunAll(e, s, more[..|more| - 1]).value, more[|more| - 1]);
    }
  }

  // ---- When a job is dispatched ----

  /** The object an ID names, by the last `Add` or `Remove` of the run. */
  function Registered(run: seq<Action>, id: string): Option<nat> {
    if run == [] then None
    else
      var a := run[|run| - 1];
      if a.Add? && a.id == id then Some(a.o) else if a.Remove? && a.id == id then None else Registered(run[..|run| - 1], id)
  }

  /** The schedule an object was first added with. */
  function ScheduleOf(run: seq<Action>, o: nat): Option<string> {
    if run == [] then None
    else
      var front, a := ScheduleOf(run[..|run| - 1], o), run[|run| - 1];
      if front.None? && a.Add? && a.o == o then Some(a.schedule) else front
  }

  /** The object dispatched under a run's number. */
  function ObjectOf(run: seq<Action>, r: nat): Option<nat> {
    if run == [] then None
    else
      var front, a := run[..|run| - 1], run[|run| - 1];
      if a.Dispatch? && a.r == r then Registered(front, a.id) else ObjectOf(front, r)
  }

  /** When the object was last added, or a run of it last ended: its next run is computed from there. */
  function LastSet(run: seq<Action>, o: nat): Option<int> {
    if run == [] then None
    else
      var front, a := run[..|run| - 1], run[|run| - 1];
      if a.Add? && a.o == o then Some(a.now)
      else if a.Finish? && ObjectOf(front, a.r) == Some(o) then Some(a.later)
      else LastSet(front, o)
  }

  predicate StopWasCalled(run: seq<Action>) { run != [] && (run[|run| - 1].StopCall? || StopWasCalled(run[..|run| - 1])) }

  /** Some `Start` came before any `Stop`. */
  predicate WasStarted(run: seq<Action>) {
    run != [] && (WasStarted(run[..|run| - 1]) || (run[|run| - 1].Start? && !StopWasCalled(run[..|run| - 1])))
  }

  lemma LoopStep(e: Env, s: State, a: Action)
    requires (s.loopAlive ==> s.started) && Step(e, s, a).Some?
    ensures var t := Step(e, s, a).value;
            && (t.stopped <==> s.stopped || a.StopCall?)
            && (t.started <==> s.started || (a.Start? && !s.stopped))
            && (t.loopAlive <==> (s.loopAlive || (a.Start? && !s.stopped && !s.started)) && !a.LoopExit?)
            && (a.LoopExit? ==> s.stopped && s.started)
  {
  }

  /** What the steps say about the loop and the stop flag. */
  ghost predicate LoopFits(run: seq<Action>, s: State) {
    && (s.stopped <==> StopWasCalled(run))
    && (s.started <==> WasStarted(run))
    && (s.loopAlive <==> WasStarted(run) && LoopExit !in run)
    && (LoopExit in run ==> StopWasCalled(run) && WasStarted(run))
  }

  lemma LoopFitsNext(front: seq<Action>, s: State, a: Action, t: State)
    requires LoopFits(front, s)
    requires (t.stopped <==> s.stopped || a.StopCall?) && (t.started <==> s.started || (a.Start? && !s.stopped))
    requires t.loopAlive <==> (s.loopAlive || (a.Start? && !s.stopped && !s.started)) && !a.LoopExit?
    requires a.LoopExit? ==> s.stopped && s.started
    ensures LoopFits(front + [a], t)
  {
    var run := front + [a];
    assert run[..|run| - 1] == front && run[|run| - 1] == a;
    assert LoopExit in run <==> LoopExit in front || a == LoopExit;
  }

  /** The loop lives from the first Start, if no Stop came before, until it exits, which it does only after a Stop; it starts
      once. */
  lemma {:induction false} LoopLaw(e: Env, run: seq<Action>, s: State)
    requires RunAll(e, Initial, run) == Some(s)
    ensures LoopFits(run, s)
  {
    if run != [] {
      var front, a := run[..|run| - 1], run[|run| - 1];
      var m := RunAll(e, Initial, front).value;
      LoopLaw(e, front, m);
      LoopStep(e, m, a);
      LoopFitsNext(front, m, a, s);
      assert run == front + [a];
    }
  }

  function Lookup<K, V>(m: map<K, V>, k: K): Option<V> { if k in m then Some(m[k]) else None }

  lemma JobsStep(e: Env, s: State, a: Action, id: string)
    requires Step(e, s, a).Some? && (id in s.jobs ==> s.jobs[id] in s.objs)
    ensures var t := Step(e, s, a).value;
            && Lookup(t.jobs, id) == (if a.Add? && a.id == id then Some(a.o) else if a.Remove? && a.id == id then None else Lookup(s.jobs, id))
            && (id in t.jobs ==> t.jobs[id] in t.objs)
            && (t.stopped <==> s.stopped || a.StopCall?)
  {
  }

  lemma RunsStep(e: Env, s: State, a: Action, r: nat)
    requires Step(e, s, a).Some?
    ensures var t := Step(e, s, a).value;
            r in t.runs ==> if a.Dispatch? && a.r == r then Lookup(s.jobs, a.id) == Some(t.runs[r].obj) else r in s.runs && t.runs[r].obj == s.runs[r].obj
  {
  }

  /** The registered jobs and the stop flag are what the steps say. */
  lemma {:induction false} JobsFollowActions(e: Env, run: seq<Action>, s: State, id: string)
    requires RunAll(e, Initial, run) == Some(s)
    ensures Registered(run, id) == Lookup(s.jobs, id) && (id in s.jobs ==> s.jobs[id] in s.objs)
    ensures s.stopped <==> StopWasCalled(run)
  {
    if run != [] {
      var m := RunAll(e, Initial, run[..|run| - 1]).value;
      JobsFollowActions(e, run[..|run| - 1], m, id);
      JobsStep(e, m, run[|run| - 1], id);
    }
  }

  lemma {:induction false} RunsFollowActions(e: Env, run: seq<Action>, s: State, r: nat)
    requires RunAll(e, Initial, run) == Some(s) && r in s.runs
    ensures ObjectOf(run, r) == Some(s.runs[r].obj)
  {
    if run != [] {
      var front, a := run[..|run| - 1], run[|run| - 1];
      var m := RunAll(e, Initial, front).value;
      RunsStep(e, m, a, r);
      if a.Dispatch? && a.r == r { JobsFollowActions(e, front, m, a.id); } else { RunsFollowActions(e, front, m, r); }
    }
  }

  /** An object's next run is computed from its schedule and the time it was last added or finished. */
  ghost predicate NextRunFits(e: Env, s: State, o: nat, schedule: Option<string>, since: Option<int>) {
    if o in s.objs
    then schedule == Some(s.objs[o].schedule) && since.Some? && s.objs[o].nextRun == CalcNextRun(e, s.objs[o].schedule, since.value)
    else schedule == None
  }

  lemma NextRunStep(e: Env, s: State, a: Action, o: nat, schedule: Option<string>, since: Option<int>)
    requires NextRunFits(e, s, o, schedule, since) && Step(e, s, a).Some?
    ensures NextRunFits(e, Step(e, s, a).value, o,
                        if schedule.None? && a.Add? && a.o == o then Some(a.schedule) else schedule,
                        if a.Add? && a.o == o then Some(a.now)
                        else if a.Finish? && s.runs[a.r].obj == o then Some(a.later) else since)
  {
  }

  lemma {:induction false} NextRunLaw(e: Env, run: seq<Action>, s: State, o: nat)
    requires RunAll(e, Initial, run) == Some(s)
    ensures NextRunFits(e, s, o, ScheduleOf(run, o), LastSet(run, o))
  {
    if run != [] {
      var front, a := run[..|run| - 1], run[|run| - 1];
      var m := RunAll(e, Initial, front).value;
      NextRunLaw(e, front, m, o);
      NextRunStep(e, m, a, o, ScheduleOf(front, o), LastSet(front, o));
      if a.Finish? { RunsFollowActions(e, front, m, a.r); }
    }
  }

  lemma DispatchNeeds(e: Env, s: State, id: string, r: nat, now: int)
    requires Inv(s) && r !in s.runs && s.clock <= now && (id in s.jobs ==> s.jobs[id] in s.objs)
    ensures Step(e, s, Dispatch(id, r, now)).Some? <==>
              !s.stopped && id in s.jobs && s.objs[s.jobs[id]].nextRun <= now && forall q :: q in s.runs ==> s.runs[q] != Run(s.jobs[id], true)
  {
  }

  /** Exactly when a tick dispatches a job, by the steps taken so far: no Stop was called, the ID is registered and was not
      removed since, no run of its object is in its handler, and the time computed when the object was last added or
      finished has come. */
  lemma DispatchLaw(e: Env, run: seq<Action>, s: State, id: string, r: nat, now: int)
    requires RunAll(e, Initial, run) == Some(s) && r !in s.runs && s.clock <= now
    ensures Step(e, s, Dispatch(id, r, now)).Some? <==>
              && !StopWasCalled(run) && Registered(run, id).Some?
              && (var o := Registered(run, id).value;
                  && (forall q :: q in s.runs ==> s.runs[q] != Run(o, true))
                  && ScheduleOf(run, o).Some? && LastSet(run, o).Some?
                  && CalcNextRun(e, ScheduleOf(run, o).value, LastSet(run, o).value) <= now)
  {
    JobsFollowActions(e, run, s, id);
    if id in s.jobs { NextRunLaw(e, run, s, s.jobs[id]); }
    InvOverRuns(e, Initial, run);
    DispatchNeeds(e, s, id, r, now);
  }

  /** A removed job is not dispatched until it is added again. */
  lemma {:induction false} RemovedStaysOut(e: Env, run: seq<Action>, id: string, more: seq<Action>, t: State, r: nat, now: int)
    requires RunAll(e, Initial, run + [Remove(id)] + more) == Some(t)
    requires forall i :: 0 <= i < |more| ==> !(more[i].Add? && more[i].id == id)
    ensures Step(e, t, Dispatch(id, r, now)).None?
  {
    JobsFollowActions(e, run + [Remove(id)] + more, t, id);
    RemovedIsUnregistered(run + [Remove(id)], id, more);
  }

  lemma {:induction false} RemovedIsUnregistered(run: seq<Action>, id: string, more: seq<Action>)
    requires run != [] && run[|run| - 1] == Remove(id) && forall i :: 0 <= i < |more| ==> !(more[i].Add? && more[i].id == id)
    ensures Registered(run + more, id) == None
  {
    if more == [] {
      assert run + more == run;
    } else {
      RemovedIsUnregistered(run, id, more[..|more| - 1]);
      assert (run + more)[..|run + more| - 1] == run + more[..|more| - 1];
    }
  }

  // ---- Daily jobs ----

  /** The dispatches of a daily job since it was added used scheduled instants at least a day apart; while it runs the
      clock is past the last one, and when it is idle its next instant lies a day or more after it and after its last run. */
  ghost predicate Spaced(e: Env, job: Job, clock: int) {
    forall total :: IsDaily(job.schedule, total) ==>
      && TimeOfDay(e, job.nextRun) == total * MINUTE
      && (forall i :: 0 <= i < |job.slots| ==> TimeOfDay(e, job.slots[i]) == total * MINUTE)
      && (forall i :: 0 < i < |job.slots| ==> job.slots[i] - job.slots[i - 1] >= DAY)
      && (job.slots != [] ==> job.slots[|job.slots| - 1] <= clock)
      && (job.slots != [] && !job.running ==>
            job.nextRun - job.slots[|job.slots| - 1] >= DAY && job.lastRun.Some? && job.lastRun.value < job.nextRun)
  }

  ghost predicate SpacingInv(e: Env, s: State) {
    forall o :: o in s.objs ==> Spaced(e, s.objs[o], s.clock)
  }

  lemma SpacedLater(e: Env, job: Job, clock: int, later: int)
    requires Spaced(e, job, clock) && clock <= later
    ensures Spaced(e, job, later)
  {
  }

  lemma SpacedAdd(e: Env, job: Job, now: int)
    requires job.slots == [] && job.nextRun == CalcNextRun(e, job.schedule, now)
    ensures Spaced(e, job, now)
  {
    forall total | IsDaily(job.schedule, total) ensures TimeOfDay(e, job.nextRun) == total * MINUTE {
      DailyNextIsLeast(e, job.schedule, total, now);
    }
  }

  lemma SpacedDispatch(e: Env, job: Job, clock: int, now: int, r: nat)
    requires Spaced(e, job, clock) && !job.running && clock <= now && job.nextRun <= now
    ensures Spaced(e, job.(running := true, slots := job.slots + [job.nextRun], runner := r), now)
  {
  }

  lemma SpacedFinish(e: Env, job: Job, clock: int, now: int, later: int)
    requires Spaced(e, job, clock) && clock <= now <= later
    ensures Spaced(e, job.(running := false, lastRun := Some(now), nextRun := CalcNextRun(e, job.schedule, later)), later)
  {
    forall total | IsDaily(job.schedule, total)
      ensures var n := CalcNextRun(e, job.schedule, later);
              TimeOfDay(e, n) == total * MINUTE && now < n && (job.slots != [] ==> n - job.slots[|job.slots| - 1] >= DAY)
    {
      DailyNextIsLeast(e, job.schedule, total, later);
      if job.slots != [] {
        SameDayShift(job.slots[|job.slots| - 1] + e.offset, CalcNextRun(e, job.schedule, later) + e.offset);
      }
    }
  }

  lemma StepKeepsSpacing(e: Env, s: State, a: Action)
    requires SpacingInv(e, s) && Step(e, s, a).Some?
    ensures SpacingInv(e, Step(e, s, a).value)
  {
    var t := Step(e, s, a).value;
    forall o | o in t.objs ensures Spaced(e, t.objs[o], t.clock) {
      if o in s.objs && t.objs[o] == s.objs[o] {
        SpacedLater(e, s.objs[o], s.clock, t.clock);
      } else {
        match a {
          case Add(id, o', schedule, now) => SpacedAdd(e, t.objs[o], now);
          case Dispatch(id, r, now) => SpacedDispatch(e, s.objs[o], s.clock, now, r);
          case Finish(r, now, later) => SpacedFinish(e, s.objs[o], s.clock, now, later);
        }
      }
    }
  }

  lemma {:induction false} SpacingOverRuns(e: Env, run: seq<Action>)
    requires RunAll(e, Initial, run).Some?
    ensures SpacingInv(e, RunAll(e, Initial, run).value)
  {
    if run != [] {
      SpacingOverRuns(e, run[..|run| - 1]);
      StepKeepsSpacing(e, RunAll(e, Initial, run[..|run| - 1]).value, run[|run| - 1]);
    }
  }

  /** Between a daily job's runs lies one of its scheduled instants: after the end of the run before,
      at or before the next dispatch, and at least a day after the instant used before. */
  lemma DispatchAfterSlot(e: Env, run: seq<Action>, s: State, id: string, r: nat, now: int, total: int)
    requires RunAll(e, Initial, run) == Some(s) && Step(e, s, Dispatch(id, r, now)).Some?
    requires IsDaily(s.objs[s.jobs[id]].schedule, total) && s.objs[s.jobs[id]].slots != []
    ensures var job := s.objs[s.jobs[id]];
            && job.lastRun.Some? && job.lastRun.value < job.nextRun <= now
            && TimeOfDay(e, job.nextRun) == total * MINUTE && job.nextRun - job.slots[|job.slots| - 1] >= DAY
  {
    SpacingOverRuns(e, run);
    SpacedWhenIdle(e, s.objs[s.jobs[id]], s.clock, total);
  }

  lemma SpacedWhenIdle(e: Env, job: Job, clock: int, total: int)
    requires Spaced(e, job, clock) && IsDaily(job.schedule, total) && job.slots != [] && !job.running
    ensures job.lastRun.Some? && job.lastRun.value < job.nextRun
    ensures TimeOfDay(e, job.nextRun) == total * MINUTE && job.nextRun - job.slots[|job.slots| - 1] >= DAY
  {
  }

  /** After `n` dispatches of a daily job since it was added, the last used an instant `n - 1` days or more
      after the first, and that instant has passed: no slot is ever used twice. */
  lemma DailySpacing(e: Env, run: seq<Action>, o: nat, total: int)
    requires RunAll(e, Initial, run).Some? && o in RunAll(e, Initial, run).value.objs
    requires IsDaily(RunAll(e, Initial, run).value.objs[o].schedule, total)
    ensures var s := RunAll(e, Initial, run).value; var slots := s.objs[o].slots;
            slots != [] ==> slots[|slots| - 1] - slots[0] >= (|slots| - 1) * DAY && slots[|slots| - 1] <= s.clock
  {
    SpacingOverRuns(e, run);
    var s := RunAll(e, Initial, run).value;
    if s.objs[o].slots != [] {
      SlotsSpread(s.objs[o].slots);
    }
  }

  lemma {:induction false} SlotsSpread(slots: seq<int>)
    requires slots != [] && forall i :: 0 < i < |slots| ==> slots[i] - slots[i - 1] >= DAY
    ensures slots[|slots| - 1] - slots[0] >= (|slots| - 1) * DAY
  {
    if |slots| > 1 {
      SlotsSpread(slots[..|slots| - 1]);
    }
  }
}
