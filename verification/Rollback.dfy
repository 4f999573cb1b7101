/** The rollback engine, one rollback from start to end, as an execution of the protocol. */
module Rollback {
  import opened Options
  import opened Deployments
  import opened RollbackProtocol

  datatype CreateResult = Created(id: string) | NotCreated(partial: Option<string>)

  /** What the store, the runtime and the clock answer during one rollback. `listing`: the app's newest rows, if they could be
      listed; `stats(i)`: the answer to the i-th look at the new container. */
  datatype Env = Env(listing: Option<seq<Deployment>>, appOk: bool, latestOk: bool, rowOk: bool, creation: CreateResult,
                     stats: nat -> Stats, updateOk: bool)

  datatype Error = ListFailed | NoSuchVersion | NoImage | NoApp | NoRow | DeployFailed | NotHealthy | NotPersisted

  datatype Result = Done(row: nat) | Error(error: Error)

  /** The first of the ten looks that gets an answer, 10 if none does. */
  function FirstAnswer(stats: nat -> Stats, from: nat): (k: nat)
    requires from <= POLLS
    ensures from <= k <= POLLS
    ensures forall i :: from <= i < k ==> stats(i) == Unknown
    ensures k < POLLS ==> stats(k) != Unknown
    decreases POLLS - from
  {
    if from == POLLS || stats(from) != Unknown then from else FirstAnswer(stats, from + 1)
  }

  /** The verdict on a new container: the first answer says running, or the one look after it, or after ten, does. */
  predicate Healthy(stats: nat -> Stats) {
    var k := FirstAnswer(stats, 0);
    if k < POLLS then stats(k) == Up || stats(k + 1) == Up else stats(POLLS) == Up
  }

  /** The answer comes at look `k`, the first that gets one. */
  predicate AnsweredAt(stats: nat -> Stats, k: nat) { stats(k) != Unknown && forall i :: 0 <= i < k ==> stats(i) == Unknown }

  /** The verdict written out: ten looks at most until the first answer, and one more look unless that answer was good. */
  lemma HealthyLaw(stats: nat -> Stats, k: nat)
    ensures k < 10 && AnsweredAt(stats, k) ==> (Healthy(stats) <==> stats(k) == Up || stats(k + 1) == Up)
    ensures (forall i :: 0 <= i < 10 ==> stats(i) == Unknown) ==> (Healthy(stats) <==> stats(10) == Up)
  {
    var first := FirstAnswer(stats, 0);
    if k < 10 && AnsweredAt(stats, k) { assert first == k; }
  }

  lemma FirstAnswerFrom(stats: nat -> Stats, i: nat)
    requires i < POLLS && FirstAnswer(stats, 0) == FirstAnswer(stats, i) && stats(i) == Unknown
    ensures FirstAnswer(stats, 0) == FirstAnswer(stats, i + 1)
  {
  }

  function WithCall(s: State, c: nat, k: Call): State { s.(calls := s.calls[c := k]) }

  /** The container of `c` has been seen running. */
  function Seen(s: State, c: nat, k: Call): State
    requires k.Verifying?
  {
    WithCall(s.(verified := s.verified[k.id := k.app]), c, Verified(k.app, k.prev, k.row, k.id, 0))
  }

  lemma PollStep(s: State, c: nat, k: Call, stats: Stats)
    requires k.Verifying?
    ensures Step(WithCall(s, c, k), Poll(c, stats)) ==
            Some(WithCall(if stats == Up then s.(verified := s.verified[k.id := k.app]) else s, c, AfterPoll(k, stats)))
  {
    assert s.calls[c := k][c := AfterPoll(k, stats)] == s.calls[c := AfterPoll(k, stats)];
  }

  /** What the closing sequence of the rollback `c`, at `k`, comes to. */
  function Closed(s: State, c: nat, k: Call, ok: bool): State
    requires Closing(k) && k.row < |s.rows|
  {
    var t := s.(calls := s.calls - {c});
    match k
    case CreateFailed(app, row, _, _) =>
      t.(rows := Updated(s.rows, row, "", Failed, ok), touched := s.touched + Named(s.created, ContainerName(app, s.rows[row].version)))
    case Unhealthy(_, row, id, _) => t.(rows := Updated(s.rows, row, id, Failed, ok), touched := s.touched + {id})
    case Verified(_, prev, row, id, _) =>
      t.(rows := Updated(s.rows, row, id, Running, ok), touched := if prev == "" then s.touched else s.touched + {prev})
  }

  lemma CloseStep(s: State, c: nat, k: Call, ok: bool)
    requires Closing(k) && k.row < |s.rows|
    ensures Step(WithCall(s, c, k), Close(c, ok)) == Some(AfterClose(s, c, k, ok))
  {
    var t := WithCall(s, c, k);
    assert t.calls[c := NextStage(k)] == s.calls[c := NextStage(k)] && t.calls - {c} == s.calls - {c};
  }

  lemma ThreeClose(s: State, c: nat, k: Call, ok: bool)
    requires Closing(k) && k.stage == 0 && k.row < |s.rows|
    ensures var a, s0 := Close(c, ok), WithCall(s, c, k);
            && Step(s0, a).Some? && Step(Step(s0, a).value, a).Some?
            && Step(Step(Step(s0, a).value, a).value, a) == Some(Closed(s, c, k, ok))
  {
    CloseStep(s, c, k, ok);
    var k1 := NextStage(k);
    var t1 := AfterClose(s, c, k, ok).(calls := s.calls);
    assert AfterClose(s, c, k, ok) == WithCall(t1, c, k1);
    CloseStep(t1, c, k1, ok);
    var k2 := NextStage(k1);
    var t2 := AfterClose(t1, c, k1, ok).(calls := s.calls);
    assert AfterClose(t1, c, k1, ok) == WithCall(t2, c, k2);
    CloseStep(t2, c, k2, ok);
    assert AfterClose(t2, c, k2, ok).touched == Closed(s, c, k, ok).touched;
  }

  /** The state once a rollback has its row. */
  function Begun(s: State, c: nat, app: string, image: string, latestOk: bool): State {
    WithCall(s.(rows := s.rows + [NewRow(s.rows, app, image)]), c, Allocated(app, if latestOk then LatestContainer(s.rows, app) else "", |s.rows|))
  }

  lemma BeginSteps(s: State, c: nat, app: string, image: string, latestOk: bool)
    requires c !in s.calls
    ensures Step(s, Start(c, app, latestOk)).Some?
    ensures Step(Step(s, Start(c, app, latestOk)).value, Allocate(c, image)) == Some(Begun(s, c, app, image, latestOk))
  {
    var s1 := Step(s, Start(c, app, latestOk)).value;
    var k := Allocated(app, if latestOk then LatestContainer(s.rows, app) else "", |s.rows|);
    assert s1.calls[c := k] == s.calls[c := k];
  }

  /** The listing has rows of the app only, and leaves one out only if it is full of rows at least as new. */
  ghost predicate ListsNewest(listing: seq<Deployment>, rows: seq<Deployment>, app: string, limit: nat) {
    && |listing| <= limit
    && (forall d :: d in listing ==> d in rows && d.app == app)
    && (forall r :: r in rows && r.app == app && r !in listing ==> |listing| == limit && forall d :: d in listing ==> d.version >= r.version)
  }

  const LISTED: nat := 50

  /** The table has the app's version only beyond the rows listed. */
  ghost predicate NotListed(listing: seq<Deployment>, rows: seq<Deployment>, app: string, version: nat) {
    forall d :: d in rows && d.app == app && d.version == version ==>
      |listing| == 50 && forall e :: e in listing ==> e.version >= version
  }

  /** The first listed row with the version. */
  method FindVersion(listing: seq<Deployment>, version: nat, ghost rows: seq<Deployment>, ghost app: string) returns (d: Option<Deployment>)
    requires ListsNewest(listing, rows, app, LISTED)
    ensures d.Some? ==> d.value in rows && d.value.app == app && d.value.version == version
    ensures d.None? ==> NotListed(listing, rows, app, version)
  {
    for i := 0 to |listing|
      invariant forall j :: 0 <= j < i ==> listing[j].version != version
    {
      if listing[i].version == version {
        return Some(listing[i]);
      }
    }
    return None;
  }

  /** The engine, and the database and container runtime it acts on. */
  class RollbackEngine {
    var state: State

    constructor (s: State)
      ensures state == s
    {
      state := s;
    }

    /** Issues one call to the store or the runtime. */
    method Issue(a: Action)
      requires NonEmptyIds(a) && Step(state, a).Some?
      modifies this
      ensures Some(state) == Step(old(state), a) && Leads(old(state), state)
    {
      OneStepLeads(state, a);
      state := Step(state, a).value;
    }

    method Look(c: nat, answer: Stats, ghost start: State, ghost before: State, ghost k: Call)
      requires k.Verifying? && state == WithCall(before, c, k) && Leads(start, state)
      modifies this
      ensures state == WithCall(if answer == Up then before.(verified := before.verified[k.id := k.app]) else before, c, AfterPoll(k, answer))
      ensures Leads(start, state)
    {
      PollStep(before, c, k, answer);
      Issue(Poll(c, answer));
      LeadsThen(start, old(state), state);
    }

    /** Up to ten looks at the new container, ended by the first answer. */
    method LookTenTimes(c: nat, stats: nat -> Stats, ghost start: State, ghost s: State, ghost k: Call) returns (healthy: bool, looks: nat)
      requires k.Verifying? && k.polls == 0 && state == WithCall(s, c, k) && Leads(start, state)
      modifies this
      ensures var first := FirstAnswer(stats, 0);
              (healthy <==> first < POLLS && stats(first) == Up) && looks == if first < POLLS then first + 1 else POLLS
      ensures Leads(start, state)
      ensures state == if healthy then Seen(s, c, k) else WithCall(s, c, Verifying(k.app, k.prev, k.row, k.id, POLLS))
    {
      healthy, looks := false, 0;
      ghost var at := k;
      while looks < POLLS
        invariant looks <= POLLS && !healthy
        invariant at == Verifying(k.app, k.prev, k.row, k.id, looks)
        invariant state == WithCall(s, c, at) && Leads(start, state)
        invariant FirstAnswer(stats, 0) == FirstAnswer(stats, looks)
      {
        var answer := stats(looks);
        Look(c, answer, start, s, at);
        at := AfterPoll(at, answer);
        if answer != Unknown {
          return answer == Up, looks + 1;
        }
        FirstAnswerFrom(stats, looks);
        looks := looks + 1;
      }
    }

    /** Looks at the new container up to ten times and, unless it was seen running, once more. */
    method AwaitRunning(c: nat, stats: nat -> Stats, ghost start: State, ghost s: State, ghost k: Call) returns (healthy: bool)
      requires k.Verifying? && k.polls == 0 && state == WithCall(s, c, k) && Leads(start, state)
      modifies this
      ensures healthy <==> Healthy(stats)
      ensures Leads(start, state)
      ensures state == if healthy then Seen(s, c, k) else WithCall(s, c, Unhealthy(k.app, k.row, k.id, 0))
    {
      var looks;
      healthy, looks := LookTenTimes(c, stats, start, s, k);
      if !healthy {
        var answer := stats(looks);
        Look(c, answer, start, s, Verifying(k.app, k.prev, k.row, k.id, POLLS));
        healthy := answer == Up;
      }
    }

    /** The closing sequence of a rollback, three calls. */
    method CloseAll(c: nat, ok: bool, ghost start: State, ghost s: State, ghost k: Call)
      requires state == WithCall(s, c, k) && Leads(start, state)
      requires Closing(k) && k.stage == 0 && k.row < |s.rows|
      modifies this
      ensures state == Closed(s, c, k, ok) && Leads(start, state)
    {
      ThreeClose(s, c, k, ok);
      Issue(Close(c, ok));
      LeadsThen(start, old(state), state);
      ghost var s1 := state;
      Issue(Close(c, ok));
      LeadsThen(start, s1, state);
      ghost var s2 := state;
      Issue(Close(c, ok));
      LeadsThen(start, s2, state);
    }

    /** Reads the container to replace and allocates the new row. */
    method Begin(c: nat, app: string, image: string, latestOk: bool)
      requires c !in state.calls
      modifies this
      ensures state == Begun(old(state), c, app, image, latestOk) && Leads(old(state), state)
    {
      BeginSteps(state, c, app, image, latestOk);
      Issue(Start(c, app, latestOk));
      ghost var s1 := state;
      Issue(Allocate(c, image));
      LeadsThen(old(state), s1, state);
    }

    /** The row cannot be created. */
    method BeginInVain(c: nat, app: string, latestOk: bool)
      requires c !in state.calls
      modifies this
      ensures state == old(state) && Leads(old(state), state)
    {
      Issue(Start(c, app, latestOk));
      ghost var s1 := state;
      Issue(Abort(c));
      LeadsThen(old(state), s1, state);
      assert s1.calls - {c} == old(state).calls;
    }

    /** The creation fails: record it and clean up by name. Only the partly created container is reached. */
    method FailCreation(c: nat, partial: Option<string>, updateOk: bool, ghost s: State, ghost k: Call)
      requires Reachable(state) && k.Allocated? && state == WithCall(s, c, k)
      requires partial.Some? ==> partial.value != "" && partial.value !in s.created
      modifies this
      ensures Leads(old(state), state) && state.calls == s.calls - {c} && k.row < |s.rows|
      ensures state.rows == Updated(s.rows, k.row, "", Failed, updateOk)
      ensures state.touched == s.touched + if partial.Some? then {partial.value} else {}
    {
      ghost var m := CreateFailed(k.app, k.row, partial, 0);
      RowExists(s, c, k);
      ghost var s1 := CreateErrStep(s, c, k, partial);
      Issue(CreateErr(c, partial));
      ReachableThen(old(state), state);
      CleanupReaches(s1, c, m);
      CloseAll(c, updateOk, old(state), s1, m);
    }

    /** The container is created: verify it, then replace the previous one or clean up. */
    method Replace(c: nat, id: string, stats: nat -> Stats, updateOk: bool, ghost s: State, ghost k: Call) returns (healthy: bool)
      requires Reachable(state) && k.Allocated? && state == WithCall(s, c, k) && id != "" && id !in s.created
      modifies this
      ensures healthy <==> Healthy(stats)
      ensures Leads(old(state), state) && state.calls == s.calls - {c} && k.row < |s.rows|
      ensures state.rows == Updated(s.rows, k.row, id, if healthy then Running else Failed, updateOk)
      ensures state.touched == s.touched + if !healthy then {id} else if k.prev == "" then {} else {k.prev}
      ensures healthy ==> state.verified == s.verified[id := k.app]
    {
      RowExists(s, c, k);
      CreateStep(s, c, k, id);
      Issue(Create(c, id));
      ghost var s1 := s.(created := s.created[id := NameOf(s.rows, k)]);
      ghost var m := Verifying(k.app, k.prev, k.row, id, 0);
      healthy := AwaitRunning(c, stats, old(state), s1, m);
      if healthy {
        CloseAll(c, updateOk, old(state), s1.(verified := s.verified[id := k.app]), Verified(k.app, k.prev, k.row, id, 0));
      } else {
        CloseAll(c, updateOk, old(state), s1, Unhealthy(k.app, k.row, id, 0));
      }
    }

    /** From the new row on, when the container cannot be created. */
    method RedeployFails(c: nat, app: string, image: string, partial: Option<string>, latestOk: bool, updateOk: bool)
      requires Reachable(state) && c !in state.calls && (partial.Some? ==> partial.value != "" && partial.value !in state.created)
      modifies this
      ensures Leads(old(state), state) && state.calls == old(state).calls
      ensures state.touched == old(state).touched + if partial.Some? then {partial.value} else {}
      ensures var rows := old(state).rows; state.rows == Updated(rows + [NewRow(rows, app, image)], |rows|, "", Failed, updateOk)
    {
      Begin(c, app, image, latestOk);
      ReachableThen(old(state), state);
      ghost var s1, s := state, old(state).(rows := state.rows);
      NotAmongCalls(old(state).calls, c);
      FailCreation(c, partial, updateOk, s, state.calls[c]);
      LeadsThen(old(state), s1, state);
    }

    /** From the new row on, when the container is created. */
    method RedeployRuns(c: nat, app: string, image: string, id: string, latestOk: bool, stats: nat -> Stats, updateOk: bool)
      returns (healthy: bool)
      requires Reachable(state) && c !in state.calls && id != "" && id !in state.created
      modifies this
      ensures Leads(old(state), state) && state.calls == old(state).calls
      ensures healthy <==> Healthy(stats)
      ensures healthy ==> Serving(state, app, id)
      ensures var prev := if latestOk then LatestContainer(old(state).rows, app) else "";
              state.touched == old(state).touched + if !healthy then {id} else if prev == "" then {} else {prev}
      ensures var rows := old(state).rows;
              state.rows == Updated(rows + [NewRow(rows, app, image)], |rows|, id, if healthy then Running else Failed, updateOk)
    {
      ghost var s := state.(rows := state.rows + [NewRow(state.rows, app, image)]);
      ghost var prev := if latestOk then LatestContainer(state.rows, app) else "";
      NotAmongCalls(state.calls, c);
      ReplaceOutcome(state, app, id, prev, Healthy(stats));
      ghost var rows := state.rows;
      Begin(c, app, image, latestOk);
      ReachableThen(old(state), state);
      ghost var s1 := state;
      healthy := Replace(c, id, stats, updateOk, s, Allocated(app, prev, |rows|));
      LeadsThen(old(state), s1, state);
    }

    /** From the new row on. `c` names this rollback among those in progress. */
    method Redeploy(c: nat, app: string, image: string, env: Env) returns (r: Result)
      requires Reachable(state) && c !in state.calls && GoodIds(env.creation, state.created)
      modifies this
      ensures Leads(old(state), state) && state.calls == old(state).calls
      ensures r == if env.creation.NotCreated? then Error(DeployFailed) else if !Healthy(env.stats) then Error(NotHealthy)
                   else if !env.updateOk then Error(NotPersisted) else Done(|old(state).rows|)
      ensures state.touched == old(state).touched + Reached(old(state).rows, app, env)
      ensures r == Error(NotPersisted) || r.Done? ==> Serving(state, app, env.creation.id)
      ensures state.rows == old(state).rows + [Record(old(state).rows, app, image, env)]
    {
      var row := |state.rows|;
      ghost var rows := state.rows;
      if env.creation.NotCreated? {
        RedeployFails(c, app, image, env.creation.partial, env.latestOk, env.updateOk);
        return Error(DeployFailed);
      }
      var healthy := RedeployRuns(c, app, image, env.creation.id, env.latestOk, env.stats, env.updateOk);
      r := if !healthy then Error(NotHealthy) else if !env.updateOk then Error(NotPersisted) else Done(row);
    }

    /** Rolls the app back to a version. Every exit before the new container was seen running leaves all containers there were
        alone; from then on the new one serves, and exactly the latest deployment's container was stopped. One row is added,
        with the target's image, a version above all earlier ones and the outcome; none if the rollback does not get that far. */
    method Rollback(c: nat, app: string, version: nat, env: Env) returns (r: Result, ghost found: Option<Deployment>)
      requires Reachable(state) && c !in state.calls && GoodIds(env.creation, state.created)
      requires env.listing.Some? ==> ListsNewest(env.listing.value, state.rows, app, LISTED)
      modifies this
      ensures Leads(old(state), state) && state.calls == old(state).calls
      ensures found.Some? ==> found.value in old(state).rows && found.value.app == app && found.value.version == version
      ensures env.listing.Some? && found.None? ==> NotListed(env.listing.value, old(state).rows, app, version)
      ensures r == Verdict(env, found, |old(state).rows|)
      ensures r.Error? && r.error !in {DeployFailed, NotHealthy, NotPersisted} ==> state == old(state)
      ensures r.Error? && r.error != NotPersisted ==> TouchedAmong(old(state), state.touched, "")
      ensures r.Done? || r == Error(NotPersisted) ==>
                Serving(state, app, env.creation.id) && TouchedAmong(old(state), state.touched, LatestContainer(old(state).rows, app))
      ensures (r.Done? || r == Error(NotPersisted)) && env.latestOk && LatestContainer(old(state).rows, app) != "" ==>
                LatestContainer(old(state).rows, app) in state.touched
      ensures r == Error(NotHealthy) ==> env.creation.id in state.touched
      ensures r == Error(DeployFailed) && env.creation.partial.Some? ==> env.creation.partial.value in state.touched
      ensures r.Done? || r.error in {DeployFailed, NotHealthy, NotPersisted} ==>
                var container := if env.updateOk && env.creation.Created? then env.creation.id else "";
                var status := if !env.updateOk then Deploying else if r.Done? then Running else Failed;
                state.rows == old(state).rows + [Deployment(app, MaxVersion(old(state).rows, app) + 1, found.value.image, container, status)]
    {
      NoStepLeads(state);
      found := None;
      if env.listing.None? {
        return Error(ListFailed), None;
      }
      var target := FindVersion(env.listing.value, version, state.rows, app);
      found := target;
      if target.None? {
        return Error(NoSuchVersion), None;
      }
      if target.value.image == "" {
        return Error(NoImage), target;
      }
      if !env.appOk {
        return Error(NoApp), target;
      }
      if !env.rowOk {
        BeginInVain(c, app, env.latestOk);
        return Error(NoRow), target;
      }
      ReachedAmong(state, app, env);
      r := Redeploy(c, app, target.value.image, env);
    }
  }

  /** The containers a rollback stops or removes, once it has its row. */
  function Reached(rows: seq<Deployment>, app: string, env: Env): set<string> {
    match env.creation
    case NotCreated(partial) => if partial.Some? then {partial.value} else {}
    case Created(id) =>
      if !Healthy(env.stats) then {id}
      else if env.latestOk && LatestContainer(rows, app) != "" then {LatestContainer(rows, app)} else {}
  }

  /** The row a rollback leaves. */
  function Record(rows: seq<Deployment>, app: string, image: string, env: Env): Deployment {
    var row := NewRow(rows, app, image);
    if !env.updateOk then row
    else if env.creation.NotCreated? then row.(status := Failed)
    else row.(container := env.creation.id, status := if Healthy(env.stats) then Running else Failed)
  }

  lemma ReachedAmong(s: State, app: string, env: Env)
    requires Reachable(s) && GoodIds(env.creation, s.created)
    ensures var served := env.creation.Created? && Healthy(env.stats);
            TouchedAmong(s, s.touched + Reached(s.rows, app, env), if served then LatestContainer(s.rows, app) else "")
  {
  }

  /** The outcome of a rollback, as a function of what the store and the runtime answer; `found` is the listed target. */
  function Verdict(env: Env, found: Option<Deployment>, row: nat): Result {
    if env.listing.None? then Error(ListFailed)
    else if found.None? then Error(NoSuchVersion)
    else if found.value.image == "" then Error(NoImage)
    else if !env.appOk then Error(NoApp)
    else if !env.rowOk then Error(NoRow)
    else if env.creation.NotCreated? then Error(DeployFailed)
    else if !Healthy(env.stats) then Error(NotHealthy)
    else if !env.updateOk then Error(NotPersisted)
    else Done(row)
  }

  /** What each error reports. */
  predicate Explains(e: Error, env: Env, found: Option<Deployment>) {
    match e
    case ListFailed => env.listing.None?
    case NoSuchVersion => env.listing.Some? && found.None?
    case NoImage => found.Some? && found.value.image == ""
    case NoApp => !env.appOk
    case NoRow => !env.rowOk
    case DeployFailed => env.creation.NotCreated?
    case NotHealthy => env.creation.Created? && !Healthy(env.stats)
    case NotPersisted => env.creation.Created? && Healthy(env.stats) && !env.updateOk
  }

  /** A rollback succeeds exactly if nothing stands against it, and an error reports something that does. */
  lemma VerdictLaw(env: Env, found: Option<Deployment>, row: nat)
    ensures Verdict(env, found, row) == Done(row) <==>
              && env.listing.Some? && found.Some? && found.value.image != "" && env.appOk && env.rowOk
              && env.creation.Created? && Healthy(env.stats) && env.updateOk
    ensures Verdict(env, found, row).Done? || Explains(Verdict(env, found, row).error, env, found)
  {
  }

  /** Of the containers there were in `s`, only `x` has been asked to stop or removed since; none if `x` is empty. */
  ghost predicate TouchedAmong(s: State, touched: set<string>, x: string) {
    forall y :: y in s.created && y in touched ==> y in s.touched || (y == x && x != "")
  }

  /** What the runtime gives as IDs is new and not empty. */
  predicate GoodIds(r: CreateResult, created: map<string, string>) {
    match r
    case Created(id) => id != "" && id !in created
    case NotCreated(partial) => partial.Some? ==> partial.value != "" && partial.value !in created
  }

  lemma NotAmongCalls(calls: map<nat, Call>, c: nat)
    requires c !in calls
    ensures calls - {c} == calls
  {
  }

  lemma ReplaceOutcome(s: State, app: string, id: string, prev: string, healthy: bool)
    requires Reachable(s) && id != "" && id !in s.created && (prev == "" || prev == LatestContainer(s.rows, app))
    ensures var touched := s.touched + if !healthy then {id} else if prev == "" then {} else {prev};
            healthy ==> id !in touched
  {
    var base := ReachableInv(s);
    FreshIsNotKnown(base, s, id);
  }

  lemma RowExists(s: State, c: nat, k: Call)
    requires Reachable(WithCall(s, c, k)) && HasRow(k)
    ensures k.row < |s.rows|
  {
    var base := ReachableInv(WithCall(s, c, k));
    CallIsOk(base, WithCall(s, c, k), c);
  }

  lemma CleanupReaches(s: State, c: nat, k: Call)
    requires Reachable(WithCall(s, c, k)) && k.CreateFailed?
    ensures k.row < |s.rows|
    ensures Named(s.created, ContainerName(k.app, s.rows[k.row].version)) == if k.partial.Some? then {k.partial.value} else {}
  {
    var base := ReachableInv(WithCall(s, c, k));
    CleanupHitsOwn(base, WithCall(s, c, k), c);
  }

  lemma CreateErrStep(s: State, c: nat, k: Call, partial: Option<string>) returns (t: State)
    requires k.Allocated? && k.row < |s.rows| && (partial.Some? ==> partial.value !in s.created)
    ensures t == if partial.Some? then s.(created := s.created[partial.value := NameOf(s.rows, k)]) else s
    ensures Step(WithCall(s, c, k), CreateErr(c, partial)) == Some(WithCall(t, c, CreateFailed(k.app, k.row, partial, 0)))
  {
    var m := CreateFailed(k.app, k.row, partial, 0);
    assert s.calls[c := k][c := m] == s.calls[c := m];
    t := if partial.Some? then s.(created := s.created[partial.value := NameOf(s.rows, k)]) else s;
  }

  lemma CreateStep(s: State, c: nat, k: Call, id: string)
    requires k.Allocated? && k.row < |s.rows| && id != "" && id !in s.created
    ensures Step(WithCall(s, c, k), Create(c, id)) ==
            Some(WithCall(s.(created := s.created[id := NameOf(s.rows, k)]), c, Verifying(k.app, k.prev, k.row, id, 0)))
  {
    var m := Verifying(k.app, k.prev, k.row, id, 0);
    assert s.calls[c := k][c := m] == s.calls[c := m];
  }
}
