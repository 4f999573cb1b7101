/** Which containers a later rollback can still stop or remove, and which are out of reach for ever. */
module Orphans {
  import opened Options
  import opened Deployments
  import opened RollbackProtocol
  import Fresh

  /** Some continuation stops or removes `x`. */
  ghost predicate CanTouch(s: State, x: string) { exists t :: Leads(s, t) && x in t.touched }

  /** The rollback can lead to `x` being touched: it is to replace it; or `x` is its own container, not yet seen running;
      or seen running, and it will be recorded in what is the latest row. */
  predicate Handles(rows: seq<Deployment>, k: Call, x: string) {
    || PrevOf(k) == x
    || (OwnOf(k) == Some(x) && (!k.Verified? || Latest(rows, k.app) == Some(k.row)))
  }

  /** The latest row of some app names `x`, or a rollback in progress handles it. */
  ghost predicate Remembered(s: State, x: string) {
    || (exists app :: LatestContainer(s.rows, app) == x)
    || (exists d :: d in s.calls && Handles(s.rows, s.calls[d], x))
  }

  // ---- Out of reach ----

  lemma {:induction false} LatestSame(rows: seq<Deployment>, rows': seq<Deployment>, app: string)
    requires |rows| == |rows'|
    requires forall i :: 0 <= i < |rows| ==> rows[i].app == rows'[i].app && rows[i].version == rows'[i].version
    ensures Latest(rows, app) == Latest(rows', app)
  {
    if rows != [] { LatestSame(rows[..|rows| - 1], rows'[..|rows| - 1], app); }
  }

  lemma LatestAfterUpdate(rows: seq<Deployment>, row: nat, container: string, st: Status, ok: bool, app: string)
    requires row < |rows|
    ensures var rows' := Updated(rows, row, container, st, ok);
            && Latest(rows', app) == Latest(rows, app)
            && LatestContainer(rows', app) == if ok && Latest(rows, app) == Some(row) then container else LatestContainer(rows, app)
  {
    LatestSame(rows, Updated(rows, row, container, st, ok), app);
  }

  /** After an allocation the app's latest row is the new one, which names no container. */
  lemma LatestAfterAllocation(rows: seq<Deployment>, row: Deployment, app: string)
    requires row.version == MaxVersion(rows, row.app) + 1
    ensures Latest(rows + [row], app) == if row.app == app then Some(|rows|) else Latest(rows, app)
    ensures LatestContainer(rows + [row], app) == if row.app == app then row.container else LatestContainer(rows, app)
  {
    assert (rows + [row])[..|rows|] == rows;
    var l := Latest(rows, row.app);
    if l.Some? { MaxVersionBounds(rows, row.app, l.value); }
  }

  lemma LatestAfterClose(s: State, k: Call, ok: bool, app: string)
    requires Closing(k) && k.row < |s.rows|
    ensures var rows := RowsAfter(s, k, ok);
            && Latest(rows, app) == Latest(s.rows, app)
            && (LatestContainer(rows, app) == LatestContainer(s.rows, app)
                || (Latest(s.rows, app) == Some(k.row) && LatestContainer(rows, app) == if k.CreateFailed? then "" else k.id))
  {
    var container, st := if k.CreateFailed? then "" else k.id, if k.Verified? then Running else Failed;
    LatestAfterUpdate(s.rows, k.row, container, st, ok, app);
  }

  lemma StepRows(s: State, a: Action)
    requires Step(s, a).Some?
    ensures Step(s, a).value.rows ==
            if a.Allocate? then s.rows + [NewRow(s.rows, s.calls[a.c].app, a.image)]
            else if a.Close? then RowsAfter(s, s.calls[a.c], a.ok) else s.rows
  {
  }

  /** What a step does to the latest row of an app. */
  lemma LatestAfterStep(s: State, a: Action, app: string)
    requires Step(s, a).Some?
    ensures var rows := Step(s, a).value.rows;
            || (Latest(rows, app) == Latest(s.rows, app) && LatestContainer(rows, app) == LatestContainer(s.rows, app))
            || (Latest(rows, app) == Some(|s.rows|) && LatestContainer(rows, app) == "")
            || (a.Close? && Latest(rows, app) == Latest(s.rows, app) == Some(s.calls[a.c].row)
                && LatestContainer(rows, app) == if s.calls[a.c].CreateFailed? then "" else s.calls[a.c].id)
  {
    StepRows(s, a);
    if a.Allocate? {
      LatestAfterAllocation(s.rows, NewRow(s.rows, s.calls[a.c].app, a.image), app);
    } else if a.Close? {
      LatestAfterClose(s, s.calls[a.c], a.ok, app);
    }
  }

  lemma RowOfCall(base: nat, s: State, c: nat, app: string)
    requires Inv(base, s) && c in s.calls && HasRow(s.calls[c]) && Latest(s.rows, app) == Some(s.calls[c].row)
    ensures app == s.calls[c].app
  {
    CallIsOk(base, s, c);
  }

  lemma OutOfRows(base: nat, s: State, a: Action, x: string, app: string)
    requires Inv(base, s) && x != "" && !Remembered(s, x) && Step(s, a).Some?
    ensures LatestContainer(Step(s, a).value.rows, app) != x
  {
    LatestAfterStep(s, a, app);
    assert LatestContainer(s.rows, app) != x;
    if a.Close? && Latest(s.rows, app) == Some(s.calls[a.c].row) {
      RowOfCall(base, s, a.c, app);
      assert !Handles(s.rows, s.calls[a.c], x);
    }
  }

  /** A rollback in progress never turns to another container but one it creates. */
  lemma CallKeepsTo(s: State, a: Action)
    requires Step(s, a).Some? && a.c in s.calls && a.c in Step(s, a).value.calls
    ensures var k, m := s.calls[a.c], Step(s, a).value.calls[a.c];
            && (PrevOf(m) == PrevOf(k) || PrevOf(m) == "")
            && (OwnOf(m) == OwnOf(k) || OwnOf(m).None? || OwnOf(m).value !in s.created)
            && (k.Verified? ==> m.Verified? && m.app == k.app && m.row == k.row)
  {
  }

  /** Handling is not regained: a rollback whose row is no longer the latest keeps it so. */
  lemma NotHandledAgain(s: State, a: Action, k: Call, m: Call, x: string)
    requires Step(s, a).Some? && x in s.created && x != "" && !Handles(s.rows, k, x)
    requires PrevOf(m) == PrevOf(k) || PrevOf(m) == ""
    requires OwnOf(m) == OwnOf(k) || OwnOf(m).None? || OwnOf(m).value !in s.created
    requires k.Verified? ==> m.Verified? && m.app == k.app && m.row == k.row && k.row < |s.rows|
    ensures !Handles(Step(s, a).value.rows, m, x)
  {
    if k.Verified? { LatestAfterStep(s, a, k.app); }
  }

  lemma OtherCallsKept(s: State, a: Action, d: nat)
    requires Step(s, a).Some? && d in Step(s, a).value.calls
    ensures d != a.c ==> d in s.calls && Step(s, a).value.calls[d] == s.calls[d]
    ensures d !in s.calls ==> a.Start? && PrevOf(Step(s, a).value.calls[d]) in {"", LatestContainer(s.rows, a.app)}
                              && OwnOf(Step(s, a).value.calls[d]).None?
  {
  }

  lemma RowBound(base: nat, s: State, c: nat)
    requires Inv(base, s) && c in s.calls
    ensures HasRow(s.calls[c]) ==> s.calls[c].row < |s.rows|
  {
    CallIsOk(base, s, c);
  }

  lemma OutOfCalls(s: State, a: Action, x: string, d: nat)
    requires x in s.created && x != "" && !Remembered(s, x) && Step(s, a).Some? && d in Step(s, a).value.calls
    requires d in s.calls && HasRow(s.calls[d]) ==> s.calls[d].row < |s.rows|
    ensures !Handles(Step(s, a).value.rows, Step(s, a).value.calls[d], x)
  {
    OtherCallsKept(s, a, d);
    if d in s.calls {
      assert !Handles(s.rows, s.calls[d], x);
      if d == a.c { CallKeepsTo(s, a); }
      NotHandledAgain(s, a, s.calls[d], Step(s, a).value.calls[d], x);
    } else {
      assert LatestContainer(s.rows, a.app) != x;
    }
  }

  lemma TouchedIsHandled(base: nat, s: State, a: Action, x: string)
    requires Inv(base, s) && Step(s, a).Some? && x in Step(s, a).value.touched && x !in s.touched
    ensures Remembered(s, x)
  {
    TouchLaw(base, s, a, x);
    CallIsOk(base, s, a.c);
    assert Handles(s.rows, s.calls[a.c], x);
  }

  lemma ForgottenStays(base: nat, s: State, a: Action, x: string)
    requires Inv(base, s) && x in s.created && x != "" && !Remembered(s, x) && Step(s, a).Some?
    ensures x in Step(s, a).value.created && !Remembered(Step(s, a).value, x)
    ensures x in Step(s, a).value.touched ==> x in s.touched
  {
    StepEffects(s, a);
    forall app ensures LatestContainer(Step(s, a).value.rows, app) != x { OutOfRows(base, s, a, x, app); }
    forall d | d in Step(s, a).value.calls ensures !Handles(Step(s, a).value.rows, Step(s, a).value.calls[d], x) {
      if d in s.calls { RowBound(base, s, d); }
      OutOfCalls(s, a, x, d);
    }
    if x in Step(s, a).value.touched && x !in s.touched {
      TouchedIsHandled(base, s, a, x);
      assert false;
    }
  }

  /** A container nobody remembers stays forgotten, and no later rollback stops or removes it. */
  lemma {:induction false} ForgottenForever(base: nat, s: State, run: seq<Action>, x: string)
    requires Inv(base, s) && x in s.created && x != "" && !Remembered(s, x) && SafeRun(run) && Run(s, run).Some?
    ensures x in Run(s, run).value.created && !Remembered(Run(s, run).value, x)
    ensures x in Run(s, run).value.touched ==> x in s.touched
  {
    if run != [] {
      var front := run[..|run| - 1];
      ForgottenForever(base, s, front, x);
      InvOverRuns(base, s, front);
      ForgottenStays(base, Run(s, front).value, run[|run| - 1], x);
    }
  }

  // ---- Within reach ----

  /** What was to be touched early in a closing sequence has been. */
  ghost predicate Stages(s: State) {
    forall c {:trigger s.calls[c]} :: c in s.calls ==> StageOk(s.touched, s.calls[c])
  }

  predicate StageOk(touched: set<string>, k: Call) {
    && (k.Verified? && k.stage >= 1 && k.prev != "" ==> k.prev in touched)
    && (k.Unhealthy? && k.stage >= 1 ==> k.id in touched)
  }

  lemma StagesStep(s: State, a: Action)
    requires Stages(s) && Step(s, a).Some?
    ensures Stages(Step(s, a).value) && s.touched <= Step(s, a).value.touched
  {
    var t := Step(s, a).value;
    forall c | c in t.calls ensures StageOk(t.touched, t.calls[c]) {
      if c in s.calls { assert StageOk(s.touched, s.calls[c]); }
    }
  }

  lemma {:induction false} StagesOverRuns(s: State, run: seq<Action>)
    requires Stages(s) && Run(s, run).Some?
    ensures Stages(Run(s, run).value)
  {
    if run != [] {
      StagesOverRuns(s, run[..|run| - 1]);
      StagesStep(Run(s, run[..|run| - 1]).value, run[|run| - 1]);
    }
  }

  lemma ReachableStages(m: State)
    requires Reachable(m)
    ensures Stages(m)
  {
    var s0 :| Initial(s0) && Leads(s0, m);
    var run :| SafeRun(run) && Run(s0, run) == Some(m);
    StagesOverRuns(s0, run);
  }

  /** What is used of a rollback in a reachable state. */
  lemma CallFacts(m: State, c: nat)
    requires Reachable(m) && c in m.calls
    ensures var k := m.calls[c];
            && (HasRow(k) ==> k.row < |m.rows|)
            && StageOk(m.touched, k)
            && (k.CreateFailed? && k.partial.Some? ==>
                  k.partial.value in m.created && m.created[k.partial.value] == ContainerName(k.app, m.rows[k.row].version))
            && (OwnOf(k).Some? ==> NotKnown(m.rows, m.calls, OwnOf(k).value))
  {
    var base := ReachableInv(m);
    CallIsOk(base, m, c);
    ReachableStages(m);
  }

  /** A state on the way from `s` to one where `x` is touched. */
  ghost predicate OnTheWay(s: State, m: State, x: string) {
    Leads(s, m) && Reachable(m) && x != "" && x !in m.touched
  }

  lemma OneMore(s: State, m: State, x: string, a: Action)
    requires OnTheWay(s, m, x) && NonEmptyIds(a) && Step(m, a).Some?
    ensures CanTouch(s, x) || OnTheWay(s, Step(m, a).value, x)
  {
    OneStepLeads(m, a);
    LeadsThen(s, m, Step(m, a).value);
    ReachableThen(m, Step(m, a).value);
  }

  /** A string longer than every key. */
  lemma {:induction false} LongerThan(ks: set<string>) returns (x: string)
    ensures x != "" && x !in ks && forall k :: k in ks ==> |k| < |x|
  {
    x := "x";
    if ks != {} {
      var k :| k in ks;
      var y := LongerThan(ks - {k});
      x := y + k + "x";
      forall z | z in ks ensures |z| < |x| {
        if z != k { assert z in ks - {k}; }
      }
    }
  }

  /** The next step of a rollback towards stopping the container it replaces. */
  lemma TowardsPrevious(m: State, c: nat, id: string) returns (a: Action)
    requires c in m.calls && PrevOf(m.calls[c]) != "" && id != "" && id !in m.created
    requires HasRow(m.calls[c]) ==> m.calls[c].row < |m.rows|
    requires m.calls[c].Verified? ==> m.calls[c].stage == 0
    ensures NonEmptyIds(a) && Step(m, a).Some?
    ensures var k, t := m.calls[c], Step(m, a).value;
            if k.Verified? then k.prev in t.touched
            else c in t.calls && PrevOf(t.calls[c]) == PrevOf(k) && PreviousRank(t.calls[c]) < PreviousRank(k)
  {
    var k := m.calls[c];
    a := if k.HasPrev? then Allocate(c, "") else if k.Allocated? then Create(c, id) else if k.Verifying? then Poll(c, Up) else Close(c, true);
  }

  function PreviousRank(k: Call): nat { if k.HasPrev? then 3 else if k.Allocated? then 2 else if k.Verifying? then 1 else 0 }

  /** A rollback that is to replace `x` can get that far. */
  lemma {:induction false} TouchAsPrevious(s: State, m: State, c: nat, x: string)
    requires OnTheWay(s, m, x) && c in m.calls && PrevOf(m.calls[c]) == x
    ensures CanTouch(s, x)
    decreases PreviousRank(m.calls[c])
  {
    CallFacts(m, c);
    var id := LongerThan(m.created.Keys);
    var a := TowardsPrevious(m, c, id);
    OneMore(s, m, x, a);
    if !CanTouch(s, x) { TouchAsPrevious(s, Step(m, a).value, c, x); }
  }

  lemma StartReads(m: State, c: nat, app: string)
    requires c !in m.calls
    ensures Step(m, Start(c, app, true)).Some? && c in Step(m, Start(c, app, true)).value.calls
    ensures PrevOf(Step(m, Start(c, app, true)).value.calls[c]) == LatestContainer(m.rows, app)
  {
  }

  /** A rollback started now would replace the latest row's container. */
  lemma TouchAsLatest(s: State, m: State, app: string, x: string)
    requires OnTheWay(s, m, x) && LatestContainer(m.rows, app) == x
    ensures CanTouch(s, x)
  {
    var c := Fresh.Above(m.calls.Keys);
    StartReads(m, c, app);
    OneMore(s, m, x, Start(c, app, true));
    if !CanTouch(s, x) { TouchAsPrevious(s, Step(m, Start(c, app, true)).value, c, x); }
  }

  function OwnRank(k: Call): nat {
    if k.Verifying? then 20 - (if k.polls < POLLS then k.polls else POLLS) else if k.CreateFailed? && k.stage == 0 then 1 else 0
  }

  /** The next step of a rollback towards cleaning up its own container. */
  lemma TowardsOwn(m: State, c: nat, x: string) returns (a: Action)
    requires c in m.calls && OwnOf(m.calls[c]) == Some(x) && !m.calls[c].Verified? && m.calls[c].row < |m.rows|
    requires m.calls[c].Unhealthy? ==> m.calls[c].stage == 0
    requires m.calls[c].CreateFailed? ==> x in m.created && m.created[x] == ContainerName(m.calls[c].app, m.rows[m.calls[c].row].version)
    ensures NonEmptyIds(a) && Step(m, a).Some?
    ensures var k, t := m.calls[c], Step(m, a).value;
            || x in t.touched
            || (c in t.calls && OwnOf(t.calls[c]) == Some(x) && !t.calls[c].Verified? && OwnRank(t.calls[c]) < OwnRank(k))
  {
    a := if m.calls[c].Verifying? then Poll(c, Stopped) else Close(c, true);
  }

  /** A rollback can come to clean up its own container, unless it has seen it running. */
  lemma {:induction false} TouchAsOwn(s: State, m: State, c: nat, x: string)
    requires OnTheWay(s, m, x) && c in m.calls && OwnOf(m.calls[c]) == Some(x) && !m.calls[c].Verified?
    ensures CanTouch(s, x)
    decreases OwnRank(m.calls[c])
  {
    CallFacts(m, c);
    var a := TowardsOwn(m, c, x);
    OneMore(s, m, x, a);
    if !CanTouch(s, x) { TouchAsOwn(s, Step(m, a).value, c, x); }
  }

  lemma VerifiedCloses(m: State, c: nat)
    requires c in m.calls && m.calls[c].Verified? && m.calls[c].row < |m.rows|
    ensures Step(m, Close(c, true)).Some?
    ensures var k, t := m.calls[c], Step(m, Close(c, true)).value;
            if k.stage < 2 then c in t.calls && t.calls[c] == NextStage(k) && t.rows == m.rows
            else t.rows == Updated(m.rows, k.row, k.id, Running, true)
  {
  }

  /** A rollback that has seen its container running records it; in the latest row, the next rollback finds it there. */
  lemma {:induction false} TouchAsVerified(s: State, m: State, c: nat, x: string)
    requires OnTheWay(s, m, x) && c in m.calls && m.calls[c].Verified? && m.calls[c].id == x
    requires Latest(m.rows, m.calls[c].app) == Some(m.calls[c].row)
    ensures CanTouch(s, x)
    decreases var k := m.calls[c]; if k.stage < 2 then 2 - k.stage else 0
  {
    var k := m.calls[c];
    VerifiedCloses(m, c);
    OneMore(s, m, x, Close(c, true));
    if !CanTouch(s, x) {
      var t := Step(m, Close(c, true)).value;
      if k.stage < 2 {
        TouchAsVerified(s, t, c, x);
      } else {
        LatestAfterUpdate(m.rows, k.row, x, Running, true, k.app);
        TouchAsLatest(s, t, k.app, x);
      }
    }
  }

  lemma ForgottenIsOutOfReach(s: State, x: string)
    requires Reachable(s) && x in s.created && x != "" && x !in s.touched && !Remembered(s, x)
    ensures !CanTouch(s, x)
  {
    var base := ReachableInv(s);
    forall t | Leads(s, t) ensures x !in t.touched {
      var more :| SafeRun(more) && Run(s, more) == Some(t);
      ForgottenForever(base, s, more, x);
    }
  }

  /** The exact law, for every state reached by any number of interleaved rollbacks: a container not touched yet can still be
      stopped or removed by some continuation if and only if the latest row of an app names it or a rollback in progress
      handles it. */
  lemma ReachLaw(s: State, x: string)
    requires Reachable(s) && x in s.created && x != "" && x !in s.touched
    ensures CanTouch(s, x) <==> Remembered(s, x)
  {
    NoStepLeads(s);
    if !Remembered(s, x) {
      ForgottenIsOutOfReach(s, x);
    } else if app :| LatestContainer(s.rows, app) == x {
      TouchAsLatest(s, s, app, x);
    } else {
      var d :| d in s.calls && Handles(s.rows, s.calls[d], x);
      if PrevOf(s.calls[d]) == x {
        TouchAsPrevious(s, s, d, x);
      } else if s.calls[d].Verified? {
        TouchAsVerified(s, s, d, x);
      } else {
        TouchAsOwn(s, s, d, x);
      }
    }
  }

  // ---- Failed rollbacks ----

  /** The step makes a rollback fail before it has seen its own container running. */
  predicate Fails(s: State, a: Action) {
    && a.c in s.calls && Step(s, a).Some?
    && (a.CreateErr? || (a.Poll? && a.stats != Up && s.calls[a.c].Verifying? && s.calls[a.c].polls >= POLLS))
  }

  /** The latest row of an app names `x`, or a rollback other than `c` is to replace it. */
  ghost predicate KnownElsewhere(s: State, c: nat, x: string) {
    || (exists app :: LatestContainer(s.rows, app) == x)
    || (exists d :: d in s.calls && d != c && PrevOf(s.calls[d]) == x)
  }

  lemma FailEffects(s: State, a: Action)
    requires Fails(s, a)
    ensures var k, t := s.calls[a.c], Step(s, a).value;
            && t.rows == s.rows && t.touched == s.touched && t.calls.Keys == s.calls.Keys
            && (forall d {:trigger t.calls[d]} :: d in t.calls && d != a.c ==> t.calls[d] == s.calls[d])
            && !t.calls[a.c].Verified? && PrevOf(t.calls[a.c]) == ""
            && (OwnOf(t.calls[a.c]) == OwnOf(k) || OwnOf(t.calls[a.c]).None? || OwnOf(t.calls[a.c]).value !in s.created)
  {
  }

  lemma PreviousExists(s: State, c: nat)
    requires Reachable(s) && c in s.calls && PrevOf(s.calls[c]) != ""
    ensures PrevOf(s.calls[c]) in s.created
    ensures forall d {:trigger s.calls[d]} :: d in s.calls ==> OwnOf(s.calls[d]) != Some(PrevOf(s.calls[c]))
  {
    var base := ReachableInv(s);
    CallIsOk(base, s, c);
    forall d | d in s.calls ensures OwnOf(s.calls[d]) != Some(PrevOf(s.calls[c])) { CallIsOk(base, s, d); }
  }

  lemma RememberedAfterFailure(s: State, a: Action)
    requires Reachable(s) && Fails(s, a) && PrevOf(s.calls[a.c]) != ""
    ensures Remembered(Step(s, a).value, PrevOf(s.calls[a.c])) <==> KnownElsewhere(s, a.c, PrevOf(s.calls[a.c]))
  {
    var x, t := PrevOf(s.calls[a.c]), Step(s, a).value;
    FailEffects(s, a);
    PreviousExists(s, a.c);
    if d :| d in s.calls && d != a.c && PrevOf(s.calls[d]) == x {
      assert d in t.calls && Handles(t.rows, t.calls[d], x);
    }
    if d :| d in t.calls && Handles(t.rows, t.calls[d], x) {
      assert d in s.calls && (d != a.c ==> OwnOf(s.calls[d]) != Some(x));
    }
  }

  /** After a failed rollback the container it was to replace, which nobody has touched, is within reach of later rollbacks if
      and only if the latest row of an app names it or another rollback in progress is to replace it too. The failed
      rollback's own row, or a newer one, is the app's latest, so as a rule it is out of reach for ever. */
  lemma FailedRollbackLaw(s: State, a: Action)
    requires Reachable(s) && NonEmptyIds(a) && Fails(s, a)
    requires PrevOf(s.calls[a.c]) != "" && PrevOf(s.calls[a.c]) !in s.touched
    ensures CanTouch(Step(s, a).value, PrevOf(s.calls[a.c])) <==> KnownElsewhere(s, a.c, PrevOf(s.calls[a.c]))
  {
    PreviousExists(s, a.c);
    StepEffects(s, a);
    FailEffects(s, a);
    OneStepLeads(s, a);
    ReachableThen(s, Step(s, a).value);
    RememberedAfterFailure(s, a);
    ReachLaw(Step(s, a).value, PrevOf(s.calls[a.c]));
  }
}
