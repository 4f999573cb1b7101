/** Rolling applications back to earlier images: the order create, verify, remove, for any number of rollbacks running at
    the same time. */
module RollbackProtocol {
  import opened Options
  import opened Deployments

  /** What asking for the statistics of a container tells. */
  datatype Stats = Unknown | Stopped | Up

  /** A rollback in progress. `prev` is the container of the latest deployment when the rollback began, `row` its own row,
      `id` its own container, and `stage` counts the calls of a closing sequence:
      CreateFailed: update the row, stop by name, remove by name; Unhealthy: stop, remove, update the row;
      Verified: stop the old one, remove the old one, update the row. */
  datatype Call =
    | HasPrev(app: string, prev: string)
    | Allocated(app: string, prev: string, row: nat)
    | CreateFailed(app: string, row: nat, partial: Option<string>, stage: nat)
    | Verifying(app: string, prev: string, row: nat, id: string, polls: nat)
    | Unhealthy(app: string, row: nat, id: string, stage: nat)
    | Verified(app: string, prev: string, row: nat, id: string, stage: nat)

  /** `created`: the name of every container ever created, by ID; `touched`: the containers someone asked to stop or remove;
      `verified`: the containers their own rollback saw running, with the app. */
  datatype State = State(rows: seq<Deployment>, created: map<string, string>, touched: set<string>,
                         verified: map<string, string>, calls: map<nat, Call>)

  datatype Action =
    | Start(c: nat, app: string, readOk: bool)
    | Abort(c: nat)
    | Allocate(c: nat, image: string)
    | Create(c: nat, id: string)
    | CreateErr(c: nat, partial: Option<string>)
    | Poll(c: nat, stats: Stats)
    | Close(c: nat, ok: bool)

  /** The position of the app's row with the greatest version. */
  function Latest(rows: seq<Deployment>, app: string): (r: Option<nat>)
    ensures r.Some? ==> r.value < |rows| && rows[r.value].app == app
  {
    if rows == [] then None
    else
      var n := |rows| - 1;
      var front := Latest(rows[..n], app);
      if rows[n].app == app && (front.None? || rows[front.value].version <= rows[n].version) then Some(n) else front
  }

  /** An app with a row has a latest one, and no version of the app exceeds its version. */
  lemma {:induction false} LatestIsGreatest(rows: seq<Deployment>, app: string, i: nat)
    requires i < |rows| && rows[i].app == app
    ensures Latest(rows, app).Some? && rows[i].version <= rows[Latest(rows, app).value].version
  {
    var front := rows[..|rows| - 1];
    if i < |front| { LatestIsGreatest(front, app, i); }
  }

  function LatestContainer(rows: seq<Deployment>, app: string): string {
    var l := Latest(rows, app);
    if l.Some? then rows[l.value].container else ""
  }

  /** The containers a stop or remove by name reaches. */
  function Named(created: map<string, string>, name: string): set<string> { set id | id in created && created[id] == name }

  function Updated(rows: seq<Deployment>, row: nat, container: string, st: Status, ok: bool): seq<Deployment>
    requires row < |rows|
  {
    if ok then rows[row := rows[row].(container := container, status := st)] else rows
  }

  /** The tenth failed look is followed by one last look. */
  const POLLS: nat := 10

  function AfterPoll(k: Call, stats: Stats): Call
    requires k.Verifying?
  {
    if stats == Up then Verified(k.app, k.prev, k.row, k.id, 0)
    else if k.polls >= POLLS then Unhealthy(k.app, k.row, k.id, 0)
    else if stats == Stopped then k.(polls := POLLS)
    else k.(polls := k.polls + 1)
  }

  function NextStage(k: Call): Call
    requires k.CreateFailed? || k.Unhealthy? || k.Verified?
  {
    match k
    case CreateFailed(app, row, partial, stage) => CreateFailed(app, row, partial, stage + 1)
    case Unhealthy(app, row, id, stage) => Unhealthy(app, row, id, stage + 1)
    case Verified(app, prev, row, id, stage) => Verified(app, prev, row, id, stage + 1)
  }

  predicate Closing(k: Call) { k.CreateFailed? || k.Unhealthy? || k.Verified? }

  /** What the next call of a closing sequence asks to stop or remove. */
  function Hit(s: State, k: Call): set<string>
    requires Closing(k) && k.row < |s.rows|
  {
    match k
    case CreateFailed(app, row, _, stage) => if stage == 0 then {} else Named(s.created, ContainerName(app, s.rows[row].version))
    case Unhealthy(_, _, id, stage) => if stage < 2 then {id} else {}
    case Verified(_, prev, _, _, stage) => if stage < 2 && prev != "" then {prev} else {}
  }

  /** What it leaves in the deployments table. `ok` tells whether updating the row worked. */
  function RowsAfter(s: State, k: Call, ok: bool): seq<Deployment>
    requires Closing(k) && k.row < |s.rows|
  {
    match k
    case CreateFailed(_, row, _, stage) => if stage == 0 then Updated(s.rows, row, "", Failed, ok) else s.rows
    case Unhealthy(_, row, id, stage) => if stage < 2 then s.rows else Updated(s.rows, row, id, Failed, ok)
    case Verified(_, _, row, id, stage) => if stage < 2 then s.rows else Updated(s.rows, row, id, Running, ok)
  }

  /** One call of a closing sequence; the third is the last. */
  function AfterClose(s: State, c: nat, k: Call, ok: bool): State
    requires Closing(k) && k.row < |s.rows|
  {
    s.(rows := RowsAfter(s, k, ok), touched := s.touched + Hit(s, k),
       calls := if k.stage < 2 then s.calls[c := NextStage(k)] else s.calls - {c})
  }

  function AfterCreate(s: State, c: nat, k: Call, id: string): State
    requires k.Allocated? && k.row < |s.rows|
  {
    // An empty ID skips the verification.
    var m := if id == "" then Verified(k.app, k.prev, k.row, id, 0) else Verifying(k.app, k.prev, k.row, id, 0);
    s.(created := s.created[id := ContainerName(k.app, s.rows[k.row].version)], calls := s.calls[c := m])
  }

  function AfterCreateErr(s: State, c: nat, k: Call, partial: Option<string>): State
    requires k.Allocated? && k.row < |s.rows|
  {
    s.(created := if partial.None? then s.created else s.created[partial.value := ContainerName(k.app, s.rows[k.row].version)],
       calls := s.calls[c := CreateFailed(k.app, k.row, partial, 0)])
  }

  function AfterLook(s: State, c: nat, k: Call, stats: Stats): State
    requires k.Verifying?
  {
    s.(verified := if stats == Up then s.verified[k.id := k.app] else s.verified, calls := s.calls[c := AfterPoll(k, stats)])
  }

  function AfterStart(s: State, c: nat, app: string, readOk: bool): State {
    s.(calls := s.calls[c := HasPrev(app, if readOk then LatestContainer(s.rows, app) else "")])
  }

  function AfterAllocate(s: State, c: nat, k: Call, image: string): State
    requires k.HasPrev?
  {
    s.(rows := s.rows + [NewRow(s.rows, k.app, image)], calls := s.calls[c := Allocated(k.app, k.prev, |s.rows|)])
  }

  function Step(s: State, a: Action): Option<State> {
    if a.Start? then
      if a.c in s.calls then None else Some(AfterStart(s, a.c, a.app, a.readOk))
    else if a.c !in s.calls then None
    else
      var k := s.calls[a.c];
      match a
      case Abort(c) => if k.HasPrev? then Some(s.(calls := s.calls - {c})) else None
      case Allocate(c, image) => if k.HasPrev? then Some(AfterAllocate(s, c, k, image)) else None
      case Create(c, id) =>
        if !k.Allocated? || k.row >= |s.rows| || id in s.created then None else Some(AfterCreate(s, c, k, id))
      case CreateErr(c, partial) =>
        if !k.Allocated? || k.row >= |s.rows| || (partial.Some? && partial.value in s.created) then None
        else Some(AfterCreateErr(s, c, k, partial))
      case Poll(c, stats) => if k.Verifying? then Some(AfterLook(s, c, k, stats)) else None
      case Close(c, ok) => if !Closing(k) || k.row >= |s.rows| then None else Some(AfterClose(s, c, k, ok))
  }

  function Run(s: State, run: seq<Action>): Option<State> {
    if run == [] then Some(s)
    else
      var t := Run(s, run[..|run| - 1]);
      if t.None? then None else Step(t.value, run[|run| - 1])
  }

  // ---- The invariant ----

  function PrevOf(k: Call): string {
    if k.HasPrev? || k.Allocated? || k.Verifying? || k.Verified? then k.prev else ""
  }

  function OwnOf(k: Call): Option<string> {
    if k.Verifying? || k.Unhealthy? || k.Verified? then Some(k.id) else if k.CreateFailed? then k.partial else None
  }

  predicate HasRow(k: Call) { !k.HasPrev? }

  /** Versions allocated since the table had `base` rows exceed every earlier version of their app. */
  ghost predicate VersionsGrow(base: nat, rows: seq<Deployment>) {
    forall i, j :: 0 <= i < j < |rows| && base <= j && rows[i].app == rows[j].app ==> rows[i].version < rows[j].version
  }

  /** No container is named after a version not yet allocated. */
  ghost predicate NamesAllocated(rows: seq<Deployment>, created: map<string, string>) {
    forall id, app, v: nat :: id in created && created[id] == ContainerName(app, v) ==> v <= MaxVersion(rows, app)
  }

  /** A recorded container exists, and if it was verified, then for this app. */
  ghost predicate Recorded(app: string, id: string, created: map<string, string>, verified: map<string, string>) {
    id != "" ==> id in created && (id in verified ==> verified[id] == app)
  }

  ghost predicate RowsRecorded(rows: seq<Deployment>, created: map<string, string>, verified: map<string, string>) {
    forall i :: 0 <= i < |rows| ==> Recorded(rows[i].app, rows[i].container, created, verified)
  }

  function NameOf(rows: seq<Deployment>, k: Call): string
    requires HasRow(k) && k.row < |rows|
  {
    ContainerName(k.app, rows[k.row].version)
  }

  /** What holds of one rollback: its row is one of the new ones; nobody else's container carries its name; its own container
      is unverified until it has been seen running, and from then on nobody has touched it. */
  ghost predicate CallOk(base: nat, rows: seq<Deployment>, created: map<string, string>, touched: set<string>,
                         verified: map<string, string>, k: Call)
  {
    && Recorded(k.app, PrevOf(k), created, verified)
    && (HasRow(k) ==> base <= k.row < |rows| && rows[k.row].app == k.app)
    && (HasRow(k) ==> forall id :: id in created && created[id] == NameOf(rows, k) ==> OwnOf(k) == Some(id))
    && (OwnOf(k).Some? ==> OwnOf(k).value in created && OwnOf(k).value != "" && created[OwnOf(k).value] == NameOf(rows, k))
    && (OwnOf(k).Some? && !k.Verified? ==> OwnOf(k).value !in verified)
    && (k.Verified? ==> k.id in verified && verified[k.id] == k.app)
    && (k.Verifying? || k.Verified? ==> k.id !in touched)
  }

  ghost predicate CallsOk(base: nat, rows: seq<Deployment>, created: map<string, string>, touched: set<string>,
                          verified: map<string, string>, calls: map<nat, Call>)
  {
    forall c {:trigger calls[c]} :: c in calls ==> CallOk(base, rows, created, touched, verified, calls[c])
  }

  /** No row names the container, and no rollback has it as the one to replace. */
  ghost predicate NotKnown(rows: seq<Deployment>, calls: map<nat, Call>, id: string) {
    && (forall i :: 0 <= i < |rows| ==> rows[i].container != id)
    && (forall d {:trigger calls[d]} :: d in calls ==> PrevOf(calls[d]) != id)
  }

  /** The container of a rollback in progress is in no row yet, nor known to another rollback. */
  ghost predicate AllPrivate(rows: seq<Deployment>, calls: map<nat, Call>) {
    forall c {:trigger calls[c]} :: c in calls && OwnOf(calls[c]).Some? ==> NotKnown(rows, calls, OwnOf(calls[c]).value)
  }

  ghost predicate RowsDistinct(calls: map<nat, Call>) {
    forall c, d {:trigger calls[c], calls[d]} ::
      c in calls && d in calls && c != d && HasRow(calls[c]) && HasRow(calls[d]) ==> calls[c].row != calls[d].row
  }

  ghost predicate TableInv(base: nat, s: State) {
    && base <= |s.rows|
    && VersionsGrow(base, s.rows)
    && NamesAllocated(s.rows, s.created)
    && RowsRecorded(s.rows, s.created, s.verified)
    && s.verified.Keys <= s.created.Keys && s.touched <= s.created.Keys
  }

  ghost predicate Inv(base: nat, s: State) {
    && TableInv(base, s)
    && CallsOk(base, s.rows, s.created, s.touched, s.verified, s.calls)
    && AllPrivate(s.rows, s.calls)
    && RowsDistinct(s.calls)
  }

  /** Replacing one rollback's stage, with nothing else changed. */
  lemma PutCall(base: nat, s: State, c: nat, k: Call)
    requires Inv(base, s) && CallOk(base, s.rows, s.created, s.touched, s.verified, k)
    requires OwnOf(k).Some? ==> NotKnown(s.rows, s.calls[c := k], OwnOf(k).value)
    requires forall d {:trigger s.calls[d]} :: d in s.calls && d != c ==>
               (OwnOf(s.calls[d]).Some? ==> PrevOf(k) != OwnOf(s.calls[d]).value)
               && (HasRow(k) && HasRow(s.calls[d]) ==> k.row != s.calls[d].row)
    ensures Inv(base, s.(calls := s.calls[c := k]))
  {
  }

  lemma DropCall(base: nat, s: State, c: nat)
    requires Inv(base, s)
    ensures Inv(base, s.(calls := s.calls - {c}))
  {
  }

  lemma StartKeepsInv(base: nat, s: State, c: nat, app: string, readOk: bool)
    requires Inv(base, s) && c !in s.calls
    ensures Inv(base, AfterStart(s, c, app, readOk))
  {
    var l := LatestContainer(s.rows, app);
    var k := HasPrev(app, if readOk then l else "");
    assert Recorded(app, l, s.created, s.verified);
    PutCall(base, s, c, k);
  }

  lemma CallIsOk(base: nat, s: State, c: nat)
    requires Inv(base, s) && c in s.calls
    ensures CallOk(base, s.rows, s.created, s.touched, s.verified, s.calls[c])
    ensures OwnOf(s.calls[c]).Some? ==> NotKnown(s.rows, s.calls, OwnOf(s.calls[c]).value)
  {
  }

  /** Rollbacks in progress have rows of their own, hence names of their own, hence containers of their own. */
  lemma NamesDiffer(base: nat, s: State, c: nat, d: nat)
    requires Inv(base, s) && c in s.calls && d in s.calls && c != d
    requires HasRow(s.calls[c]) && HasRow(s.calls[d])
    ensures s.calls[c].row < |s.rows| && s.calls[d].row < |s.rows| && NameOf(s.rows, s.calls[c]) != NameOf(s.rows, s.calls[d])
    ensures OwnOf(s.calls[c]).Some? ==> OwnOf(s.calls[c]) != OwnOf(s.calls[d])
  {
    var k, m := s.calls[c], s.calls[d];
    if NameOf(s.rows, k) == NameOf(s.rows, m) {
      NameInjective(k.app, s.rows[k.row].version, m.app, s.rows[m.row].version);
      assert false;
    }
  }

  lemma {:induction false} MaxVersionSame(rows: seq<Deployment>, rows': seq<Deployment>, app: string)
    requires |rows| == |rows'|
    requires forall i :: 0 <= i < |rows| ==> rows[i].app == rows'[i].app && rows[i].version == rows'[i].version
    ensures MaxVersion(rows, app) == MaxVersion(rows', app)
  {
    if rows != [] { MaxVersionSame(rows[..|rows| - 1], rows'[..|rows| - 1], app); }
  }

  lemma SetRowTable(base: nat, s: State, row: nat, container: string, st: Status, ok: bool)
    requires TableInv(base, s) && row < |s.rows| && Recorded(s.rows[row].app, container, s.created, s.verified)
    ensures TableInv(base, s.(rows := Updated(s.rows, row, container, st, ok)))
  {
    var rows := Updated(s.rows, row, container, st, ok);
    forall id, app, v: nat | id in s.created && s.created[id] == ContainerName(app, v) ensures v <= MaxVersion(rows, app) {
      MaxVersionSame(s.rows, rows, app);
    }
  }

  lemma SetRowCall(base: nat, s: State, row: nat, container: string, st: Status, ok: bool, k: Call)
    requires row < |s.rows| && CallOk(base, s.rows, s.created, s.touched, s.verified, k)
    ensures CallOk(base, Updated(s.rows, row, container, st, ok), s.created, s.touched, s.verified, k)
  {
    var rows := Updated(s.rows, row, container, st, ok);
    assert HasRow(k) ==> NameOf(rows, k) == NameOf(s.rows, k);
  }

  lemma SetRow(base: nat, s: State, row: nat, container: string, st: Status, ok: bool)
    requires Inv(base, s) && row < |s.rows| && Recorded(s.rows[row].app, container, s.created, s.verified)
    requires forall d {:trigger s.calls[d]} :: d in s.calls ==> OwnOf(s.calls[d]) != Some(container)
    ensures Inv(base, s.(rows := Updated(s.rows, row, container, st, ok)))
  {
    SetRowTable(base, s, row, container, st, ok);
    var rows := Updated(s.rows, row, container, st, ok);
    forall d | d in s.calls ensures CallOk(base, rows, s.created, s.touched, s.verified, s.calls[d]) {
      SetRowCall(base, s, row, container, st, ok, s.calls[d]);
    }
    SetRowPrivate(s.rows, s.calls, row, container, st, ok);
  }

  lemma SetRowPrivate(rows: seq<Deployment>, calls: map<nat, Call>, row: nat, container: string, st: Status, ok: bool)
    requires AllPrivate(rows, calls) && row < |rows|
    requires forall d {:trigger calls[d]} :: d in calls ==> OwnOf(calls[d]) != Some(container)
    ensures AllPrivate(Updated(rows, row, container, st, ok), calls)
  {
    forall c | c in calls && OwnOf(calls[c]).Some? ensures NotKnown(Updated(rows, row, container, st, ok), calls, OwnOf(calls[c]).value) {
      assert NotKnown(rows, calls, OwnOf(calls[c]).value);
    }
  }

  lemma Touch(base: nat, s: State, hit: set<string>)
    requires Inv(base, s) && hit <= s.created.Keys
    requires forall d {:trigger s.calls[d]} :: d in s.calls && (s.calls[d].Verifying? || s.calls[d].Verified?) ==> s.calls[d].id !in hit
    ensures Inv(base, s.(touched := s.touched + hit))
  {
  }

  lemma AddContainer(base: nat, s: State, id: string, app: string, v: nat)
    requires Inv(base, s) && id !in s.created && v <= MaxVersion(s.rows, app)
    requires forall d {:trigger s.calls[d]} :: d in s.calls && HasRow(s.calls[d]) && s.calls[d].row < |s.rows| ==>
               NameOf(s.rows, s.calls[d]) != ContainerName(app, v)
    ensures Inv(base, s.(created := s.created[id := ContainerName(app, v)]))
  {
    var created := s.created[id := ContainerName(app, v)];
    forall i, b, w: nat | i in created && created[i] == ContainerName(b, w) ensures w <= MaxVersion(s.rows, b) {
      if i == id { NameInjective(app, v, b, w); }
    }
  }

  lemma MarkVerified(base: nat, s: State, id: string, app: string)
    requires Inv(base, s) && id in s.created && NotKnown(s.rows, s.calls, id)
    requires forall d {:trigger s.calls[d]} :: d in s.calls ==> OwnOf(s.calls[d]) != Some(id)
    ensures Inv(base, s.(verified := s.verified[id := app]))
  {
  }

  lemma GrowTable(base: nat, s: State, app: string, image: string)
    requires TableInv(base, s)
    ensures TableInv(base, s.(rows := s.rows + [NewRow(s.rows, app, image)]))
  {
    var row := NewRow(s.rows, app, image);
    var rows := s.rows + [row];
    assert rows[..|s.rows|] == s.rows;
    forall i | 0 <= i < |s.rows| && s.rows[i].app == app ensures s.rows[i].version < row.version {
      MaxVersionBounds(s.rows, app, i);
    }
    forall id, b, v: nat | id in s.created && s.created[id] == ContainerName(b, v) ensures v <= MaxVersion(rows, b) {
      assert v <= MaxVersion(s.rows, b);
    }
  }

  lemma GrowCall(base: nat, s: State, row: Deployment, k: Call)
    requires CallOk(base, s.rows, s.created, s.touched, s.verified, k)
    ensures CallOk(base, s.rows + [row], s.created, s.touched, s.verified, k)
  {
    assert HasRow(k) ==> NameOf(s.rows + [row], k) == NameOf(s.rows, k);
  }

  lemma GrowPrivate(base: nat, s: State, row: Deployment)
    requires Inv(base, s) && row.container == ""
    ensures AllPrivate(s.rows + [row], s.calls)
  {
    forall c | c in s.calls && OwnOf(s.calls[c]).Some? ensures NotKnown(s.rows + [row], s.calls, OwnOf(s.calls[c]).value) {
      assert CallOk(base, s.rows, s.created, s.touched, s.verified, s.calls[c]);
      assert NotKnown(s.rows, s.calls, OwnOf(s.calls[c]).value);
    }
  }

  lemma GrowRows(base: nat, s: State, app: string, image: string)
    requires Inv(base, s)
    ensures Inv(base, s.(rows := s.rows + [NewRow(s.rows, app, image)]))
  {
    var row := NewRow(s.rows, app, image);
    GrowTable(base, s, app, image);
    GrowPrivate(base, s, row);
    forall c | c in s.calls ensures CallOk(base, s.rows + [row], s.created, s.touched, s.verified, s.calls[c]) {
      GrowCall(base, s, row, s.calls[c]);
    }
  }

  lemma AllocatedOk(base: nat, s: State, k: Call, image: string)
    requires TableInv(base, s) && k.HasPrev? && CallOk(base, s.rows, s.created, s.touched, s.verified, k)
    ensures CallOk(base, s.rows + [NewRow(s.rows, k.app, image)],
                   s.created, s.touched, s.verified, Allocated(k.app, k.prev, |s.rows|))
  {
    forall id | id in s.created ensures s.created[id] != ContainerName(k.app, MaxVersion(s.rows, k.app) + 1) { }
  }

  /** What replacing the stage of `c` asks of the others, when the row is new and `prev` is kept. */
  lemma NewRowClash(base: nat, s: State, c: nat, k: Call)
    requires Inv(base, s) && c in s.calls && s.calls[c].HasPrev? && k == Allocated(s.calls[c].app, s.calls[c].prev, |s.rows|)
    ensures forall d {:trigger s.calls[d]} :: d in s.calls && d != c ==>
              (OwnOf(s.calls[d]).Some? ==> PrevOf(k) != OwnOf(s.calls[d]).value)
              && (HasRow(k) && HasRow(s.calls[d]) ==> k.row != s.calls[d].row)
  {
    assert PrevOf(s.calls[c]) == PrevOf(k);
  }

  lemma AllocateKeepsInv(base: nat, s: State, c: nat, k: Call, image: string)
    requires Inv(base, s) && c in s.calls && s.calls[c] == k && k.HasPrev?
    ensures Inv(base, AfterAllocate(s, c, k, image))
  {
    var m := Allocated(k.app, k.prev, |s.rows|);
    var t := s.(rows := s.rows + [NewRow(s.rows, k.app, image)]);
    AllocatedOk(base, s, k, image);
    NewRowClash(base, s, c, m);
    GrowRows(base, s, k.app, image);
    PutCall(base, t, c, m);
  }

  /** The state without the rollback `c`, but with its new container. */
  lemma CreateContainer(base: nat, s: State, c: nat, id: string)
    requires Inv(base, s) && c in s.calls && s.calls[c].Allocated? && s.calls[c].row < |s.rows| && id !in s.created
    ensures Inv(base, s.(calls := s.calls - {c}, created := s.created[id := NameOf(s.rows, s.calls[c])]))
  {
    var k := s.calls[c];
    assert CallOk(base, s.rows, s.created, s.touched, s.verified, k);
    forall d | d in s.calls && d != c && HasRow(s.calls[d])
      ensures s.calls[d].row < |s.rows| && NameOf(s.rows, s.calls[d]) != NameOf(s.rows, k)
    {
      NamesDiffer(base, s, c, d);
    }
    DropCall(base, s, c);
    MaxVersionBounds(s.rows, k.app, k.row);
    AddContainer(base, s.(calls := s.calls - {c}), id, k.app, s.rows[k.row].version);
  }

  /** `k` can stand in for the rollback `c`: same row, and nothing new to replace. */
  ghost predicate StandsFor(calls: map<nat, Call>, c: nat, k: Call) {
    && c in calls && (PrevOf(k) == "" || PrevOf(k) == PrevOf(calls[c]))
    && HasRow(k) && HasRow(calls[c]) && k.row == calls[c].row
  }

  lemma StandInClash(base: nat, s: State, c: nat, k: Call)
    requires Inv(base, s) && StandsFor(s.calls, c, k)
    ensures forall d {:trigger s.calls[d]} :: d in s.calls && d != c ==>
              (OwnOf(s.calls[d]).Some? ==> PrevOf(k) != OwnOf(s.calls[d]).value)
              && (HasRow(k) && HasRow(s.calls[d]) ==> k.row != s.calls[d].row)
  {
    forall d | d in s.calls && d != c && OwnOf(s.calls[d]).Some? ensures PrevOf(k) != OwnOf(s.calls[d]).value {
      assert CallOk(base, s.rows, s.created, s.touched, s.verified, s.calls[d]);
    }
  }

  /** Puts the rollback `c` back at a new stage, after the rest of the state went from `s` to `t`. */
  lemma PutBack(base: nat, s: State, t: State, c: nat, k: Call)
    requires Inv(base, s) && StandsFor(s.calls, c, k)
    requires Inv(base, t) && t.calls == s.calls - {c}
    requires CallOk(base, t.rows, t.created, t.touched, t.verified, k)
    requires OwnOf(k).Some? ==> NotKnown(t.rows, s.calls, OwnOf(k).value) && OwnOf(k).value != ""
    ensures Inv(base, t.(calls := s.calls[c := k]))
  {
    StandInClash(base, s, c, k);
    assert t.calls[c := k] == s.calls[c := k];
    PutCall(base, t, c, k);
  }

  lemma FreshIsNotKnown(base: nat, s: State, id: string)
    requires Inv(base, s) && id !in s.created && id != ""
    ensures NotKnown(s.rows, s.calls, id) && id !in s.verified && id !in s.touched
  {
    forall d | d in s.calls ensures PrevOf(s.calls[d]) != id {
      assert CallOk(base, s.rows, s.created, s.touched, s.verified, s.calls[d]);
    }
    forall i | 0 <= i < |s.rows| ensures s.rows[i].container != id {
      assert Recorded(s.rows[i].app, s.rows[i].container, s.created, s.verified);
    }
  }

  lemma CreateKeepsInv(base: nat, s: State, c: nat, k: Call, id: string)
    requires Inv(base, s) && c in s.calls && s.calls[c] == k && k.Allocated? && k.row < |s.rows| && id !in s.created && id != ""
    ensures Inv(base, AfterCreate(s, c, k, id))
  {
    CallIsOk(base, s, c);
    FreshIsNotKnown(base, s, id);
    CreateContainer(base, s, c, id);
    var t := s.(calls := s.calls - {c}, created := s.created[id := NameOf(s.rows, k)]);
    PutBack(base, s, t, c, Verifying(k.app, k.prev, k.row, id, 0));
  }

  lemma CreateErrKeepsInv(base: nat, s: State, c: nat, k: Call, partial: Option<string>)
    requires Inv(base, s) && c in s.calls && s.calls[c] == k && k.Allocated? && k.row < |s.rows|
    requires partial.Some? ==> partial.value !in s.created && partial.value != ""
    ensures Inv(base, AfterCreateErr(s, c, k, partial))
  {
    if partial.Some? {
      PartialKeepsInv(base, s, c, k, partial.value);
    } else {
      CallIsOk(base, s, c);
      DropCall(base, s, c);
      PutBack(base, s, s.(calls := s.calls - {c}), c, CreateFailed(k.app, k.row, partial, 0));
    }
  }

  lemma PartialKeepsInv(base: nat, s: State, c: nat, k: Call, id: string)
    requires Inv(base, s) && c in s.calls && s.calls[c] == k && k.Allocated? && k.row < |s.rows| && id !in s.created && id != ""
    ensures Inv(base, AfterCreateErr(s, c, k, Some(id)))
  {
    CallIsOk(base, s, c);
    FreshIsNotKnown(base, s, id);
    CreateContainer(base, s, c, id);
    var t := s.(calls := s.calls - {c}, created := s.created[id := NameOf(s.rows, k)]);
    PutBack(base, s, t, c, CreateFailed(k.app, k.row, Some(id), 0));
  }

  lemma OwnUnique(base: nat, s: State, c: nat)
    requires Inv(base, s) && c in s.calls && OwnOf(s.calls[c]).Some?
    ensures forall d {:trigger s.calls[d]} :: d in s.calls && d != c ==> OwnOf(s.calls[d]) != OwnOf(s.calls[c])
  {
    forall d | d in s.calls && d != c ensures OwnOf(s.calls[d]) != OwnOf(s.calls[c]) {
      if HasRow(s.calls[d]) { NamesDiffer(base, s, c, d); }
    }
  }

  lemma SeenUpKeepsInv(base: nat, s: State, c: nat)
    requires Inv(base, s) && c in s.calls && s.calls[c].Verifying?
    ensures var k := s.calls[c];
            Inv(base, s.(verified := s.verified[k.id := k.app], calls := s.calls[c := Verified(k.app, k.prev, k.row, k.id, 0)]))
  {
    var k := s.calls[c];
    var t := s.(calls := s.calls - {c});
    assert CallOk(base, s.rows, s.created, s.touched, s.verified, k);
    DropCall(base, s, c);
    OwnUnique(base, s, c);
    MarkVerified(base, t, k.id, k.app);
    PutBack(base, s, t.(verified := s.verified[k.id := k.app]), c, Verified(k.app, k.prev, k.row, k.id, 0));
  }

  lemma PollKeepsInv(base: nat, s: State, c: nat, k: Call, stats: Stats)
    requires Inv(base, s) && c in s.calls && s.calls[c] == k && k.Verifying?
    ensures Inv(base, AfterLook(s, c, k, stats))
  {
    if stats == Up {
      SeenUpKeepsInv(base, s, c);
    } else {
      CallIsOk(base, s, c);
      DropCall(base, s, c);
      PutBack(base, s, s.(calls := s.calls - {c}), c, AfterPoll(k, stats));
    }
  }

  /** Stopping or removing containers no other rollback is verifying or has verified. */
  lemma TouchAndGo(base: nat, s: State, c: nat, hit: set<string>, k: Option<Call>)
    requires Inv(base, s) && c in s.calls && hit <= s.created.Keys
    requires forall d {:trigger s.calls[d]} :: d in s.calls && d != c && (s.calls[d].Verifying? || s.calls[d].Verified?) ==> s.calls[d].id !in hit
    requires k.Some? ==> StandsFor(s.calls, c, k.value) && OwnOf(k.value) == OwnOf(s.calls[c])
                         && CallOk(base, s.rows, s.created, s.touched + hit, s.verified, k.value)
    ensures Inv(base, s.(touched := s.touched + hit, calls := if k.Some? then s.calls[c := k.value] else s.calls - {c}))
  {
    var t := s.(calls := s.calls - {c});
    DropCall(base, s, c);
    Touch(base, t, hit);
    if k.Some? {
      assert CallOk(base, s.rows, s.created, s.touched, s.verified, s.calls[c]);
      PutBack(base, s, t.(touched := s.touched + hit), c, k.value);
    }
  }

  /** Recording the outcome of a rollback in its row, the last thing it does. */
  lemma RecordAndGo(base: nat, s: State, c: nat, st: Status, ok: bool)
    requires Inv(base, s) && c in s.calls && (s.calls[c].Unhealthy? || s.calls[c].Verified?) && s.calls[c].row < |s.rows|
    ensures Inv(base, s.(rows := Updated(s.rows, s.calls[c].row, s.calls[c].id, st, ok), calls := s.calls - {c}))
  {
    var k := s.calls[c];
    assert CallOk(base, s.rows, s.created, s.touched, s.verified, k);
    OwnUnique(base, s, c);
    DropCall(base, s, c);
    SetRow(base, s.(calls := s.calls - {c}), k.row, k.id, st, ok);
  }

  lemma RecordFailed(base: nat, s: State, c: nat, k: Call, ok: bool)
    requires Inv(base, s) && c in s.calls && s.calls[c] == k && k.CreateFailed? && k.row < |s.rows|
    ensures Inv(base, s.(rows := Updated(s.rows, k.row, "", Failed, ok), calls := s.calls[c := NextStage(k)]))
  {
    var t := s.(calls := s.calls - {c});
    assert CallOk(base, s.rows, s.created, s.touched, s.verified, k);
    DropCall(base, s, c);
    forall d | d in t.calls ensures OwnOf(t.calls[d]) != Some("") {
      assert CallOk(base, s.rows, s.created, s.touched, s.verified, s.calls[d]);
    }
    SetRow(base, t, k.row, "", Failed, ok);
    SetRowCall(base, s, k.row, "", Failed, ok, NextStage(k));
    PutBack(base, s, t.(rows := Updated(s.rows, k.row, "", Failed, ok)), c, NextStage(k));
  }

  /** Cleaning up by name after a failed creation reaches no container but the partly created one. */
  lemma CleanupHitsOwn(base: nat, s: State, c: nat)
    requires Inv(base, s) && c in s.calls && s.calls[c].CreateFailed?
    ensures s.calls[c].row < |s.rows|
    ensures Named(s.created, NameOf(s.rows, s.calls[c])) == if s.calls[c].partial.Some? then {s.calls[c].partial.value} else {}
  {
    assert CallOk(base, s.rows, s.created, s.touched, s.verified, s.calls[c]);
  }

  /** Only the replaced container of another rollback, or one's own, is ever hit. */
  lemma HitSpares(base: nat, s: State, c: nat, k: Call)
    requires Inv(base, s) && c in s.calls && s.calls[c] == k && Closing(k) && k.row < |s.rows|
    ensures Hit(s, k) <= s.created.Keys
    ensures forall d {:trigger s.calls[d]} :: d in s.calls && d != c && (s.calls[d].Verifying? || s.calls[d].Verified?) ==> s.calls[d].id !in Hit(s, k)
  {
    CallIsOk(base, s, c);
    if k.CreateFailed? { CleanupHitsOwn(base, s, c); }
    if OwnOf(k).Some? { OwnUnique(base, s, c); }
    forall d | d in s.calls && d != c && (s.calls[d].Verifying? || s.calls[d].Verified?) ensures s.calls[d].id !in Hit(s, k) {
      CallIsOk(base, s, d);
      assert PrevOf(s.calls[c]) != s.calls[d].id;
    }
  }

  /** A closing call that only stops or removes. */
  lemma TouchKeepsInv(base: nat, s: State, c: nat, k: Call)
    requires Inv(base, s) && c in s.calls && s.calls[c] == k && Closing(k) && k.row < |s.rows|
    requires if k.CreateFailed? then k.stage > 0 else k.stage < 2
    ensures Inv(base, s.(touched := s.touched + Hit(s, k), calls := if k.stage < 2 then s.calls[c := NextStage(k)] else s.calls - {c}))
  {
    CallIsOk(base, s, c);
    HitSpares(base, s, c, k);
    assert k.Verified? ==> PrevOf(s.calls[c]) != k.id;
    TouchAndGo(base, s, c, Hit(s, k), if k.stage < 2 then Some(NextStage(k)) else None);
  }

  lemma CloseKeepsInv(base: nat, s: State, c: nat, k: Call, ok: bool)
    requires Inv(base, s) && c in s.calls && s.calls[c] == k && Closing(k) && k.row < |s.rows|
    ensures Inv(base, AfterClose(s, c, k, ok))
  {
    assert s.touched + {} == s.touched;
    if k.CreateFailed? && k.stage == 0 {
      RecordFailed(base, s, c, k, ok);
    } else if k.CreateFailed? || k.stage < 2 {
      TouchKeepsInv(base, s, c, k);
    } else {
      RecordAndGo(base, s, c, if k.Verified? then Running else Failed, ok);
    }
  }

  /** A creation that reports success gives an ID, and a partly created container has one. */
  predicate NonEmptyIds(a: Action) {
    (a.Create? ==> a.id != "") && (a.CreateErr? ==> a.partial != Some(""))
  }

  lemma StepKeepsInv(base: nat, s: State, a: Action)
    requires Inv(base, s) && NonEmptyIds(a) && Step(s, a).Some?
    ensures Inv(base, Step(s, a).value)
  {
    match a
    case Start(c, app, readOk) => StartKeepsInv(base, s, c, app, readOk);
    case Abort(c) => DropCall(base, s, c);
    case Allocate(c, image) => AllocateKeepsInv(base, s, c, s.calls[c], image);
    case Create(c, id) => CreateKeepsInv(base, s, c, s.calls[c], id);
    case CreateErr(c, partial) => CreateErrKeepsInv(base, s, c, s.calls[c], partial);
    case Poll(c, stats) => PollKeepsInv(base, s, c, s.calls[c], stats);
    case Close(c, ok) => CloseKeepsInv(base, s, c, s.calls[c], ok);
  }

  /** Any table and any containers to begin with, as long as no container is named after a version not yet allocated. */
  ghost predicate Initial(s: State) {
    s.calls == map[] && TableInv(|s.rows|, s)
  }

  ghost predicate SafeRun(run: seq<Action>) { forall i :: 0 <= i < |run| ==> NonEmptyIds(run[i]) }

  lemma {:induction false} InvOverRuns(base: nat, s: State, run: seq<Action>)
    requires Inv(base, s) && SafeRun(run) && Run(s, run).Some?
    ensures Inv(base, Run(s, run).value)
  {
    if run != [] {
      InvOverRuns(base, s, run[..|run| - 1]);
      StepKeepsInv(base, Run(s, run[..|run| - 1]).value, run[|run| - 1]);
    }
  }

  // ---- Availability ----

  /** A container its rollback saw running and nobody has asked to stop since. */
  predicate Serving(s: State, app: string, id: string) {
    id in s.verified && s.verified[id] == app && id !in s.touched
  }

  /** What a step does to the record of stopped and of verified containers. */
  lemma StepEffects(s: State, a: Action)
    requires Step(s, a).Some?
    ensures var t := Step(s, a).value;
            && s.created.Keys <= t.created.Keys
            && t.touched == (if a.Close? then s.touched + Hit(s, s.calls[a.c]) else s.touched)
            && t.verified == (if a.Poll? && a.stats == Up then s.verified[s.calls[a.c].id := s.calls[a.c].app] else s.verified)
  {
  }

  lemma HitLaw(base: nat, s: State, c: nat, k: Call, x: string)
    requires Inv(base, s) && c in s.calls && s.calls[c] == k && Closing(k) && k.row < |s.rows| && x in Hit(s, k)
    ensures || (x !in s.verified && OwnOf(k) == Some(x))
            || (k.Verified? && x == k.prev && x != k.id && (x in s.verified ==> s.verified[x] == k.app)
                && Serving(s, k.app, k.id) && k.id !in Hit(s, k))
  {
    CallIsOk(base, s, c);
    if k.CreateFailed? { CleanupHitsOwn(base, s, c); }
    assert k.Verified? ==> PrevOf(s.calls[c]) != k.id;
  }

  /** Who may stop or remove what: a rollback its own unhealthy or partly created container, or, once it has seen its own
      container running, the one it replaces; its own is then still serving. */
  lemma TouchLaw(base: nat, s: State, a: Action, x: string)
    requires Inv(base, s) && Step(s, a).Some? && x in Step(s, a).value.touched && x !in s.touched
    ensures a.Close? && a.c in s.calls
    ensures var k := s.calls[a.c];
            || (x !in s.verified && OwnOf(k) == Some(x))
            || (k.Verified? && x == k.prev && x != k.id && (x in s.verified ==> s.verified[x] == k.app)
                && Serving(Step(s, a).value, k.app, k.id))
  {
    StepEffects(s, a);
    HitLaw(base, s, a.c, s.calls[a.c], x);
  }

  lemma VerifiedStays(base: nat, s: State, a: Action, app: string, id: string)
    requires Inv(base, s) && Step(s, a).Some? && Serving(s, app, id)
    ensures id in Step(s, a).value.verified && Step(s, a).value.verified[id] == app
  {
    StepEffects(s, a);
    if a.Poll? { CallIsOk(base, s, a.c); }
  }

  lemma AvailableStep(base: nat, s: State, a: Action, app: string, id: string)
    requires Inv(base, s) && NonEmptyIds(a) && Step(s, a).Some? && Serving(s, app, id)
    ensures exists x :: Serving(Step(s, a).value, app, x)
  {
    VerifiedStays(base, s, a, app, id);
    var t := Step(s, a).value;
    if id in t.touched {
      TouchLaw(base, s, a, id);
      assert Serving(t, app, s.calls[a.c].id);
    } else {
      assert Serving(t, app, id);
    }
  }

  lemma InitialInv(s: State)
    requires Initial(s)
    ensures Inv(|s.rows|, s)
  {
  }

  ghost predicate Available(s: State, app: string) { exists id :: Serving(s, app, id) }

  /** Availability: from the moment an application has a serving container it always has one, however many rollbacks run at
      the same time, whatever the store, the creation and the statistics answer. */
  lemma {:induction false} AlwaysAvailable(s: State, run: seq<Action>, n: nat, app: string)
    requires Initial(s) && SafeRun(run) && Run(s, run).Some? && n <= |run|
    requires Run(s, run[..n]).Some? && Available(Run(s, run[..n]).value, app)
    ensures Available(Run(s, run).value, app)
  {
    if n == |run| {
      assert run[..n] == run;
    } else {
      var front := run[..|run| - 1];
      assert front[..n] == run[..n];
      AlwaysAvailable(s, front, n, app);
      InitialInv(s);
      InvOverRuns(|s.rows|, s, front);
      var t := Run(s, front).value;
      var x :| Serving(t, app, x);
      AvailableStep(|s.rows|, t, run[|run| - 1], app, x);
    }
  }

  lemma TwoSteps(s: State, a: Action, b: Action)
    requires Step(s, a).Some?
    ensures Run(s, [a, b]) == Step(Step(s, a).value, b)
  {
    assert [a, b][..1] == [a] && [a][..0] == [];
    assert Run(s, [a]) == Step(s, a);
  }

  lemma NoneLeft(s: State, u: State, app: string, prev: string)
    requires u.verified == s.verified && u.touched == s.touched + {prev}
    requires forall x :: Serving(s, app, x) ==> x == prev
    ensures !Available(u, app)
  {
    forall x ensures !Serving(u, app, x) {
      assert Serving(u, app, x) ==> Serving(s, app, x);
    }
  }

  lemma EmptyIdSteps(s: State, c: nat)
    requires c in s.calls && s.calls[c].Allocated? && s.calls[c].row < |s.rows| && "" !in s.created && s.calls[c].prev != ""
    ensures Step(s, Create(c, "")).Some? && Step(Step(s, Create(c, "")).value, Close(c, true)).Some?
    ensures var u := Step(Step(s, Create(c, "")).value, Close(c, true)).value;
            u.verified == s.verified && u.touched == s.touched + {s.calls[c].prev}
  {
  }

  /** The whole family the condition on IDs shuts out: a creation that reports success with an empty ID skips the
      verification, and the next call stops the only serving container. */
  lemma EmptyIdLosesService(base: nat, s: State, c: nat)
    requires Inv(base, s) && c in s.calls && s.calls[c].Allocated? && "" !in s.created
    requires s.calls[c].prev != "" && forall x :: Serving(s, s.calls[c].app, x) ==> x == s.calls[c].prev
    ensures Run(s, [Create(c, ""), Close(c, true)]).Some?
    ensures !Available(Run(s, [Create(c, ""), Close(c, true)]).value, s.calls[c].app)
  {
    assert CallOk(base, s.rows, s.created, s.touched, s.verified, s.calls[c]);
    EmptyIdSteps(s, c);
    TwoSteps(s, Create(c, ""), Close(c, true));
    NoneLeft(s, Run(s, [Create(c, ""), Close(c, true)]).value, s.calls[c].app, s.calls[c].prev);
  }

  // ---- Reaching states ----

  /** Some run of the protocol takes `s` to `t`. */
  ghost predicate Leads(s: State, t: State) { exists run :: SafeRun(run) && Run(s, run) == Some(t) }

  lemma OneStepLeads(s: State, a: Action)
    requires NonEmptyIds(a) && Step(s, a).Some?
    ensures Leads(s, Step(s, a).value)
  {
    assert [a][..0] == [] && SafeRun([a]);
    assert Run(s, [a]) == Step(s, a);
  }

  lemma {:induction false} RunAppend(s: State, run: seq<Action>, more: seq<Action>)
    requires Run(s, run).Some?
    ensures Run(s, run + more) == Run(Run(s, run).value, more)
  {
    if more == [] {
      assert run + more == run;
    } else {
      assert (run + more)[..|run + more| - 1] == run + more[..|more| - 1];
      RunAppend(s, run, more[..|more| - 1]);
    }
  }

  lemma LeadsThen(s: State, t: State, u: State)
    requires Leads(s, t) && Leads(t, u)
    ensures Leads(s, u)
  {
    var run :| SafeRun(run) && Run(s, run) == Some(t);
    var more :| SafeRun(more) && Run(t, more) == Some(u);
    RunAppend(s, run, more);
    assert SafeRun(run + more);
  }

  lemma LeadsKeepsInv(base: nat, s: State, t: State)
    requires Inv(base, s) && Leads(s, t)
    ensures Inv(base, t)
  {
    var run :| SafeRun(run) && Run(s, run) == Some(t);
    InvOverRuns(base, s, run);
  }

  lemma NoStepLeads(s: State)
    ensures Leads(s, s)
  {
    assert SafeRun([]) && Run(s, []) == Some(s);
  }

  /** Reached from some initial state by rollbacks. */
  ghost predicate Reachable(m: State) { exists s0 :: Initial(s0) && Leads(s0, m) }

  lemma ReachableInv(m: State) returns (base: nat)
    requires Reachable(m)
    ensures Inv(base, m)
  {
    var s0 :| Initial(s0) && Leads(s0, m);
    InitialInv(s0);
    LeadsKeepsInv(|s0.rows|, s0, m);
    base := |s0.rows|;
  }

  lemma ReachableThen(m: State, t: State)
    requires Reachable(m) && Leads(m, t)
    ensures Reachable(t)
  {
    var s0 :| Initial(s0) && Leads(s0, m);
    LeadsThen(s0, m, t);
  }
}
