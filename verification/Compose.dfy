/** Compose stacks: startup order by depends_on, and deployment with rollback. */
module Compose {
  import opened Options
  import opened Graphs

  /** The shapes `depends_on` takes after YAML decoding. */
  datatype DependsOn = Absent | List(items: seq<Name>) | Mapping(entries: set<Name>) | OtherShape

  /** A decoded service; a null entry in the file is `Nil`. */
  datatype Service = Nil | Service(dependsOn: DependsOn)

  type File = map<Name, Service>

  function Names(d: DependsOn): set<Name> {
    match d
    case List(items) => set n | n in items
    case Mapping(entries) => entries
    case _ => {}
  }

  /** Only non-null services have dependencies. */
  function GraphOf(cf: File): Graph {
    map n | n in cf :: if cf[n].Nil? then {} else Names(cf[n].dependsOn)
  }

  /** The file lists `d` under the depends_on of the service `n`. */
  predicate Lists(cf: File, n: Name, d: Name) {
    n in cf && cf[n].Service? && ((cf[n].dependsOn.List? && d in cf[n].dependsOn.items) || (cf[n].dependsOn.Mapping? && d in cf[n].dependsOn.entries))
  }

  /** The edges of the graph are exactly the depends_on entries of the file. */
  lemma EdgesAreListed(cf: File)
    ensures forall n, d :: d in Deps(GraphOf(cf), n) <==> Lists(cf, n, d)
  {
    forall n, d ensures d in Deps(GraphOf(cf), n) <==> Lists(cf, n, d) {
      if n in cf && cf[n].Service? { assert d in Deps(GraphOf(cf), n) <==> d in Names(cf[n].dependsOn); }
    }
  }

  /** Every service and every name some service mentions. */
  ghost function Mentioned(cf: File): set<Name> {
    cf.Keys + set n, d | n in cf && d in GraphOf(cf)[n] :: d
  }

  /** `name` is a service or is reached from one through depends_on. */
  ghost predicate Needed(cf: File, name: Name) {
    name in cf || exists root :: root in cf && Reaches(GraphOf(cf), root, name)
  }

  method ParseDependsOn(d: DependsOn) returns (deps: seq<Name>)
    ensures (set n | n in deps) == Names(d)
    ensures d.List? ==> deps == d.items
    ensures d.Mapping? ==> (set n | n in deps) == d.entries
    ensures d.Absent? || d.OtherShape? ==> deps == []
  {
    deps := [];
    match d {
      case List(items) =>
        for i := 0 to |items|
          invariant deps == items[..i]
        {
          deps := deps + [items[i]];
        }
        assert deps == items;
      case Mapping(entries) =>
        var left := entries;
        while left != {}
          invariant left <= entries && (set n | n in deps) == entries - left
          decreases left
        {
          var key :| key in left;
          assert (set n | n in deps + [key]) == (set n | n in deps) + {key};
          deps := deps + [key];
          left := left - {key};
        }
      case _ =>
    }
  }

  /** The variables captured by the depth-first closure of `DependencyOrder`. */
  class Planner {
    var visited: set<Name>
    var order: seq<Name>

    constructor ()
      ensures visited == {} && order == []
    {
      visited, order := {}, [];
    }

    /** Entered but not yet listed: the names on the recursion stack. */
    ghost function Open(): set<Name> reads this { visited - set n | n in order }

    ghost predicate Inv(cf: File) reads this {
      && NoDuplicates(order) && DepsFirstUpToCycles(GraphOf(cf), order)
      && (set n | n in order) <= visited <= Mentioned(cf)
      && (forall n, d :: n in order && d in Deps(GraphOf(cf), n) ==> d in visited)
    }

    method Visit(cf: File, name: Name)
      requires Inv(cf) && name in Mentioned(cf)
      requires forall v :: v in Open() ==> Reaches(GraphOf(cf), v, name)
      modifies this
      ensures Inv(cf)
      ensures Open() == old(Open())
      ensures old(visited) + {name} <= visited
      decreases Mentioned(cf) - visited
    {
      ghost var g := GraphOf(cf);
      if name in visited {
        return;
      }
      visited := visited + {name};
      assert name in Open();
      ghost var mine := Open();
      assert mine == old(Open()) + {name};
      if name in cf && !cf[name].Nil? {
        var deps := ParseDependsOn(cf[name].dependsOn);
        assert forall d :: d in deps <==> d in Deps(g, name);
        for k := 0 to |deps|
          invariant Inv(cf) && Open() == mine
          invariant old(visited) + {name} <= visited
          invariant forall j :: 0 <= j < k ==> deps[j] in visited
        {
          assert deps[k] in g[name] && name in Mentioned(cf) - old(visited);
          forall v | v in Open() ensures Reaches(g, v, deps[k]) {
            if v == name { EdgeReaches(g, name, deps[k]); } else { ReachesThen(g, v, name, deps[k]); }
          }
          Visit(cf, deps[k]);
        }
      }
      assert name in Open();
      forall d | d in Deps(g, name) ensures d in order || Reaches(g, d, name) {
        if d !in order {
          assert d in Open();
          if d == name { EdgeReaches(g, name, name); }
        }
      }
      AppendKeepsOrder(g, order, name);
      order := order + [name];
      assert Open() == mine - {name};
    }
  }

  lemma AppendKeepsOrder(g: Graph, s: seq<Name>, name: Name)
    requires DepsFirstUpToCycles(g, s)
    requires forall d :: d in Deps(g, name) ==> d in s || Reaches(g, d, name)
    ensures DepsFirstUpToCycles(g, s + [name])
  {
    var t := s + [name];
    forall i, d | 0 <= i < |t| && d in Deps(g, t[i]) ensures d in t[..i] || Reaches(g, d, t[i]) {
      if i < |s| { assert t[..i] == s[..i]; } else { assert t[..i] == s; }
    }
  }

  lemma {:induction false} WalkStaysMentioned(cf: File, u: Name, via: seq<Name>, v: Name)
    requires Walk(GraphOf(cf), u, via, v)
    ensures v in Mentioned(cf)
    decreases |via|
  {
    if via == [] {
      assert v in GraphOf(cf)[u];
    } else {
      WalkStaysMentioned(cf, via[0], via[1..], v);
    }
  }

  /** The names mentioned in the file are exactly those reachable from its services. */
  lemma MentionedIsNeeded(cf: File)
    ensures forall n :: n in Mentioned(cf) <==> Needed(cf, n)
  {
    var g := GraphOf(cf);
    forall n ensures n in Mentioned(cf) <==> Needed(cf, n) {
      if n in Mentioned(cf) && n !in cf {
        var root, d :| root in cf && d in g[root] && d == n;
        EdgeReaches(g, root, n);
      }
      if Needed(cf, n) && n !in cf {
        var root :| root in cf && Reaches(g, root, n);
        var via :| Walk(g, root, via, n);
        WalkStaysMentioned(cf, root, via, n);
      }
    }
  }

  /** Total on every file, cyclic or not, for every iteration order of its maps. */
  method DependencyOrder(cf: File) returns (order: seq<Name>)
    ensures NoDuplicates(order)
    ensures forall n :: n in order <==> Needed(cf, n)
    ensures DepsFirstUpToCycles(GraphOf(cf), order)
    ensures Acyclic(GraphOf(cf)) ==> forall i, d :: 0 <= i < |order| && Lists(cf, order[i], d) ==> d in order[..i]
  {
    EdgesAreListed(cf);
    var p := new Planner();
    var todo := cf.Keys;
    while todo != {}
      invariant p.Inv(cf) && p.Open() == {}
      invariant todo <= cf.Keys && cf.Keys - todo <= p.visited
      decreases todo
    {
      var name :| name in todo;
      p.Visit(cf, name);
      todo := todo - {name};
    }
    order := p.order;
    forall n | n in p.visited ensures n in order {
      assert n !in p.Open();
    }
    forall n | n in Mentioned(cf) ensures n in order {
      if n !in cf {
        var root, d :| root in cf && d in GraphOf(cf)[root] && d == n;
        assert root in order;
      }
    }
    MentionedIsNeeded(cf);
    if Acyclic(GraphOf(cf)) {
      AcyclicOrderIsStrict(GraphOf(cf), order);
    }
  }


  type ContainerId = string

  datatype DeployResult = Deployed | NetworkFailed | ServiceFailed(svc: Name)

  /** Services that get a container: the non-null entries. */
  predicate Live(cf: File, n: Name) { n in cf && cf[n] != Nil }

  /** Every dependency that is itself a live service was started before its dependent. */
  ghost predicate LiveDepsFirst(cf: File, created: seq<Name>) {
    forall i, d :: 0 <= i < |created| && Lists(cf, created[i], d) && Live(cf, d) ==> d in created[..i]
  }

  datatype Container = Container(svc: Name, running: bool)

  type Host = map<ContainerId, Container>

  /** What the container runtime answers during one deployment: the container each
      service gets (or a failure), and which stops and removals succeed. */
  datatype Runtime = Runtime(create: Name -> Option<ContainerId>, stoppable: ContainerId -> bool, removable: ContainerId -> bool)

  /** Container IDs are new to the host and never handed out twice. */
  ghost predicate FreshIds(rt: Runtime, existing: Host) {
    && (forall n :: rt.create(n).Some? ==> rt.create(n).value !in existing)
    && (forall m, n :: m != n && rt.create(m).Some? && rt.create(n).Some? ==> rt.create(m).value != rt.create(n).value)
  }

  /** The containers started for `ns`. */
  ghost function Started(rt: Runtime, ns: seq<Name>): Host
    requires forall n :: n in ns ==> rt.create(n).Some?
  {
    if ns == [] then map[]
    else Started(rt, ns[..|ns| - 1])[rt.create(ns[|ns| - 1]).value := Container(ns[|ns| - 1], true)]
  }

  /** A container after the attempt to stop it. */
  function Halted(rt: Runtime, id: ContainerId, x: Container): Container { if rt.stoppable(id) then x.(running := false) else x }

  /** The part of `m` whose removal the runtime refuses; it stops running unless the stop is refused too. */
  ghost function Stuck(rt: Runtime, m: Host): Host {
    map id | id in m && !rt.removable(id) :: Halted(rt, id, m[id])
  }

  lemma {:induction false} StartedKeys(rt: Runtime, ns: seq<Name>)
    requires forall n :: n in ns ==> rt.create(n).Some?
    ensures forall id :: id in Started(rt, ns) <==> exists n :: n in ns && rt.create(n).value == id
  {
    if ns != [] {
      var front, last := ns[..|ns| - 1], ns[|ns| - 1];
      StartedKeys(rt, front);
      assert ns == front + [last];
    }
  }

  /** Every service of `ns` has its own running container, and nothing else was started. */
  lemma {:induction false} StartedMeans(rt: Runtime, host: Host, ns: seq<Name>)
    requires FreshIds(rt, host) && forall n :: n in ns ==> rt.create(n).Some?
    ensures forall n :: n in ns ==> rt.create(n).value in Started(rt, ns) && Started(rt, ns)[rt.create(n).value] == Container(n, true)
    ensures forall id :: id in Started(rt, ns) ==> id !in host && exists n :: n in ns && rt.create(n) == Some(id)
  {
    if ns != [] {
      StartedMeans(rt, host, ns[..|ns| - 1]);
      assert ns == ns[..|ns| - 1] + [ns[|ns| - 1]];
    }
  }

  /** What a failed deployment leaves: every container of before as it was, and of its own only those whose removal was
      refused, stopped unless that was refused as well. */
  lemma FailureLeaves(rt: Runtime, host: Host, ns: seq<Name>, id: ContainerId)
    requires FreshIds(rt, host) && forall n :: n in ns ==> rt.create(n).Some?
    ensures var left := host + Stuck(rt, Started(rt, ns));
            && (id in host ==> id in left && left[id] == host[id])
            && (id in left && id !in host <==> exists n :: n in ns && rt.create(n) == Some(id) && !rt.removable(id))
            && (id in left && id !in host && rt.stoppable(id) ==> !left[id].running)
  {
    StartedMeans(rt, host, ns);
  }

  /** `host` after an attempt to stop and then to remove each of `ids`. */
  ghost function Remaining(rt: Runtime, host: Host, ids: seq<ContainerId>): Host {
    map id | id in host && !(id in ids && rt.removable(id)) :: if id in ids then Halted(rt, id, host[id]) else host[id]
  }

  lemma IdsAreStarted(rt: Runtime, created: seq<Name>, ids: seq<ContainerId>, id: ContainerId)
    requires forall n :: n in created ==> rt.create(n).Some?
    requires |ids| == |created| && forall i :: 0 <= i < |ids| ==> ids[i] == rt.create(created[i]).value
    ensures id in ids <==> id in Started(rt, created)
  {
    StartedKeys(rt, created);
    if id in Started(rt, created) {
      var n :| n in created && rt.create(n).value == id;
      var i :| 0 <= i < |created| && created[i] == n;
      assert ids[i] == id;
    }
  }

  lemma TornDown(rt: Runtime, host: Host, started: Host, ids: seq<ContainerId>)
    requires forall id :: id in ids <==> id in started
    requires forall id :: id in started ==> id !in host
    ensures Remaining(rt, host + started, ids) == host + Stuck(rt, started)
  {
  }

  lemma RollbackLeaves(rt: Runtime, host: Host, created: seq<Name>, ids: seq<ContainerId>)
    requires FreshIds(rt, host) && forall n :: n in created ==> rt.create(n).Some?
    requires |ids| == |created| && forall i :: 0 <= i < |ids| ==> ids[i] == rt.create(created[i]).value
    ensures Remaining(rt, host + Started(rt, created), ids) == host + Stuck(rt, Started(rt, created))
  {
    forall id ensures id in ids <==> id in Started(rt, created) { IdsAreStarted(rt, created, ids, id); }
    forall id | id in Started(rt, created) ensures id !in host { StartedKeys(rt, created); }
    TornDown(rt, host, Started(rt, created), ids);
  }

  lemma RemainingStep(rt: Runtime, host: Host, ids: seq<ContainerId>, i: nat)
    requires i < |ids|
    ensures var m, id := Remaining(rt, host, ids[..i]), ids[i];
            var stopped := if rt.stoppable(id) && id in m then m[id := m[id].(running := false)] else m;
            Remaining(rt, host, ids[..i + 1]) == if rt.removable(id) then stopped - {id} else stopped
  {
    assert ids[..i + 1] == ids[..i] + [ids[i]];
    assert forall x :: x in ids[..i + 1] <==> x in ids[..i] || x == ids[i];
  }

  class StackDeployer {
    var containers: Host   // the containers there are, and the service each serves

    /** Errors are ignored: exactly the removable containers go away, and the stoppable ones among the rest stop. */
    method Rollback(rt: Runtime, ids: seq<ContainerId>)
      modifies this
      ensures containers == Remaining(rt, old(containers), ids)
    {
      for i := 0 to |ids|
        invariant containers == Remaining(rt, old(containers), ids[..i])
      {
        RemainingStep(rt, old(containers), ids, i);
        if rt.stoppable(ids[i]) && ids[i] in containers {
          containers := containers[ids[i] := containers[ids[i]].(running := false)];
        }
        if rt.removable(ids[i]) {
          containers := containers - {ids[i]};
        }
      }
      assert ids[..|ids|] == ids;
    }

    /** A successful deployment starts every service once, dependencies first on acyclic files;
        a failed one leaves the host as it was, apart from containers the runtime refused to remove, stopped
        where stopping worked. */
    method Deploy(cf: File, networkOk: bool, rt: Runtime) returns (r: DeployResult, created: seq<Name>)
      requires FreshIds(rt, containers)
      modifies this
      ensures forall n :: n in created ==> Live(cf, n) && rt.create(n).Some?
      ensures NoDuplicates(created)
      ensures Acyclic(GraphOf(cf)) ==> LiveDepsFirst(cf, created)
      ensures r.NetworkFailed? <==> !networkOk
      ensures r.NetworkFailed? ==> containers == old(containers)
      ensures r.Deployed? ==> forall n :: n in cf && cf[n].Service? ==> n in created
      ensures r.Deployed? ==> containers == old(containers) + Started(rt, created)
      ensures r.ServiceFailed? ==> r.svc in cf && cf[r.svc].Service? && rt.create(r.svc).None?
      ensures r.ServiceFailed? ==> containers == old(containers) + Stuck(rt, Started(rt, created))
    {
      created := [];
      if !networkOk {
        return NetworkFailed, created;
      }
      var order := DependencyOrder(cf);
      var ids: seq<ContainerId> := [];
      for k := 0 to |order|
        invariant Progress(cf, rt, order, k, created)
        invariant |ids| == |created| && forall i :: 0 <= i < |ids| ==> ids[i] == rt.create(created[i]).value
        invariant containers == old(containers) + Started(rt, created)
      {
        var name := order[k];
        if name !in cf || cf[name] == Nil {
          continue;
        }
        var answer := rt.create(name);
        if answer.None? {
          RollbackLeaves(rt, old(containers), created, ids);
          Rollback(rt, ids);
          return ServiceFailed(name), created;
        }
        CreatedGrows(cf, rt, order, k, created);
        StartedGrows(rt, old(containers), created, name);
        created := created + [name];
        ids := ids + [answer.value];
        containers := containers[answer.value := Container(name, true)];
      }
      assert order[..|order|] == order;
      return Deployed, created;
    }
  }

  /** After `k` entries of the plan: the live ones among them run, once each, dependencies first. */
  ghost predicate Progress(cf: File, rt: Runtime, order: seq<Name>, k: nat, created: seq<Name>)
    requires k <= |order|
  {
    && (forall n :: n in created <==> n in order[..k] && Live(cf, n))
    && (forall n :: n in created ==> rt.create(n).Some?)
    && NoDuplicates(created)
    && (Acyclic(GraphOf(cf)) ==> LiveDepsFirst(cf, created))
  }

  lemma CreatedGrows(cf: File, rt: Runtime, order: seq<Name>, k: nat, created: seq<Name>)
    requires k < |order| && Live(cf, order[k]) && NoDuplicates(order)
    requires Acyclic(GraphOf(cf)) ==> forall i, d :: 0 <= i < |order| && Lists(cf, order[i], d) ==> d in order[..i]
    requires Progress(cf, rt, order, k, created) && rt.create(order[k]).Some?
    ensures Progress(cf, rt, order, k + 1, created + [order[k]])
  {
    var t := created + [order[k]];
    assert t[..|created|] == created && t[..|t| - 1] == created;
    assert forall i :: 0 <= i < |created| ==> t[..i] == created[..i];
  }

  lemma StartedGrows(rt: Runtime, host: Host, created: seq<Name>, name: Name)
    requires rt.create(name).Some? && forall n :: n in created ==> rt.create(n).Some?
    ensures (host + Started(rt, created))[rt.create(name).value := Container(name, true)] == host + Started(rt, created + [name])
  {
    assert (created + [name])[..|created|] == created;
  }
}
