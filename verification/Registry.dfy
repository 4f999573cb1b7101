/** The module registry: registration, dependency resolution and lifecycle order. */
module ModuleRegistry {
  import opened Options
  import opened Graphs

  /** Why `Resolve` refuses a registry. */
  datatype Outcome = Ok | Circular(at: Name) | Unknown(dep: Name)

  /** The dependency graph declared by the registered modules. */
  function GraphOf(modules: map<Name, seq<Name>>): (g: Graph) {
    map n | n in modules :: set d | d in modules[n]
  }

  /** The edges are exactly the declared dependencies of registered modules. */
  lemma EdgesAreDeclared(modules: map<Name, seq<Name>>)
    ensures forall n, d :: d in Deps(GraphOf(modules), n) <==> n in modules && d in modules[n]
    ensures GraphOf(modules).Keys == modules.Keys
  {
  }

  /** Some node depends on `d`, which is not a node. */
  ghost predicate Dangling(g: Graph, d: Name) { d !in g && exists n :: n in g && d in g[n] }

  ghost predicate FirstFailureAt(ok: Name -> bool, called: seq<Name>, n: Name, k: nat) {
    k < |called| && called[k] == n && !ok(n) && forall j :: 0 <= j < k ==> ok(called[j])
  }

  /** `n` is the first of `called` whose own step failed. */
  ghost predicate FirstFailure(ok: Name -> bool, called: seq<Name>, n: Name) {
    exists k: nat :: FirstFailureAt(ok, called, n, k)
  }

  lemma AppendKeepsOrder(g: Graph, s: seq<Name>, id: Name)
    requires DepsFirst(g, s) && forall d :: d in Deps(g, id) ==> d in s
    ensures DepsFirst(g, s + [id])
  {
    var t := s + [id];
    forall i, d | 0 <= i < |t| && d in Deps(g, t[i]) ensures d in t[..i] {
      if i < |s| { assert t[..i] == s[..i]; } else { assert t[..i] == s; }
    }
  }

  /** The variables captured by the depth-first closure of `Resolve`. */
  class Traversal {
    var visited: set<Name>
    var visiting: set<Name>
    var sorted: seq<Name>

    constructor ()
      ensures visited == {} && visiting == {} && sorted == []
    {
      visited, visiting, sorted := {}, {}, [];
    }

    /** Finished names are listed once, dependencies first, and are not on the stack. */
    ghost predicate Inv(g: Graph) reads this {
      && NoDuplicates(sorted) && DepsFirst(g, sorted)
      && visited == (set n | n in sorted)
      && visited <= g.Keys
      && visiting !! visited
    }

    method Visit(modules: map<Name, seq<Name>>, id: Name) returns (r: Outcome)
      requires Inv(GraphOf(modules))
      requires forall v :: v in visiting ==> Reaches(GraphOf(modules), v, id)
      requires id in modules || exists u :: u in modules && id in modules[u]
      modifies this
      ensures Inv(GraphOf(modules))
      ensures r.Ok? ==> visiting == old(visiting) && id in visited && old(visited) <= visited
      ensures r.Circular? ==> Reaches(GraphOf(modules), r.at, r.at)
      ensures r.Unknown? ==> Dangling(GraphOf(modules), r.dep)
      decreases modules.Keys - visiting - visited
    {
      ghost var g := GraphOf(modules);
      if id in visited {
        return Ok;
      }
      if id in visiting {
        assert Reaches(g, id, id);
        return Circular(id);
      }
      visiting := visiting + {id};
      if id !in modules {
        ghost var u :| u in modules && id in modules[u];
        assert u in g && id in g[u] && id !in g;
        return Unknown(id);
      }
      var deps := modules[id];
      for k := 0 to |deps|
        invariant Inv(g)
        invariant visiting == old(visiting) + {id} && old(visited) <= visited
        invariant forall j :: 0 <= j < k ==> deps[j] in visited
      {
        forall v | v in visiting ensures Reaches(g, v, deps[k]) {
          if v == id { EdgeReaches(g, id, deps[k]); } else { ReachesThen(g, v, id, deps[k]); }
        }
        assert id in modules.Keys - old(visiting) - old(visited);
        var dr := Visit(modules, deps[k]);
        if !dr.Ok? {
          return dr;
        }
      }
      visiting := visiting - {id};
      visited := visited + {id};
      AppendKeepsOrder(g, sorted, id);
      sorted := sorted + [id];
      return Ok;
    }
  }

  class Registry {
    var modules: map<Name, seq<Name>>   // module ID to its declared dependencies
    var order: seq<Name>                // resolved startup order

    /** Whatever was resolved last is still a dependencies-first order of registered modules. */
    ghost predicate Valid() reads this {
      && NoDuplicates(order)
      && DepsFirst(GraphOf(modules), order)
      && (forall n :: n in order ==> n in modules)
    }

    constructor ()
      ensures Valid() && modules == map[] && order == []
    {
      modules, order := map[], [];
    }

    method Register(id: Name, deps: seq<Name>) returns (ok: bool)
      requires Valid()
      modifies this
      ensures Valid() && order == old(order)
      ensures ok <==> id !in old(modules)
      ensures modules == if ok then old(modules)[id := deps] else old(modules)
    {
      if id in modules {
        return false;
      }
      ghost var g := GraphOf(modules);
      modules := modules[id := deps];
      assert forall n :: n in order ==> Deps(GraphOf(modules), n) == Deps(g, n);
      return true;
    }

    /** Succeeds exactly on closed acyclic graphs, whatever order the module map is iterated in. */
    method Resolve() returns (r: Outcome)
      requires Valid()
      modifies this
      ensures Valid() && modules == old(modules)
      ensures r.Ok? <==> Closed(GraphOf(modules)) && Acyclic(GraphOf(modules))
      ensures r.Ok? ==> (set n | n in order) == modules.Keys
      ensures r.Ok? ==> forall i, d :: 0 <= i < |order| && d in modules[order[i]] ==> d in order[..i]
      ensures r.Circular? ==> Reaches(GraphOf(modules), r.at, r.at)
      ensures r.Unknown? ==> r.dep !in modules && exists n :: n in modules && r.dep in modules[n]
      ensures !r.Ok? ==> order == old(order)
    {
      ghost var g := GraphOf(modules);
      var t := new Traversal();
      var todo := modules.Keys;
      while todo != {}
        invariant modules == old(modules) && order == old(order)
        invariant t.Inv(g) && t.visiting == {}
        invariant todo <= modules.Keys && modules.Keys - todo <= t.visited
        decreases todo
      {
        var id :| id in todo;
        r := t.Visit(modules, id);
        if !r.Ok? {
          FailureIsReal(g, r);
          return;
        }
        todo := todo - {id};
      }
      order := t.sorted;
      forall n ensures n in order <==> n in modules {
        assert n in order <==> n in t.visited;
        assert n in modules <==> n in g;
      }
      OrderedIsAcyclic(g, order);
      forall n, d | n in g && d in g[n] ensures d in g {
        var i :| 0 <= i < |order| && order[i] == n;
        assert d in Deps(g, order[i]);
        assert d in order;
      }
      return Ok;
    }

    /** Init or start every module in the resolved order, stopping at the first failure.
        `ok` gives each module's own outcome; `called` is what was reached. */
    method ForwardAll(ok: Name -> bool) returns (called: seq<Name>, failed: Option<Name>)
      requires Valid()
      ensures called <= order
      ensures failed.None? ==> called == order && forall n :: n in called ==> ok(n)
      ensures failed.Some? ==> called != [] && called[|called| - 1] == failed.value && !ok(failed.value)
      ensures forall n :: n in called && !ok(n) ==> failed == Some(n)
      ensures forall i :: 0 <= i < |called| - 1 ==> ok(called[i])
      ensures forall i, d :: 0 <= i < |called| && d in modules[called[i]] ==> d in called[..i]
    {
      called := [];
      for i := 0 to |order|
        invariant called == order[..i]
        invariant forall n :: n in called ==> ok(n)
      {
        called := called + [order[i]];
        if !ok(order[i]) {
          AfterDeps(modules, order, called);
          return called, Some(order[i]);
        }
      }
      assert called == order;
      AfterDeps(modules, order, called);
      return called, None;
    }

    /** Stop every module, dependents first; a failing stop never ends the sweep. */
    method StopAll(ok: Name -> bool) returns (called: seq<Name>, firstErr: Option<Name>)
      requires Valid()
      ensures |called| == |order|
      ensures forall i :: 0 <= i < |called| ==> called[i] == order[|order| - 1 - i]
      ensures firstErr.None? <==> forall n :: n in called ==> ok(n)
      ensures firstErr.Some? ==> FirstFailure(ok, called, firstErr.value)
      ensures forall i, u :: 0 <= i < |called| && u in order && called[i] in modules[u] ==> u in called[..i]
    {
      called, firstErr := [], None;
      var i := |order|;
      while i > 0
        invariant 0 <= i <= |order| && |called| == |order| - i
        invariant forall k :: 0 <= k < |called| ==> called[k] == order[|order| - 1 - k]
        invariant firstErr.None? <==> forall n :: n in called ==> ok(n)
        invariant firstErr.Some? ==> FirstFailure(ok, called, firstErr.value)
      {
        i := i - 1;
        ghost var before := called;
        called := called + [order[i]];
        if !ok(order[i]) && firstErr.None? {
          firstErr := Some(order[i]);
          assert FirstFailureAt(ok, called, order[i], |before|);
        } else if firstErr.Some? {
          ghost var k: nat :| FirstFailureAt(ok, before, firstErr.value, k);
          assert FirstFailureAt(ok, called, firstErr.value, k);
        }
      }
      StopOrder(GraphOf(modules), order, called);
    }
  }

  lemma AfterDeps(modules: map<Name, seq<Name>>, order: seq<Name>, called: seq<Name>)
    requires DepsFirst(GraphOf(modules), order) && called <= order && forall n :: n in order ==> n in modules
    ensures forall i, d :: 0 <= i < |called| && d in modules[called[i]] ==> d in called[..i]
  {
    forall i, d | 0 <= i < |called| && d in modules[called[i]] ensures d in called[..i] {
      assert d in Deps(GraphOf(modules), order[i]) && called[..i] == order[..i];
    }
  }

  lemma FailureIsReal(g: Graph, r: Outcome)
    requires r.Circular? ==> Reaches(g, r.at, r.at)
    requires r.Unknown? ==> Dangling(g, r.dep)
    ensures !r.Ok? ==> !(Closed(g) && Acyclic(g))
  {
    if r.Unknown? {
      var n :| n in g && r.dep in g[n];
      assert !Closed(g);
    }
  }

  /** Reversing a dependencies-first order puts every dependent before its dependencies. */
  lemma StopOrder(g: Graph, order: seq<Name>, called: seq<Name>)
    requires DepsFirst(g, order) && NoDuplicates(order) && |called| == |order|
    requires forall i :: 0 <= i < |called| ==> called[i] == order[|order| - 1 - i]
    ensures forall i, u :: 0 <= i < |called| && u in order && called[i] in Deps(g, u) ==> u in called[..i]
  {
    forall i, u | 0 <= i < |called| && u in order && called[i] in Deps(g, u) ensures u in called[..i] {
      var k :| 0 <= k < |order| && order[k] == u;
      var j :| 0 <= j < k && order[j] == called[i];
      assert called[|order| - 1 - k] == u;
    }
  }
}
