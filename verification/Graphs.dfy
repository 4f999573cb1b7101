/** Dependency graphs, walks in them, and orders that respect them.
    Shared by the module registry and the compose planner. */
module Graphs {

  type Name = string

  /** Each known name with the names it depends on. */
  type Graph = map<Name, set<Name>>

  /** The direct dependencies of a name; a name outside the graph has none. */
  function Deps(g: Graph, n: Name): set<Name> {
    if n in g then g[n] else {}
  }

  /** `via` lists the names strictly between `u` and `v` on a walk along dependencies. */
  ghost predicate Walk(g: Graph, u: Name, via: seq<Name>, v: Name)
    decreases |via|
  {
    if via == [] then v in Deps(g, u)
    else via[0] in Deps(g, u) && Walk(g, via[0], via[1..], v)
  }

  /** `u` depends on `v`, directly or through other names (one edge or more). */
  ghost predicate Reaches(g: Graph, u: Name, v: Name) {
    exists via: seq<Name> :: Walk(g, u, via, v)
  }

  ghost predicate Acyclic(g: Graph) {
    forall n: Name :: !Reaches(g, n, n)
  }

  /** Every dependency names a node of the graph. */
  ghost predicate Closed(g: Graph) {
    forall n, d :: n in g && d in g[n] ==> d in g
  }

  ghost predicate NoDuplicates(s: seq<Name>) {
    forall i, j :: 0 <= i < j < |s| ==> s[i] != s[j]
  }

  /** Every dependency of an entry stands strictly before that entry. */
  ghost predicate DepsFirst(g: Graph, s: seq<Name>) {
    forall i, d :: 0 <= i < |s| && d in Deps(g, s[i]) ==> d in s[..i]
  }

  /** Every dependency stands before its dependent, unless it depends on that dependent in turn. */
  ghost predicate DepsFirstUpToCycles(g: Graph, s: seq<Name>) {
    forall i, d :: 0 <= i < |s| && d in Deps(g, s[i]) ==> d in s[..i] || Reaches(g, d, s[i])
  }

  lemma EdgeReaches(g: Graph, u: Name, v: Name)
    requires v in Deps(g, u)
    ensures Reaches(g, u, v)
  {
    assert Walk(g, u, [], v);
  }

  lemma {:induction false} WalkThen(g: Graph, u: Name, via: seq<Name>, v: Name, w: Name)
    requires Walk(g, u, via, v) && w in Deps(g, v)
    ensures Walk(g, u, via + [v], w)
    decreases |via|
  {
    if via == [] {
      assert (via + [v])[1..] == [];
    } else {
      WalkThen(g, via[0], via[1..], v, w);
      assert (via + [v])[1..] == via[1..] + [v];
    }
  }

  /** One more edge at the end keeps reachability. */
  lemma ReachesThen(g: Graph, u: Name, v: Name, w: Name)
    requires Reaches(g, u, v) && w in Deps(g, v)
    ensures Reaches(g, u, w)
  {
    var via :| Walk(g, u, via, v);
    WalkThen(g, u, via, v, w);
  }

  /** In a dependencies-first order a walk leads strictly towards the front. */
  lemma {:induction false} WalkLeadsForward(g: Graph, s: seq<Name>, i: nat, via: seq<Name>, v: Name)
    requires DepsFirst(g, s) && i < |s| && Walk(g, s[i], via, v)
    ensures v in s[..i]
    decreases |via|
  {
    if via != [] {
      var j: nat :| j < i && s[j] == via[0];
      WalkLeadsForward(g, s, j, via[1..], v);
    }
  }

  /** A duplicate-free dependencies-first order of the whole graph exists only without cycles. */
  lemma OrderedIsAcyclic(g: Graph, s: seq<Name>)
    requires DepsFirst(g, s) && NoDuplicates(s)
    requires forall n :: n in g ==> n in s
    ensures Acyclic(g)
  {
    forall n: Name ensures !Reaches(g, n, n) {
      if Reaches(g, n, n) {
        var via :| Walk(g, n, via, n);
        assert n in g;
        var i: nat :| i < |s| && s[i] == n;
        WalkLeadsForward(g, s, i, via, n);
        assert false;
      }
    }
  }

  /** Without cycles the tolerant order is a strict one. */
  lemma AcyclicOrderIsStrict(g: Graph, s: seq<Name>)
    requires DepsFirstUpToCycles(g, s) && Acyclic(g)
    ensures DepsFirst(g, s)
  {
    forall i, d | 0 <= i < |s| && d in Deps(g, s[i]) ensures d in s[..i] {
      if d !in s[..i] {
        ReachesThen(g, d, s[i], d);
        assert false;
      }
    }
  }
}
