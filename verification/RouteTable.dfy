/** The ingress route table: copy-on-write sorted snapshots refining a plain map from route keys to entries. */
module Routing {
  import opened Options

  datatype Entry = Entry(
    host: string, prefix: string, priority: int, service: string,
    backends: seq<string>, strategy: string, middlewares: seq<string>, appID: string)

  type Key = (string, string)

  function KeyOf(e: Entry): Key { (e.host, e.prefix) }

  function Normalized(prefix: string): string { if prefix == "" then "/" else prefix }

  // ---- Matching ----

  predicate HasPrefix(s: string, p: string) { p <= s }

  predicate HasSuffix(s: string, p: string) { |p| <= |s| && s[|s| - |p|..] == p }

  function Dots(s: string): nat {
    if s == "" then 0 else Dots(s[1..]) + if s[0] == '.' then 1 else 0
  }

  predicate MatchHost(pattern: string, host: string) {
    || pattern == host
    || (HasPrefix(pattern, "*.") && HasSuffix(host, pattern[1..]) && Dots(host) == Dots(pattern))
  }

  predicate MatchPath(prefix: string, path: string) { prefix == "/" || HasPrefix(path, prefix) }

  predicate Hits(e: Entry, host: string, path: string) { MatchHost(e.host, host) && MatchPath(e.prefix, path) }

  lemma {:induction false} DotsAdd(a: string, b: string)
    ensures Dots(a + b) == Dots(a) + Dots(b)
  {
    if a == "" {
      assert a + b == b;
    } else {
      DotsAdd(a[1..], b);
      assert (a + b)[1..] == a[1..] + b;
    }
  }

  lemma {:induction false} NoDots(s: string)
    ensures Dots(s) == 0 <==> '.' !in s
  {
    if s != "" { NoDots(s[1..]); }
  }

  /** A wildcard stands for exactly one label, possibly empty, in front of its suffix. */
  lemma WildcardMeaning(pattern: string, host: string)
    ensures MatchHost(pattern, host) <==>
              || pattern == host
              || exists sub: string, rest: string :: pattern == "*." + rest && host == sub + ("." + rest) && '.' !in sub
  {
    if HasPrefix(pattern, "*.") && HasSuffix(host, pattern[1..]) {
      var rest, sub := pattern[2..], host[..|host| - |pattern| + 1];
      assert pattern == "*." + rest && pattern[1..] == "." + rest && host == sub + ("." + rest);
      WildcardDots(sub, rest);
    }
    if sub: string, rest: string :| pattern == "*." + rest && host == sub + ("." + rest) && '.' !in sub {
      assert pattern[1..] == "." + rest && host[|sub|..] == "." + rest;
      WildcardDots(sub, rest);
    }
  }

  /** A path prefix is any text the path goes on from; "/" stands for every path. */
  lemma PrefixMeaning(prefix: string, path: string)
    ensures MatchPath(prefix, path) <==> prefix == "/" || exists rest: string :: path == prefix + rest
  {
    if HasPrefix(path, prefix) { assert path == prefix + path[|prefix|..]; }
  }

  lemma WildcardDots(sub: string, rest: string)
    ensures Dots(sub + ("." + rest)) == Dots("*." + rest) <==> '.' !in sub
  {
    DotsAdd(sub, "." + rest);
    DotsAdd("*", "." + rest);
    assert "*" + ("." + rest) == "*." + rest;
    NoDots(sub);
    NoDots("*");
  }

  // ---- Rank and best match ----

  /** The comparison given to the sort: higher priority, then longer prefix, goes first. */
  predicate Before(a: Entry, b: Entry) {
    if a.priority != b.priority then a.priority > b.priority else |a.prefix| > |b.prefix|
  }

  ghost predicate Sorted(s: seq<Entry>) {
    forall i, j :: 0 <= i < j < |s| ==> !Before(s[j], s[i])
  }

  ghost predicate UniqueKeys(s: seq<Entry>) {
    forall i, j :: 0 <= i < j < |s| ==> KeyOf(s[i]) != KeyOf(s[j])
  }

  /** The map a snapshot stands for. */
  ghost function Table(s: seq<Entry>): map<Key, Entry>
    requires UniqueKeys(s)
  {
    map e | e in s :: KeyOf(e) := e
  }

  /** A matching route that no other matching route outranks. */
  ghost predicate IsBest(t: map<Key, Entry>, host: string, path: string, e: Entry) {
    && e in t.Values && MatchHost(e.host, host) && MatchPath(e.prefix, path)
    && forall k :: k in t && MatchHost(t[k].host, host) && MatchPath(t[k].prefix, path) ==>
         t[k].priority < e.priority || (t[k].priority == e.priority && |t[k].prefix| <= |e.prefix|)
  }

  ghost predicate NoneHits(t: map<Key, Entry>, host: string, path: string) {
    forall k :: k in t ==> !(MatchHost(t[k].host, host) && MatchPath(t[k].prefix, path))
  }

  function FirstHit(s: seq<Entry>, host: string, path: string): Option<Entry> {
    if s == [] then None else if Hits(s[0], host, path) then Some(s[0]) else FirstHit(s[1..], host, path)
  }

  lemma {:induction false} FirstHitAt(s: seq<Entry>, host: string, path: string, i: nat)
    requires i <= |s| && forall k :: 0 <= k < i ==> !Hits(s[k], host, path)
    ensures i < |s| && Hits(s[i], host, path) ==> FirstHit(s, host, path) == Some(s[i])
    ensures i == |s| ==> FirstHit(s, host, path) == None
  {
    if i > 0 {
      FirstHitAt(s[1..], host, path, i - 1);
    }
  }

  // ---- Permutations ----

  lemma {:induction false} TwiceIn(s: seq<Entry>, e: Entry)
    requires multiset(s)[e] >= 2
    ensures exists i, j :: 0 <= i < j < |s| && s[i] == e && s[j] == e
  {
    assert s == [s[0]] + s[1..];
    if s[0] == e {
      assert e in multiset(s[1..]);
      var j :| 0 <= j < |s| - 1 && s[1..][j] == e;
      assert s[0] == e && s[j + 1] == e;
    } else {
      TwiceIn(s[1..], e);
      var i, j :| 0 <= i < j < |s| - 1 && s[1..][i] == e && s[1..][j] == e;
      assert s[i + 1] == e && s[j + 1] == e;
    }
  }

  lemma TwoPositions(s: seq<Entry>, i: nat, j: nat)
    requires i < j < |s| && s[i] == s[j]
    ensures multiset(s)[s[i]] >= 2
  {
    assert s == s[..j] + [s[j]] + s[j + 1..];
    assert s[i] in s[..j];
  }

  /** Reordering a snapshot changes neither key uniqueness nor the map it stands for. */
  lemma PermutationKeepsTable(s: seq<Entry>, t: seq<Entry>)
    requires multiset(s) == multiset(t) && UniqueKeys(s)
    ensures UniqueKeys(t) && Table(t) == Table(s)
  {
    assert forall e :: e in t ==> e in multiset(t);
    assert forall e :: e in s ==> e in multiset(s);
    forall i, j | 0 <= i < j < |t| ensures KeyOf(t[i]) != KeyOf(t[j]) {
      if t[i] == t[j] {
        TwoPositions(t, i, j);
        TwiceIn(s, t[i]);
        assert false;
      }
      assert t[i] in multiset(s) && t[j] in multiset(s);
      var x, y :| 0 <= x < |s| && 0 <= y < |s| && s[x] == t[i] && s[y] == t[j];
    }
  }

  // ---- The table ----

  /** An entries slice: a backing array and how much of it is in use. */
  class Snapshot {
    const data: array<Entry>
    const len: nat

    constructor (data: array<Entry>, len: nat)
      requires len <= data.Length
      ensures this.data == data && this.len == len
    {
      this.data := data;
      this.len := len;
    }

    ghost predicate Fits() { len <= data.Length }

    ghost function Entries(): seq<Entry>
      requires Fits()
      reads data
    {
      data[..len]
    }
  }

  /** Sorts `a[..n]`; the order among equally ranked entries is unspecified. */
  method SortRoutes(a: array<Entry>, n: nat)
    requires n <= a.Length
    modifies a
    ensures Sorted(a[..n])
    ensures multiset(a[..n]) == multiset(old(a[..n]))
  {
    for i := 0 to n
      invariant Sorted(a[..i])
      invariant multiset(a[..n]) == multiset(old(a[..n]))
    {
      Sink(a, n, i);
    }
  }

  /** `s[..i + 1]` is sorted except that `s[j]` may outrank entries in front of it. */
  ghost predicate SortedBut(s: seq<Entry>, i: nat, j: nat) {
    j <= i < |s| && forall x, y :: 0 <= x < y <= i && y != j ==> !Before(s[y], s[x])
  }

  function Swapped(s: seq<Entry>, j: nat): seq<Entry>
    requires 0 < j < |s|
  {
    s[j := s[j - 1]][j - 1 := s[j]]
  }

  lemma SwapKeeps(s: seq<Entry>, i: nat, j: nat)
    requires SortedBut(s, i, j) && 0 < j && Before(s[j], s[j - 1])
    ensures SortedBut(Swapped(s, j), i, j - 1) && multiset(Swapped(s, j)) == multiset(s)
  {
  }

  /** Moves `a[i]` down into the sorted part in front of it. */
  method Sink(a: array<Entry>, n: nat, i: nat)
    requires i < n <= a.Length && Sorted(a[..i])
    modifies a
    ensures Sorted(a[..i + 1])
    ensures multiset(a[..n]) == multiset(old(a[..n]))
  {
    var j := i;
    ghost var s := a[..n];
    while j > 0 && Before(a[j], a[j - 1])
      invariant 0 <= j <= i && s == a[..n] && SortedBut(s, i, j) && multiset(s) == multiset(old(a[..n]))
    {
      SwapKeeps(s, i, j);
      a[j], a[j - 1] := a[j - 1], a[j];
      assert a[..n] == Swapped(s, j);
      s := Swapped(s, j);
      j := j - 1;
    }
    assert j > 0 ==> !Before(s[j], s[j - 1]);
    SunkIsSorted(s, i, j);
    assert a[..i + 1] == s[..i + 1];
  }

  lemma SunkIsSorted(s: seq<Entry>, i: nat, j: nat)
    requires SortedBut(s, i, j) && (j > 0 ==> !Before(s[j], s[j - 1]))
    ensures Sorted(s[..i + 1])
  {
  }

  // ---- What each mutation does to the entries, before sorting ----

  ghost predicate AllNormalized(s: seq<Entry>) { forall e :: e in s ==> e.prefix != "" }

  /** `t` holds exactly the entries of `s`, each under its key. */
  ghost predicate Represents(s: seq<Entry>, t: map<Key, Entry>) {
    && (forall k :: k in t ==> t[k] in s && KeyOf(t[k]) == k)
    && (forall e :: e in s ==> KeyOf(e) in t && t[KeyOf(e)] == e)
  }

  lemma TableRepresents(s: seq<Entry>)
    requires UniqueKeys(s)
    ensures Represents(s, Table(s))
  {
  }

  lemma RepresentedIsTable(s: seq<Entry>, t: map<Key, Entry>)
    requires UniqueKeys(s) && Represents(s, t)
    ensures Table(s) == t
  {
    TableRepresents(s);
    assert forall k :: k in t ==> KeyOf(t[k]) in Table(s);
  }

  lemma ReplaceAt(s: seq<Entry>, i: nat, e: Entry)
    requires UniqueKeys(s) && AllNormalized(s) && i < |s| && KeyOf(s[i]) == KeyOf(e) && e.prefix != ""
    ensures UniqueKeys(s[i := e]) && AllNormalized(s[i := e])
    ensures Table(s[i := e]) == Table(s)[KeyOf(e) := e]
  {
    var t := s[i := e];
    forall x | x in s && x != s[i] ensures x in t {
      var k :| 0 <= k < |s| && s[k] == x;
      assert t[k] == x;
    }
    assert t[i] == e;
    TableRepresents(s);
    RepresentedIsTable(t, Table(s)[KeyOf(e) := e]);
  }

  lemma AppendNew(s: seq<Entry>, e: Entry)
    requires UniqueKeys(s) && AllNormalized(s) && e.prefix != "" && forall x :: x in s ==> KeyOf(x) != KeyOf(e)
    ensures UniqueKeys(s + [e]) && AllNormalized(s + [e])
    ensures Table(s + [e]) == Table(s)[KeyOf(e) := e]
  {
    TableRepresents(s);
    RepresentedIsTable(s + [e], Table(s)[KeyOf(e) := e]);
  }

  function Cut(s: seq<Entry>, i: nat): seq<Entry>
    requires i < |s|
  {
    s[..i] + s[i + 1..]
  }

  lemma CutMembers(s: seq<Entry>, i: nat, e: Entry)
    requires UniqueKeys(s) && i < |s|
    ensures e in Cut(s, i) <==> e in s && e != s[i]
  {
    var t := Cut(s, i);
    if e in s && e != s[i] {
      var k :| 0 <= k < |s| && s[k] == e;
      assert t[if k < i then k else k - 1] == e;
    }
    if e in t {
      var k :| 0 <= k < |t| && t[k] == e;
      assert s[if k < i then k else k + 1] == e;
    }
  }

  lemma CutAt(s: seq<Entry>, i: nat)
    requires UniqueKeys(s) && AllNormalized(s) && i < |s|
    ensures UniqueKeys(Cut(s, i)) && AllNormalized(Cut(s, i))
    ensures Table(Cut(s, i)) == Table(s) - {KeyOf(s[i])}
  {
    forall e ensures e in Cut(s, i) <==> e in s && e != s[i] { CutMembers(s, i, e); }
    TableRepresents(s);
    RepresentedIsTable(Cut(s, i), Table(s) - {KeyOf(s[i])});
  }

  lemma MissingKey(s: seq<Entry>, k: Key)
    requires UniqueKeys(s) && forall x :: x in s ==> KeyOf(x) != k
    ensures Table(s) - {k} == Table(s)
  {
    TableRepresents(s);
  }

  function WithoutApp(s: seq<Entry>, app: string): seq<Entry> {
    if s == [] then []
    else WithoutApp(s[..|s| - 1], app) + if s[|s| - 1].appID != app then [s[|s| - 1]] else []
  }

  lemma {:induction false} WithoutAppMembers(s: seq<Entry>, app: string, e: Entry)
    ensures e in WithoutApp(s, app) <==> e in s && e.appID != app
  {
    if s != [] {
      WithoutAppMembers(s[..|s| - 1], app, e);
      assert s == s[..|s| - 1] + [s[|s| - 1]];
    }
  }

  lemma {:induction false} WithoutAppKeeps(s: seq<Entry>, app: string)
    requires UniqueKeys(s) && AllNormalized(s)
    ensures UniqueKeys(WithoutApp(s, app)) && AllNormalized(WithoutApp(s, app))
  {
    if s != [] {
      var front, last := s[..|s| - 1], s[|s| - 1];
      var w := WithoutApp(front, app);
      WithoutAppKeeps(front, app);
      forall i | 0 <= i < |w| ensures KeyOf(w[i]) != KeyOf(last) {
        WithoutAppMembers(front, app, w[i]);
        var k :| 0 <= k < |front| && front[k] == w[i];
        assert s[k] == w[i];
      }
    }
  }

  lemma WithoutAppTable(s: seq<Entry>, app: string)
    requires UniqueKeys(s) && AllNormalized(s)
    ensures UniqueKeys(WithoutApp(s, app)) && AllNormalized(WithoutApp(s, app))
    ensures Table(WithoutApp(s, app)) == DropApp(Table(s), app)
  {
    WithoutAppKeeps(s, app);
    forall e ensures e in WithoutApp(s, app) <==> e in s && e.appID != app { WithoutAppMembers(s, app, e); }
    TableRepresents(s);
    RepresentedIsTable(WithoutApp(s, app), DropApp(Table(s), app));
  }

  /** The map without one application's routes. */
  ghost function DropApp(t: map<Key, Entry>, app: string): map<Key, Entry> {
    map k | k in t && t[k].appID != app :: t[k]
  }

  /** A position holding the key, or the length when there is none. */
  method FindKey(a: array<Entry>, host: string, prefix: string) returns (i: nat)
    ensures i <= a.Length && (i < a.Length ==> KeyOf(a[i]) == (host, prefix))
    ensures i == a.Length ==> forall x :: x in a[..] ==> KeyOf(x) != (host, prefix)
  {
    i := 0;
    while i < a.Length && !(a[i].host == host && a[i].prefix == prefix)
      invariant i <= a.Length && forall k :: 0 <= k < i ==> KeyOf(a[k]) != (host, prefix)
    {
      i := i + 1;
    }
  }

  method Append(a: array<Entry>, e: Entry) returns (r: array<Entry>)
    ensures fresh(r) && r[..] == a[..] + [e]
  {
    var n := a.Length;
    r := new Entry[n + 1](i requires 0 <= i <= n && n == a.Length reads a => if i < n then a[i] else e);
  }

  /** Overwrites `a[i]` by moving everything behind it one place forward. */
  method ShiftDown(a: array<Entry>, i: nat)
    requires i < a.Length && UniqueKeys(a[..]) && AllNormalized(a[..])
    modifies a
    ensures UniqueKeys(a[..a.Length - 1]) && AllNormalized(a[..a.Length - 1])
    ensures Table(a[..a.Length - 1]) == Table(old(a[..])) - {KeyOf(old(a[i]))}
  {
    ghost var was := a[..];
    for j := i to a.Length - 1
      invariant forall k :: 0 <= k < i ==> a[k] == was[k]
      invariant forall k :: i <= k < j ==> a[k] == was[k + 1]
      invariant forall k :: j <= k < a.Length ==> a[k] == was[k]
    {
      a[j] := a[j + 1];
    }
    assert a[..a.Length - 1] == Cut(was, i);
    CutAt(was, i);
  }

  /** Filters in place: the kept entries overwrite the front of the array. */
  method FilterApp(a: array<Entry>, appID: string) returns (kept: nat)
    modifies a
    ensures kept <= a.Length && a[..kept] == WithoutApp(old(a[..]), appID)
  {
    ghost var was := a[..];
    kept := 0;
    for i := 0 to a.Length
      invariant kept <= i && a[..kept] == WithoutApp(was[..i], appID)
      invariant forall k :: i <= k < a.Length ==> a[k] == was[k]
    {
      assert was[..i + 1][..i] == was[..i];
      if a[i].appID != appID {
        a[kept] := a[i];
        kept := kept + 1;
        assert a[..kept] == a[..kept - 1] + [was[i]];
      }
    }
    assert was[..a.Length] == was;
  }

  class RouteTable {
    var snapshot: Snapshot

    ghost predicate Valid()
      reads this, snapshot.data
    {
      && snapshot.Fits()
      && Sorted(snapshot.Entries()) && UniqueKeys(snapshot.Entries()) && AllNormalized(snapshot.Entries())
    }

    /** The abstract table: one entry per host and normalised prefix. */
    ghost function Routes(): map<Key, Entry>
      requires Valid()
      reads this, snapshot.data
    {
      Table(snapshot.Entries())
    }

    constructor ()
      ensures Valid() && fresh(snapshot) && fresh(snapshot.data) && Routes() == map[]
    {
      var none := new Entry[0];
      snapshot := new Snapshot(none, 0);
    }

    method Clone() returns (next: array<Entry>)
      requires Valid()
      ensures fresh(next) && next[..] == snapshot.Entries()
    {
      var cur, n := snapshot.data, snapshot.len;
      next := new Entry[n](i requires 0 <= i < n && n <= cur.Length reads cur => cur[i]);
    }

    /** Sorts the private copy and makes it the current snapshot. */
    method Publish(next: array<Entry>, n: nat)
      requires n <= next.Length && UniqueKeys(next[..n]) && AllNormalized(next[..n])
      modifies this, next
      ensures Valid() && fresh(snapshot) && snapshot.data == next && snapshot.len == n
      ensures Routes() == Table(old(next[..n]))
    {
      ghost var before := next[..n];
      SortRoutes(next, n);
      PermutationKeepsTable(before, next[..n]);
      assert forall e :: e in next[..n] ==> e in multiset(before);
      snapshot := new Snapshot(next, n);
    }

    method Upsert(entry: Entry)
      requires Valid()
      modifies this
      ensures Valid() && fresh(snapshot) && fresh(snapshot.data)
      ensures old(snapshot).Entries() == old(snapshot.Entries())
      ensures var e := entry.(prefix := if entry.prefix == "" then "/" else entry.prefix);
              Routes() == old(Routes())[(e.host, e.prefix) := e]
    {
      var e := entry.(prefix := Normalized(entry.prefix));
      var next := Clone();
      ghost var was := next[..];
      var i := FindKey(next, e.host, e.prefix);
      if i < next.Length {
        ReplaceAt(was, i, e);
        next[i] := e;
        assert next[..next.Length] == was[i := e];
        Publish(next, next.Length);
      } else {
        AppendNew(was, e);
        var grown := Append(next, e);
        assert grown[..grown.Length] == was + [e];
        Publish(grown, grown.Length);
      }
    }

    method Remove(host: string, pathPrefix: string)
      requires Valid()
      modifies this
      ensures Valid() && fresh(snapshot) && fresh(snapshot.data)
      ensures old(snapshot).Entries() == old(snapshot.Entries())
      ensures Routes() == old(Routes()) - {(host, if pathPrefix == "" then "/" else pathPrefix)}
    {
      var prefix := Normalized(pathPrefix);
      var next := Clone();
      ghost var was := next[..];
      var n := next.Length;
      var i := FindKey(next, host, prefix);
      if i < n {
        ShiftDown(next, i);
        Publish(next, n - 1);
      } else {
        MissingKey(was, (host, prefix));
        assert next[..n] == was;
        Publish(next, n);
      }
    }

    method RemoveByAppID(appID: string)
      requires Valid()
      modifies this
      ensures Valid() && fresh(snapshot) && fresh(snapshot.data)
      ensures old(snapshot).Entries() == old(snapshot.Entries())
      ensures Routes() == DropApp(old(Routes()), appID)
      ensures forall k :: k in Routes() <==> k in old(Routes()) && old(Routes())[k].appID != appID
      ensures forall k :: k in Routes() ==> Routes()[k] == old(Routes())[k]
    {
      var next := Clone();
      ghost var was := next[..];
      var kept := FilterApp(next, appID);
      WithoutAppTable(was, appID);
      Publish(next, kept);
    }

    method All() returns (out: seq<Entry>)
      requires Valid()
      ensures out == snapshot.Entries()
    {
      out := snapshot.data[..snapshot.len];
    }

    /** The first entry of the sorted snapshot that matches is a best one; none is returned only if none matches. */
    method Match(host: string, path: string) returns (r: Option<Entry>)
      requires Valid()
      ensures r == FirstHit(snapshot.Entries(), host, path)
      ensures r.None? <==> NoneHits(Routes(), host, path)
      ensures r.Some? ==> IsBest(Routes(), host, path, r.value)
    {
      ghost var s := snapshot.Entries();
      for i := 0 to snapshot.len
        invariant forall k :: 0 <= k < i ==> !Hits(s[k], host, path)
      {
        var e := snapshot.data[i];
        if MatchHost(e.host, host) && MatchPath(e.prefix, path) {
          FirstHitAt(s, host, path, i);
          HitIsBest(s, host, path, i);
          return Some(e);
        }
      }
      FirstHitAt(s, host, path, |s|);
      TableRepresents(s);
      return None;
    }
  }

  lemma HitIsBest(s: seq<Entry>, host: string, path: string, i: nat)
    requires Sorted(s) && UniqueKeys(s) && i < |s| && Hits(s[i], host, path)
    requires forall k :: 0 <= k < i ==> !Hits(s[k], host, path)
    ensures IsBest(Table(s), host, path, s[i])
    ensures !NoneHits(Table(s), host, path)
  {
    TableRepresents(s);
    assert s[i] in s && KeyOf(s[i]) in Table(s) && Table(s)[KeyOf(s[i])] == s[i];
    forall k | k in Table(s) && Hits(Table(s)[k], host, path) ensures !Before(Table(s)[k], s[i]) {
      var j :| 0 <= j < |s| && s[j] == Table(s)[k];
      assert j >= i;
    }
  }

  // ---- Exact hosts against wildcards ----

  /** Whatever order the sort leaves equally ranked entries in, the answer is a route for exactly this host. */
  ghost predicate AlwaysExact(s: seq<Entry>, host: string, path: string) {
    forall t: seq<Entry> :: Sorted(t) && multiset(t) == multiset(s) ==>
      FirstHit(t, host, path).Some? && FirstHit(t, host, path).value.host == host
  }

  /** Some matching exact route strictly outranks every matching wildcard route. */
  ghost predicate ExactOutranks(s: seq<Entry>, host: string, path: string) {
    exists x :: x in s && Hits(x, host, path) && x.host == host
      && forall w :: w in s && Hits(w, host, path) && w.host != host ==>
           w.priority < x.priority || (w.priority == x.priority && |w.prefix| < |x.prefix|)
  }

  lemma {:induction false} FirstHitExists(s: seq<Entry>, host: string, path: string) returns (i: nat)
    ensures i <= |s| && forall k :: 0 <= k < i ==> !Hits(s[k], host, path)
    ensures i < |s| ==> Hits(s[i], host, path) && FirstHit(s, host, path) == Some(s[i])
    ensures i == |s| ==> FirstHit(s, host, path) == None
  {
    i := 0;
    while i < |s| && !Hits(s[i], host, path)
      invariant i <= |s| && forall k :: 0 <= k < i ==> !Hits(s[k], host, path)
    {
      i := i + 1;
    }
    FirstHitAt(s, host, path, i);
  }

  /** Swapping two equally ranked entries keeps a snapshot sorted. */
  lemma SwapEqual(s: seq<Entry>, i: nat, j: nat)
    requires Sorted(s) && i < |s| && j < |s| && !Before(s[i], s[j]) && !Before(s[j], s[i])
    ensures Sorted(s[i := s[j]][j := s[i]]) && multiset(s[i := s[j]][j := s[i]]) == multiset(s)
  {
  }

  lemma OutrankingWins(s: seq<Entry>, t: seq<Entry>, host: string, path: string)
    requires ExactOutranks(s, host, path) && Sorted(t) && multiset(t) == multiset(s)
    ensures FirstHit(t, host, path).Some? && FirstHit(t, host, path).value.host == host
  {
    var x :| x in s && Hits(x, host, path) && x.host == host
      && forall w :: w in s && Hits(w, host, path) && w.host != host ==>
           w.priority < x.priority || (w.priority == x.priority && |w.prefix| < |x.prefix|);
    assert x in multiset(t);
    var j :| 0 <= j < |t| && t[j] == x;
    var i := FirstHitExists(t, host, path);
    assert i <= j;
    assert t[i] in multiset(s);
  }

  /** Without an exact route that outranks them, some order of the snapshot answers with a wildcard, or with nothing. */
  lemma OtherwiseCanLose(s: seq<Entry>, host: string, path: string) returns (t: seq<Entry>)
    requires Sorted(s) && !ExactOutranks(s, host, path)
    ensures Sorted(t) && multiset(t) == multiset(s) && !(FirstHit(t, host, path).Some? && FirstHit(t, host, path).value.host == host)
  {
    t := s;
    var i := FirstHitExists(s, host, path);
    if i < |s| && s[i].host == host {
      assert s[i] in s;
      var w :| w in s && Hits(w, host, path) && w.host != host && !Before(s[i], w);
      var j :| 0 <= j < |s| && s[j] == w;
      assert i < j;
      t := s[i := w][j := s[i]];
      SwapEqual(s, i, j);
      FirstHitAt(t, host, path, i);
    }
  }

  /** Exact hosts win over wildcards exactly when rank says so; being exact never decides by itself. */
  lemma ExactWinsOnlyByRank(s: seq<Entry>, host: string, path: string)
    requires Sorted(s)
    ensures AlwaysExact(s, host, path) <==> ExactOutranks(s, host, path)
  {
    if ExactOutranks(s, host, path) {
      forall t: seq<Entry> | Sorted(t) && multiset(t) == multiset(s)
        ensures FirstHit(t, host, path).Some? && FirstHit(t, host, path).value.host == host
      {
        OutrankingWins(s, t, host, path);
      }
    } else {
      var t := OtherwiseCanLose(s, host, path);
    }
  }

  /** A wildcard route with a longer prefix beats the exact host. */
  lemma WildcardCanWin()
    ensures var exact := Entry("a.b.c", "/", 100, "", [], "", [], "x");
            var wild := Entry("*.b.c", "/api", 100, "", [], "", [], "y");
            Sorted([wild, exact]) && FirstHit([wild, exact], "a.b.c", "/api") == Some(wild) && Hits(exact, "a.b.c", "/api")
  {
    assert "*.b.c" == "*." + "b.c" && "a.b.c" == "a" + ("." + "b.c");
    WildcardMeaning("*.b.c", "a.b.c");
  }
}
