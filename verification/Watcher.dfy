/** Container discovery: routing rules in labels, and the reconciliation of the route table. */
module Discovery {
  import opened Options
  import opened Texts
  import opened Routing

  // ---- Routing rules ----

  predicate OccursAt(s: string, sub: string, i: int) {
    0 <= i <= |s| - |sub| && s[i..i + |sub|] == sub
  }

  function IndexFrom(s: string, sub: string, i: nat): (r: int)
    requires i <= |s|
    ensures r >= 0 ==> r >= i && OccursAt(s, sub, r) && forall j :: i <= j < r ==> !OccursAt(s, sub, j)
    ensures r < 0 ==> r == -1 && forall j :: i <= j ==> !OccursAt(s, sub, j)
    decreases |s| - i
  {
    if i + |sub| > |s| then -1 else if s[i..i + |sub|] == sub then i else if i == |s| then -1 else IndexFrom(s, sub, i + 1)
  }

  /** The least position at which `sub` occurs, or -1. */
  function Index(s: string, sub: string): int { IndexFrom(s, sub, 0) }

  lemma IndexIs(s: string, sub: string, i: nat)
    requires OccursAt(s, sub, i) && forall j :: 0 <= j < i ==> !OccursAt(s, sub, j)
    ensures Index(s, sub) == i
  {
  }

  const HOST_OPEN := "Host(`"
  const PATH_OPEN := "PathPrefix(`"
  const CLOSE := "`)"

  /** The text after the first `open` up to the next closing mark; empty when either is missing. */
  function Between(rule: string, open: string): string {
    var idx := Index(rule, open);
    if idx < 0 then ""
    else
      var rest := rule[idx + |open|..];
      var end := Index(rest, CLOSE);
      if end >= 0 then rest[..end] else ""
  }

  function ParseRule(rule: string): (string, string) { (Between(rule, HOST_OPEN), Between(rule, PATH_OPEN)) }

  /** The rules the deployers write: a host, optionally with a path prefix. */
  function HostRule(host: string): string { HOST_OPEN + host + CLOSE }

  function HostPathRule(host: string, prefix: string): string { HostRule(host) + " && " + PATH_OPEN + prefix + CLOSE }

  lemma CloseEnds(h: string, tail: string)
    requires Index(h, CLOSE) < 0
    ensures Index(h + CLOSE + tail, CLOSE) == |h|
  {
    var s := h + CLOSE + tail;
    assert OccursAt(s, CLOSE, |h|);
    forall j | 0 <= j < |h| ensures !OccursAt(s, CLOSE, j) {
      assert s[|h|] == '`';
      if s[j..j + 2] == CLOSE {
        assert s[j..j + 2][1] == ')';
        assert h[j..j + 2] == CLOSE;
        assert OccursAt(h, CLOSE, j);
        assert false;
      }
    }
    IndexIs(s, CLOSE, |h|);
  }

  /** A written host comes back from the rule exactly when it contains no closing mark itself. */
  lemma HostRoundTrip(host: string, tail: string)
    ensures Between(HostRule(host) + tail, HOST_OPEN) == host <==> Index(host, CLOSE) < 0
  {
    var rule := HostRule(host) + tail;
    assert OccursAt(rule, HOST_OPEN, 0);
    IndexIs(rule, HOST_OPEN, 0);
    var rest := rule[|HOST_OPEN|..];
    assert rest == host + CLOSE + tail;
    if Index(host, CLOSE) < 0 {
      CloseEnds(host, tail);
      assert rest[..|host|] == host;
    } else {
      var i := Index(host, CLOSE);
      assert rest[i..i + 2] == host[i..i + 2];
      assert OccursAt(rest, CLOSE, i);
      assert i + 2 <= |host|;
      assert 0 <= Index(rest, CLOSE) <= i;
    }
  }

  lemma NoClose(s: string)
    requires '`' !in s
    ensures Index(s, CLOSE) < 0
  {
    forall i | 0 <= i <= |s| - 2 ensures !OccursAt(s, CLOSE, i) {
      assert s[i..i + 2][0] == s[i] != '`';
    }
  }

  /** The path mark does not occur before the path part of a rule. */
  lemma NoEarlyPath(host: string, tail: string, j: nat)
    requires '`' !in host && '(' !in host && (tail == "" || " && " + PATH_OPEN <= tail)
    requires j < |HostRule(host)| + 4
    ensures !OccursAt(HostRule(host) + tail, PATH_OPEN, j)
  {
    var s, q := HostRule(host) + tail, j + 11;
    assert s == HOST_OPEN + host + CLOSE + tail;
    if j + 12 <= |s| {
      assert s[j..j + 12][11] == s[q] && s[j..j + 12][10] == s[q - 1];
      if q < 6 + |host| { assert s[q] == host[q - 6]; }
      else if q == 6 + |host| { assert s[q - 1] == host[q - 7]; }
      else if q == 7 + |host| { assert s[q] == ')'; }
      else { assert s[q] == tail[q - 8 - |host|] && s[q] == (" && " + PATH_OPEN)[q - 8 - |host|]; }
    }
  }

  lemma NoPath(host: string)
    requires '`' !in host && '(' !in host
    ensures Between(HostRule(host), PATH_OPEN) == ""
  {
    var rule := HostRule(host);
    assert rule + "" == rule;
    var i := Index(rule, PATH_OPEN);
    if i >= 0 {
      NoEarlyPath(host, "", i);
    }
  }

  lemma PathRoundTrip(host: string, prefix: string)
    requires '`' !in host && '(' !in host && '`' !in prefix
    ensures Between(HostPathRule(host, prefix), PATH_OPEN) == prefix
  {
    var tail, rule := " && " + PATH_OPEN + prefix + CLOSE, HostPathRule(host, prefix);
    assert rule == HostRule(host) + tail;
    var at := |HostRule(host)| + 4;
    assert rule[at..at + 12] == PATH_OPEN;
    forall j | 0 <= j < at ensures !OccursAt(rule, PATH_OPEN, j) { NoEarlyPath(host, tail, j); }
    IndexIs(rule, PATH_OPEN, at);
    assert rule[at + 12..] == prefix + CLOSE + "";
    NoClose(prefix);
    CloseEnds(prefix, "");
    assert (prefix + CLOSE + "")[..|prefix|] == prefix;
  }

  /** For hosts without backtick or parenthesis and prefixes without backtick, both written forms
      parse back to what was written. */
  lemma RuleRoundTrip(host: string, prefix: string)
    requires '`' !in host && '(' !in host && '`' !in prefix
    ensures ParseRule(HostRule(host)) == (host, "")
    ensures ParseRule(HostPathRule(host, prefix)) == (host, prefix)
  {
    NoClose(host);
    HostRoundTrip(host, "");
    assert HostRule(host) + "" == HostRule(host);
    NoPath(host);
    var tail := " && " + PATH_OPEN + prefix + CLOSE;
    assert HostPathRule(host, prefix) == HostRule(host) + tail;
    HostRoundTrip(host, tail);
    PathRoundTrip(host, prefix);
  }

  // ---- Labels ----

  datatype Container = Container(id: string, state: string, labels: map<string, string>)

  function Label(labels: map<string, string>, key: string): string { if key in labels then labels[key] else "" }

  predicate IsRuleKey(key: string) { HasSuffix(key, ".rule") && HasPrefix(key, "monster.http.routers.") }

  predicate IsPortKey(key: string) { HasSuffix(key, ".server.port") && HasPrefix(key, "monster.http.services.") }

  predicate IsStrategyKey(key: string) { HasSuffix(key, ".strategy") }

  function ShortID(id: string, max: int): string { if max <= 0 || |id| <= max then id else id[..max] }

  predicate IsMiddlewaresKey(key: string) { HasSuffix(key, ".middlewares") && HasPrefix(key, "monster.http.routers.") }

  /** `v` is the value of some label whose key satisfies `f`, or missing when there is none. */
  ghost predicate Picked(labels: map<string, string>, f: string -> bool, v: Option<string>) {
    if exists k :: k in labels && f(k) then exists k :: k in labels && f(k) && v == Some(labels[k]) else v == None
  }

  function Or(v: Option<string>, default: string): string { if v.Some? then v.value else default }

  function Trimmed(parts: seq<string>): seq<string> { seq(|parts|, i requires 0 <= i < |parts| => TrimSpace(parts[i])) }

  /** The names in a middlewares label. */
  function Middlewares(v: Option<string>): seq<string> { if v.None? then [] else Trimmed(SplitAt(v.value, ',')) }

  /** The part is the name with spaces around it. */
  ghost predicate Padded(part: string, name: string) {
    exists before: string, after: string :: AllSpaces(before) && AllSpaces(after) && part == before + name + after
  }

  /** A list of names, none with a comma or spaces at its ends, written with commas and any spaces between is read back. */
  lemma MiddlewaresRoundTrip(names: seq<string>, parts: seq<string>)
    requires names != [] && |parts| == |names|
    requires forall i :: 0 <= i < |names| ==> Tight(names[i]) && ',' !in parts[i] && Padded(parts[i], names[i])
    ensures Middlewares(Some(JoinWith(parts, ','))) == names
  {
    SplitJoined(parts, ',');
    forall i | 0 <= i < |names| ensures TrimSpace(parts[i]) == names[i] {
      var before: string, after: string :| AllSpaces(before) && AllSpaces(after) && parts[i] == before + names[i] + after;
      TrimSpaceLaw(before, names[i], after);
    }
  }

  /** What parsing a container's labels may give; with several candidate labels, map order decides which one counts. */
  ghost predicate ParsesTo(labels: map<string, string>, id: string, r: Option<Entry>) {
    exists rule, port, strategy, mws: Option<string> ::
      && Picked(labels, IsRuleKey, rule) && Picked(labels, IsPortKey, port)
      && Picked(labels, IsStrategyKey, strategy) && Picked(labels, IsMiddlewaresKey, mws)
      && r == RouteFrom(labels, id, rule, port, strategy, mws)
  }

  function RouteFrom(labels: map<string, string>, id: string, rule: Option<string>, port: Option<string>,
                     strategy: Option<string>, mws: Option<string>): Option<Entry>
  {
    var (host, prefix) := ParseRule(Or(rule, ""));
    if host == "" then None
    else Some(Entry(host, Normalized(prefix), 100, Label(labels, "monster.app.name"), [ShortID(id, 12) + ":" + Or(port, "80")],
                    Or(strategy, "round-robin"), Middlewares(mws), Label(labels, "monster.app.id")))
  }

  /** Where the fields of a route come from: each from a label of its kind, or its default when there is none. */
  lemma RouteFields(labels: map<string, string>, id: string, r: Option<Entry>)
    requires ParsesTo(labels, id, r) && r.Some?
    ensures exists k :: k in labels && IsRuleKey(k) && RuleGives(labels[k], r.value.host, r.value.prefix)
    ensures var short := if |id| <= 12 then id else id[..12];
            if exists k :: k in labels && IsPortKey(k)
            then exists k :: k in labels && IsPortKey(k) && r.value.backends == [short + ":" + labels[k]]
            else r.value.backends == [short + ":" + "80"]
    ensures if exists k :: k in labels && IsStrategyKey(k)
            then exists k :: k in labels && IsStrategyKey(k) && r.value.strategy == labels[k]
            else r.value.strategy == "round-robin"
    ensures (forall k :: k in labels ==> !IsMiddlewaresKey(k)) ==> r.value.middlewares == []
    ensures r.value.priority == 100 && r.value.service == Label(labels, "monster.app.name") && r.value.appID == Label(labels, "monster.app.id")
  {
    var rule, port, strategy, mws: Option<string> :|
      && Picked(labels, IsRuleKey, rule) && Picked(labels, IsPortKey, port)
      && Picked(labels, IsStrategyKey, strategy) && Picked(labels, IsMiddlewaresKey, mws)
      && r == RouteFrom(labels, id, rule, port, strategy, mws);
    EmptyRule();
    assert rule.Some? && RuleGives(rule.value, r.value.host, r.value.prefix);
  }

  /** The rule names the host, and the prefix or none. */
  predicate RuleGives(rule: string, host: string, prefix: string) {
    host != "" && ParseRule(rule).0 == host && prefix == if ParseRule(rule).1 == "" then "/" else ParseRule(rule).1
  }

  lemma EmptyRule()
    ensures ParseRule("") == ("", "")
  {
  }

  method PickLabel(labels: map<string, string>, f: string -> bool) returns (v: Option<string>)
    ensures Picked(labels, f, v)
  {
    var todo := labels.Keys;
    while todo != {}
      invariant todo <= labels.Keys
      invariant forall k :: k in labels && k !in todo ==> !f(k)
      decreases todo
    {
      var k :| k in todo;
      if f(k) {
        return Some(labels[k]);
      }
      todo := todo - {k};
    }
    return None;
  }

  method PickMiddlewares(labels: map<string, string>) returns (ms: seq<string>, ghost v: Option<string>)
    ensures Picked(labels, IsMiddlewaresKey, v) && ms == Middlewares(v)
  {
    var value := PickLabel(labels, IsMiddlewaresKey);
    v := value;
    ms := [];
    if value.Some? {
      ms := SplitAt(value.value, ',');
      ghost var parts := ms;
      for i := 0 to |ms|
        invariant |ms| == |parts|
        invariant forall j :: 0 <= j < |ms| ==> ms[j] == if j < i then TrimSpace(parts[j]) else parts[j]
      {
        ms := ms[i := TrimSpace(ms[i])];
      }
      assert ms == Trimmed(parts);
    }
  }

  method ParseLabelsToRoute(labels: map<string, string>, id: string) returns (r: Option<Entry>)
    ensures ParsesTo(labels, id, r)
    ensures r.Some? ==> r.value.appID == Label(labels, "monster.app.id") && r.value.host != "" && r.value.prefix != ""
  {
    var rule := PickLabel(labels, IsRuleKey);
    var (host, prefix) := ParseRule(Or(rule, ""));
    var port := PickLabel(labels, IsPortKey);
    var ms, mws := PickMiddlewares(labels);
    var strategy := PickLabel(labels, IsStrategyKey);
    if host == "" {
      r := None;
    } else {
      r := Some(Entry(host, Normalized(prefix), 100, Label(labels, "monster.app.name"), [ShortID(id, 12) + ":" + Or(port, "80")],
                      Or(strategy, "round-robin"), ms, Label(labels, "monster.app.id")));
    }
    assert r == RouteFrom(labels, id, rule, port, strategy, mws);
  }

  // ---- The labels a rollback gives its container ----

  function RuleKey(router: string): string { "monster.http.routers." + router + ".rule" }

  function PortKey(router: string): string { "monster.http.services." + router + ".loadbalancer.server.port" }

  /** Routing labels added to an application's own: a rule for each domain, and the port each time. */
  function WithRoutes(own: map<string, string>, rule: nat -> string, at: nat -> string, domains: seq<string>, port: string): map<string, string> {
    if domains == [] then own
    else var i := |domains| - 1; WithRoutes(own, rule, at, domains[..i], port)[rule(i) := HostRule(domains[i])][at(i) := port]
  }

  /** One router per domain of the application; `router` names them. */
  function RollbackLabels(own: map<string, string>, router: nat -> string, domains: seq<string>, port: string): map<string, string> {
    WithRoutes(own, RuleKeys(router), PortKeys(router), domains, port)
  }

  function RuleKeys(router: nat -> string): nat -> string { (i: nat) => RuleKey(router(i)) }

  function PortKeys(router: nat -> string): nat -> string { (i: nat) => PortKey(router(i)) }

  function OwnLabels(app: string, name: string, tenant: string, version: string, from: string): map<string, string> {
    map["monster.enable" := "true", "monster.app.id" := app, "monster.app.name" := name, "monster.tenant" := tenant,
        "monster.deploy.version" := version, "monster.rollback.from" := from]
  }

  /** A key that is no routing key: it stands outside "monster.http." and does not end as a strategy key. */
  predicate NotRouting(k: string) { |k| > 8 && k[..8] == "monster." && k[8] != 'h' && k[|k| - 1] != 'y' }

  lemma OwnKeys(app: string, name: string, tenant: string, version: string, from: string)
    ensures forall k :: k in OwnLabels(app, name, tenant, version, from) ==> NotRouting(k)
    ensures Label(OwnLabels(app, name, tenant, version, from), "monster.app.id") == app
    ensures Label(OwnLabels(app, name, tenant, version, from), "monster.app.name") == name
  {
  }

  lemma KindOfOwn(k: string)
    requires NotRouting(k)
    ensures !IsRuleKey(k) && !IsPortKey(k) && !IsStrategyKey(k) && !IsMiddlewaresKey(k)
  {
    assert |k| >= 9 ==> k[|k| - 9..][8] == k[|k| - 1];
  }

  lemma KindOfRule(router: string)
    ensures var k := RuleKey(router); IsRuleKey(k) && !IsPortKey(k) && !IsStrategyKey(k) && !IsMiddlewaresKey(k) && !NotRouting(k)
  {
    var k := RuleKey(router);
    assert k[|k| - 5..] == ".rule" && k[|k| - 1] == 'e' && k[8] == 'h';
    assert |k| >= 12 && k[|k| - 12..][11] == k[|k| - 1] && k[|k| - 9..][8] == k[|k| - 1];
  }

  lemma KindOfPort(router: string)
    ensures var k := PortKey(router); IsPortKey(k) && !IsRuleKey(k) && !IsStrategyKey(k) && !IsMiddlewaresKey(k) && !NotRouting(k)
  {
    var k := PortKey(router);
    assert k == "monster.http.services." + router + ".loadbalancer" + ".server.port";
    assert k[|k| - 12..] == ".server.port" && k[|k| - 1] == 't' && k[8] == 'h';
    assert k[|k| - 5..][4] == k[|k| - 1] && k[|k| - 9..][8] == k[|k| - 1] && k[|k| - 12..][11] == k[|k| - 1];
  }

  /** The other two labels discovery reads. */
  lemma KindOfRest(router: string)
    ensures IsMiddlewaresKey("monster.http.routers." + router + ".middlewares")
    ensures IsStrategyKey("monster.http.services." + router + ".loadbalancer.strategy")
  {
    var k, j := "monster.http.routers." + router + ".middlewares", "monster.http.services." + router + ".loadbalancer" + ".strategy";
    assert k[|k| - 12..] == ".middlewares";
    assert j == "monster.http.services." + router + ".loadbalancer.strategy" && j[|j| - 9..] == ".strategy";
  }

  /** The kinds of label keys: rules, ports, the other routing keys, and keys without a meaning for routing. */
  datatype Kinds = Kinds(rule: string -> bool, port: string -> bool, rest: string -> bool, plain: string -> bool)

  function RestKey(k: string): bool { IsStrategyKey(k) || IsMiddlewaresKey(k) }

  const KINDS := Kinds(IsRuleKey, IsPortKey, RestKey, NotRouting)

  /** `l` has rule labels for the domains and for nothing else, all port labels say `port`, and the plain labels are `own`. */
  ghost predicate LabelsFit(f: Kinds, l: map<string, string>, own: map<string, string>, domains: seq<string>, port: string) {
    && (forall k :: k in l && f.rule(k) ==> exists d :: d in domains && l[k] == HostRule(d))
    && (forall k :: k in l && f.port(k) ==> l[k] == port)
    && (forall k :: k in l ==> !f.rest(k))
    && (domains != [] ==> (exists k :: k in l && f.rule(k)) && exists k :: k in l && f.port(k))
    && (forall k :: f.plain(k) ==> (k in l <==> k in own) && (k in own ==> l[k] == own[k]))
  }

  lemma LabelsGrow(f: Kinds, l: map<string, string>, own: map<string, string>, domains: seq<string>, port: string, d: string, rule: string, at: string)
    requires LabelsFit(f, l, own, domains, port)
    requires f.rule(rule) && !f.port(rule) && !f.rest(rule) && !f.plain(rule)
    requires f.port(at) && !f.rule(at) && !f.rest(at) && !f.plain(at)
    ensures LabelsFit(f, l[rule := HostRule(d)][at := port], own, domains + [d], port)
  {
    var t, ds := l[rule := HostRule(d)][at := port], domains + [d];
    assert ds[|domains|] == d && rule in t && at in t;
    forall k | k in t && f.rule(k) ensures exists d :: d in ds && t[k] == HostRule(d) {
      if k == rule {
        assert d in ds;
      } else {
        var e :| e in domains && l[k] == HostRule(e);
        assert e in ds;
      }
    }
  }

  predicate IsRuleOnly(f: Kinds, k: string) { f.rule(k) && !f.port(k) && !f.rest(k) && !f.plain(k) }

  predicate IsPortOnly(f: Kinds, k: string) { f.port(k) && !f.rule(k) && !f.rest(k) && !f.plain(k) }

  predicate IsPlainOnly(f: Kinds, k: string) { f.plain(k) && !f.rule(k) && !f.port(k) && !f.rest(k) }

  lemma {:induction false} LabelsFitAlways(f: Kinds, own: map<string, string>, rule: nat -> string, at: nat -> string, domains: seq<string>, port: string)
    requires forall k :: k in own ==> IsPlainOnly(f, k)
    requires forall i: nat :: IsRuleOnly(f, rule(i)) && IsPortOnly(f, at(i))
    ensures LabelsFit(f, WithRoutes(own, rule, at, domains, port), own, domains, port)
  {
    if domains != [] {
      var i := |domains| - 1;
      LabelsFitAlways(f, own, rule, at, domains[..i], port);
      LabelsGrow(f, WithRoutes(own, rule, at, domains[..i], port), own, domains[..i], port, domains[i], rule(i), at(i));
      assert domains == domains[..i] + [domains[i]];
    }
  }

  lemma KindOfKeys(k: string, router: string)
    ensures IsRuleOnly(KINDS, RuleKey(router)) && IsPortOnly(KINDS, PortKey(router))
    ensures NotRouting(k) ==> IsPlainOnly(KINDS, k)
  {
    KindOfRule(router);
    KindOfPort(router);
    if NotRouting(k) { KindOfOwn(k); }
  }

  lemma RollbackKeys(own: map<string, string>, router: nat -> string, domains: seq<string>, port: string)
    requires forall k :: k in own ==> NotRouting(k)
    ensures LabelsFit(KINDS, RollbackLabels(own, router, domains, port), own, domains, port)
  {
    forall k | k in own ensures IsPlainOnly(KINDS, k) { KindOfKeys(k, ""); }
    var rule, at := RuleKeys(router), PortKeys(router);
    forall i: nat ensures IsRuleOnly(KINDS, rule(i)) && IsPortOnly(KINDS, at(i)) { KindOfKeys("", router(i)); }
    LabelsFitAlways(KINDS, own, rule, at, domains, port);
  }

  /** What discovery picks from such labels. */
  lemma PicksFit(f: Kinds, l: map<string, string>, own: map<string, string>, domains: seq<string>, port: string,
                 rule: Option<string>, at: Option<string>)
    requires LabelsFit(f, l, own, domains, port) && Picked(l, f.rule, rule) && Picked(l, f.port, at)
    ensures domains == [] ==> rule.None?
    ensures domains != [] ==> at == Some(port) && exists d :: d in domains && rule == Some(HostRule(d))
  {
  }

  lemma PicksNone(l: map<string, string>, f: string -> bool, v: Option<string>)
    requires Picked(l, f, v) && forall k :: k in l ==> !f(k)
    ensures v.None?
  {
  }

  lemma RouteOfRule(l: map<string, string>, id: string, d: string, port: string)
    requires d != "" && '`' !in d && '(' !in d
    ensures RouteFrom(l, id, Some(HostRule(d)), Some(port), None, None)
         == Some(Entry(d, "/", 100, Label(l, "monster.app.name"), [(if |id| <= 12 then id else id[..12]) + ":" + port], "round-robin", [],
                       Label(l, "monster.app.id")))
  {
    RuleRoundTrip(d, "");
  }

  /** The route to a new container, as the application's name, domain, port and ID give it. */
  function NewRoute(app: string, name: string, domain: string, port: string, id: string): Entry {
    Entry(domain, "/", 100, name, [(if |id| <= 12 then id else id[..12]) + ":" + port], "round-robin", [], app)
  }

  lemma RouteOfPicks(f: Kinds, app: string, name: string, l: map<string, string>, own: map<string, string>, domains: seq<string>,
                     port: string, id: string, rule: Option<string>, at: Option<string>)
    requires LabelsFit(f, l, own, domains, port) && Picked(l, f.rule, rule) && Picked(l, f.port, at)
    requires f.plain("monster.app.id") && f.plain("monster.app.name")
    requires Label(own, "monster.app.id") == app && Label(own, "monster.app.name") == name
    requires forall d :: d in domains ==> d != "" && '`' !in d && '(' !in d
    ensures domains == [] ==> RouteFrom(l, id, rule, at, None, None).None?
    ensures domains != [] ==> exists d :: d in domains && RouteFrom(l, id, rule, at, None, None) == Some(NewRoute(app, name, d, port, id))
  {
    PicksFit(f, l, own, domains, port, rule, at);
    if domains == [] {
      EmptyRule();
    } else {
      var d :| d in domains && rule == Some(HostRule(d));
      RouteOfRule(l, id, d, port);
    }
  }

  /** Discovery reads a rollback's labels back as a route for one of the application's domains, to the new container on the
      application's port; the other domains get no route from this container, and without a domain there is none. */
  lemma RollbackIsRouted(app: string, name: string, own: map<string, string>, router: nat -> string, domains: seq<string>,
                         port: string, id: string, r: Option<Entry>)
    requires forall k :: k in own ==> NotRouting(k)
    requires Label(own, "monster.app.id") == app && Label(own, "monster.app.name") == name
    requires forall d :: d in domains ==> d != "" && '`' !in d && '(' !in d
    requires ParsesTo(RollbackLabels(own, router, domains, port), id, r)
    ensures domains == [] ==> r.None?
    ensures domains != [] ==> exists d :: d in domains && r == Some(NewRoute(app, name, d, port, id))
  {
    RollbackKeys(own, router, domains, port);
    FittingLabelsAreRouted(app, name, RollbackLabels(own, router, domains, port), own, domains, port, id, r);
  }

  lemma FittingLabelsAreRouted(app: string, name: string, l: map<string, string>, own: map<string, string>, domains: seq<string>,
                               port: string, id: string, r: Option<Entry>)
    requires LabelsFit(KINDS, l, own, domains, port) && ParsesTo(l, id, r)
    requires Label(own, "monster.app.id") == app && Label(own, "monster.app.name") == name
    requires forall d :: d in domains ==> d != "" && '`' !in d && '(' !in d
    ensures domains == [] ==> r.None?
    ensures domains != [] ==> exists d :: d in domains && r == Some(NewRoute(app, name, d, port, id))
  {
    NoRest(KINDS, l, own, domains, port);
    var rule, at := PickedBy(l, id, r);
    PlainKeys();
    RouteOfPicks(KINDS, app, name, l, own, domains, port, id, rule, at);
  }

  lemma NoRest(f: Kinds, l: map<string, string>, own: map<string, string>, domains: seq<string>, port: string)
    requires LabelsFit(f, l, own, domains, port)
    ensures forall k :: k in l ==> !f.rest(k)
  {
  }

  lemma PlainKeys()
    ensures NotRouting("monster.app.id") && NotRouting("monster.app.name")
  {
  }

  /** Without strategy and middlewares labels only the rule and the port are picked. */
  lemma PickedBy(l: map<string, string>, id: string, r: Option<Entry>) returns (rule: Option<string>, at: Option<string>)
    requires ParsesTo(l, id, r) && forall k :: k in l ==> !RestKey(k)
    ensures Picked(l, IsRuleKey, rule) && Picked(l, IsPortKey, at) && r == RouteFrom(l, id, rule, at, None, None)
  {
    var strategy, mws: Option<string>;
    rule, at, strategy, mws :|
      && Picked(l, IsRuleKey, rule) && Picked(l, IsPortKey, at)
      && Picked(l, IsStrategyKey, strategy) && Picked(l, IsMiddlewaresKey, mws)
      && r == RouteFrom(l, id, rule, at, strategy, mws);
    PicksNone(l, IsStrategyKey, strategy);
    PicksNone(l, IsMiddlewaresKey, mws);
  }

  // ---- Reconciliation ----

  datatype Listing = ListFailed | Listed(containers: seq<Container>)

  predicate Eligible(c: Container) { c.state == "running" && Label(c.labels, "monster.app.id") != "" }

  /** The applications with at least one running container. */
  ghost function ActiveApps(cs: seq<Container>): set<string> {
    set c | c in cs && Eligible(c) :: Label(c.labels, "monster.app.id")
  }

  /** Which containers get a route: only running ones of an application, and of those every one whose rule names a host. */
  lemma RoutedExactly(c: Container, r: Option<Entry>)
    requires ParsedFrom(c, r)
    ensures c.state != "running" || "monster.app.id" !in c.labels || c.labels["monster.app.id"] == "" ==> r.None?
    ensures (forall k :: k in c.labels && IsRuleKey(k) ==> ParseRule(c.labels[k]).0 == "") ==> r.None?
    ensures c.state == "running" && "monster.app.id" in c.labels && c.labels["monster.app.id"] != ""
            && (exists k :: k in c.labels && IsRuleKey(k)) && (forall k :: k in c.labels && IsRuleKey(k) ==> ParseRule(c.labels[k]).0 != "")
            ==> r.Some? && r.value.appID == c.labels["monster.app.id"]
  {
    EmptyRule();
    if Eligible(c) {
      var rule, port, strategy, mws: Option<string> :|
        && Picked(c.labels, IsRuleKey, rule) && Picked(c.labels, IsPortKey, port)
        && Picked(c.labels, IsStrategyKey, strategy) && Picked(c.labels, IsMiddlewaresKey, mws)
        && r == RouteFrom(c.labels, c.id, rule, port, strategy, mws);
    }
  }

  /** A rule without the host mark names no host. */
  lemma NoHostMark(rule: string)
    requires Index(rule, "Host(`") < 0
    ensures ParseRule(rule).0 == ""
  {
  }

  /** The table after upserting the parsed routes in listing order. */
  ghost function Upserted(t: map<Key, Entry>, parsed: seq<Option<Entry>>): map<Key, Entry> {
    if parsed == [] then t
    else
      var before, last := Upserted(t, parsed[..|parsed| - 1]), parsed[|parsed| - 1];
      if last.None? then before else before[KeyOf(last.value) := last.value]
  }

  /** The table without the routes of applications that have no running container. */
  ghost function Swept(t: map<Key, Entry>, active: set<string>): map<Key, Entry> {
    map k | k in t && (t[k].appID == "" || t[k].appID in active) :: t[k]
  }

  /** None for a container that is skipped, else what its labels parse to. */
  ghost predicate ParsedFrom(c: Container, r: Option<Entry>) {
    if Eligible(c) then
      ParsesTo(c.labels, c.id, r) && (r.Some? ==> r.value.appID == Label(c.labels, "monster.app.id") && r.value.prefix != "")
    else r.None?
  }

  /** One parse result per container. */
  ghost predicate ParsedOf(cs: seq<Container>, parsed: seq<Option<Entry>>) { Pairwise(ParsedFrom, cs, parsed) }

  ghost predicate Pairwise<A, B>(p: (A, B) -> bool, a: seq<A>, b: seq<B>) {
    |b| == |a| && forall i :: 0 <= i < |a| ==> p(a[i], b[i])
  }

  lemma PairwiseGrows<A, B>(p: (A, B) -> bool, a: seq<A>, i: nat, b: seq<B>, y: B)
    requires i < |a| && Pairwise(p, a[..i], b) && p(a[i], y)
    ensures Pairwise(p, a[..i + 1], b + [y])
  {
    assert forall k :: 0 <= k < i ==> a[..i + 1][k] == a[..i][k] && (b + [y])[k] == b[k];
  }

  /** The first pass for one container: nothing for a skipped one, else its parsed route is upserted. */
  method SyncOne(c: Container, rt: RouteTable) returns (r: Option<Entry>)
    requires rt.Valid()
    modifies rt
    ensures rt.Valid() && ParsedFrom(c, r)
    ensures rt.Routes() == if r.None? then old(rt.Routes()) else old(rt.Routes())[KeyOf(r.value) := r.value]
  {
    r := None;
    if c.state == "running" && Label(c.labels, "monster.app.id") != "" {
      r := ParseLabelsToRoute(c.labels, c.id);
      if r.Some? {
        rt.Upsert(r.value);
      }
    }
  }

  /** Upserts the route of every running container, then drops the routes of applications without one. */
  method SyncRoutes(listing: Listing, rt: RouteTable) returns (parsed: seq<Option<Entry>>)
    requires rt.Valid()
    modifies rt
    ensures rt.Valid()
    ensures listing.ListFailed? ==> rt.snapshot == old(rt.snapshot) && rt.Routes() == old(rt.Routes())
    ensures listing.Listed? ==> ParsedOf(listing.containers, parsed)
    ensures listing.Listed? ==> rt.Routes() == Swept(Upserted(old(rt.Routes()), parsed), ActiveApps(listing.containers))
  {
    parsed := [];
    if listing.ListFailed? {
      return;
    }
    ghost var before := rt.Routes();
    var cs := listing.containers;
    var active: set<string> := {};
    for i := 0 to |cs|
      invariant rt.Valid() && rt.Routes() == Upserted(before, parsed)
      invariant ParsedOf(cs[..i], parsed)
      invariant active == ActiveApps(cs[..i])
    {
      var c := cs[i];
      if c.state == "running" && Label(c.labels, "monster.app.id") != "" {
        active := active + {Label(c.labels, "monster.app.id")};
      }
      var r := SyncOne(c, rt);
      ActiveGrows(cs, i);
      ParsedGrows(cs, i, parsed, r);
      UpsertedGrows(before, parsed, r);
      parsed := parsed + [r];
    }
    assert cs[..|cs|] == cs;
    Sweep(rt, active);
  }

  lemma ParsedGrows(cs: seq<Container>, i: nat, parsed: seq<Option<Entry>>, r: Option<Entry>)
    requires i < |cs| && ParsedOf(cs[..i], parsed) && ParsedFrom(cs[i], r)
    ensures ParsedOf(cs[..i + 1], parsed + [r])
  {
    PairwiseGrows(ParsedFrom, cs, i, parsed, r);
  }

  lemma UpsertedGrows(t: map<Key, Entry>, parsed: seq<Option<Entry>>, r: Option<Entry>)
    ensures Upserted(t, parsed + [r]) == if r.None? then Upserted(t, parsed) else Upserted(t, parsed)[KeyOf(r.value) := r.value]
  {
    assert (parsed + [r])[..|parsed|] == parsed;
  }

  lemma ActiveGrows(cs: seq<Container>, i: nat)
    requires i < |cs|
    ensures ActiveApps(cs[..i + 1]) == ActiveApps(cs[..i]) + if Eligible(cs[i]) then {Label(cs[i].labels, "monster.app.id")} else {}
  {
    assert cs[..i + 1] == cs[..i] + [cs[i]];
  }

  /** The second pass of `syncRoutes`: one removal per stale application. */
  method Sweep(rt: RouteTable, active: set<string>)
    requires rt.Valid()
    modifies rt
    ensures rt.Valid() && rt.Routes() == Swept(old(rt.Routes()), active)
  {
    ghost var before := rt.Routes();
    var all := rt.All();
    TableRepresents(all);
    var seen: set<string> := {};
    UnlistedNone(before);
    for i := 0 to |all|
      invariant rt.Valid() && rt.Routes() == Unlisted(before, seen)
      invariant "" !in seen && seen !! active
      invariant forall j :: 0 <= j < i ==> all[j].appID == "" || all[j].appID in active || all[j].appID in seen
    {
      var app := all[i].appID;
      if app != "" && app !in active && app !in seen {
        UnlistedGrows(before, seen, app);
        seen := seen + {app};
        rt.RemoveByAppID(app);
      }
    }
    SweepDone(before, all, active, seen);
  }

  lemma UnlistedNone(t: map<Key, Entry>)
    ensures Unlisted(t, {}) == t
  {
  }

  lemma UnlistedGrows(t: map<Key, Entry>, seen: set<string>, app: string)
    ensures DropApp(Unlisted(t, seen), app) == Unlisted(t, seen + {app})
  {
  }

  lemma SweepDone(t: map<Key, Entry>, all: seq<Entry>, active: set<string>, seen: set<string>)
    requires Represents(all, t) && "" !in seen && seen !! active
    requires forall j :: 0 <= j < |all| ==> all[j].appID == "" || all[j].appID in active || all[j].appID in seen
    ensures Unlisted(t, seen) == Swept(t, active)
  {
  }

  ghost function Unlisted(t: map<Key, Entry>, seen: set<string>): map<Key, Entry> {
    map k | k in t && t[k].appID !in seen :: t[k]
  }

  /** `i` is the last container whose route goes under key `k`. */
  ghost predicate LastFor(parsed: seq<Option<Entry>>, k: Key, i: nat) {
    && i < |parsed| && parsed[i].Some? && KeyOf(parsed[i].value) == k
    && forall j :: i < j < |parsed| && parsed[j].Some? ==> KeyOf(parsed[j].value) != k
  }

  ghost predicate Untouched(parsed: seq<Option<Entry>>, k: Key) {
    forall j :: 0 <= j < |parsed| && parsed[j].Some? ==> KeyOf(parsed[j].value) != k
  }

  lemma {:induction false} UpsertedAt(t: map<Key, Entry>, parsed: seq<Option<Entry>>, k: Key, i: nat)
    ensures LastFor(parsed, k, i) ==> k in Upserted(t, parsed) && Upserted(t, parsed)[k] == parsed[i].value
    ensures Untouched(parsed, k) ==> (k in Upserted(t, parsed) <==> k in t) && (k in t ==> Upserted(t, parsed)[k] == t[k])
  {
    if parsed != [] {
      var front := parsed[..|parsed| - 1];
      UpsertedAt(t, front, k, i);
      if LastFor(parsed, k, i) && i < |front| {
        assert LastFor(front, k, i);
      }
    }
  }

  /** The reconciled table key by key: the last running container's route under its key; an untouched old route
      exactly when it has no application or an active one; nothing else. */
  lemma Reconciled(t: map<Key, Entry>, cs: seq<Container>, parsed: seq<Option<Entry>>, k: Key, i: nat)
    requires ParsedOf(cs, parsed)
    ensures var r := Swept(Upserted(t, parsed), ActiveApps(cs));
            && (LastFor(parsed, k, i) ==> k in r && r[k] == parsed[i].value)
            && (Untouched(parsed, k) ==> (k in r <==> k in t && (t[k].appID == "" || t[k].appID in ActiveApps(cs))) && (k in r ==> r[k] == t[k]))
            && (k in r ==> r[k].appID == "" || exists c :: c in cs && c.state == "running" && Label(c.labels, "monster.app.id") == r[k].appID)
  {
    UpsertedAt(t, parsed, k, i);
    if LastFor(parsed, k, i) {
      assert cs[i] in cs && Eligible(cs[i]);
      assert Label(cs[i].labels, "monster.app.id") in ActiveApps(cs);
    }
  }
}
