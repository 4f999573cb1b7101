/** Stripe webhooks: replay suppression with a time-limited memory, and the tenant changes it protects. */
module Stripe {
  import opened Options

  datatype Plan = Plan(id: string, stripePrice: string)

  datatype Metadata = Metadata(customer: string, subscription: string, item: string, price: string, status: string,
                               updatedAt: int, lastSucceeded: int, lastFailed: int)

  datatype Tenant = Tenant(planID: string, md: Metadata)

  type Tenants = map<string, Tenant>

  datatype Subscription = Subscription(id: string, customer: string, status: string, tenantID: string, first: Option<(string, string)>)

  /** A decoded event; `Undecodable`: the payload of a handled type does not parse; `Other`: types that change no tenant. */
  datatype Event =
    | Updated(sub: Subscription)
    | Canceled(sub: Subscription)
    | InvoicePaid(tenantID: string)
    | InvoiceFailed(tenantID: string)
    | Undecodable
    | Other

  /** One webhook call: whether signature and envelope are good, the event, whether the tenant store works during
      the call, and the four clock readings it makes. An empty ID is possible. */
  datatype Delivery = Delivery(wellFormed: bool, id: string, event: Event, storeOk: bool,
                               checkAt: int, workAt: int, sweepAt: int, markAt: int)

  datatype Config = Config(plans: seq<Plan>, ttl: int)

  // ---- Dispatch ----

  function PlanByPrice(plans: seq<Plan>, price: string): Option<string> {
    if plans == [] then None
    else if plans[0].stripePrice == price then Some(plans[0].id) else PlanByPrice(plans[1..], price)
  }

  predicate HasPlan(plans: seq<Plan>, id: string) { exists p :: p in plans && p.id == id }

  function ResolvedPlan(plans: seq<Plan>, price: string, current: string): string {
    if price == "" then current
    else var p := PlanByPrice(plans, price); if p.Some? then p.value else current
  }

  function AfterUpdate(plans: seq<Plan>, t: Tenant, sub: Subscription, now: int): Tenant {
    var md := t.md.(customer := sub.customer, subscription := sub.id, status := sub.status, updatedAt := now);
    var md' := if sub.first.Some? then md.(item := sub.first.value.0, price := sub.first.value.1) else md;
    Tenant(ResolvedPlan(plans, md'.price, t.planID), md')
  }

  function AfterCancel(plans: seq<Plan>, t: Tenant, now: int): Tenant {
    Tenant(if HasPlan(plans, "free") then "free" else t.planID,
           t.md.(status := "canceled", subscription := "", item := "", price := "", updatedAt := now))
  }

  /** The tenants after handling an event, or `None` when the handler reports an error and has changed nothing.
      Invoice handlers swallow store errors. */
  function Dispatch(c: Config, ts: Tenants, e: Event, now: int, storeOk: bool): Option<Tenants> {
    match e
    case Updated(sub) =>
      if sub.id == "" then None
      else if sub.tenantID == "" then Some(ts)
      else if !storeOk || sub.tenantID !in ts then None
      else Some(ts[sub.tenantID := AfterUpdate(c.plans, ts[sub.tenantID], sub, now)])
    case Canceled(sub) =>
      if sub.tenantID == "" then Some(ts)
      else if !storeOk || sub.tenantID !in ts then None
      else Some(ts[sub.tenantID := AfterCancel(c.plans, ts[sub.tenantID], now)])
    case InvoicePaid(id) =>
      if id == "" || !storeOk || id !in ts then Some(ts)
      else Some(ts[id := ts[id].(md := ts[id].md.(lastSucceeded := now, status := "active"))])
    case InvoiceFailed(id) =>
      if id == "" || !storeOk || id !in ts then Some(ts)
      else Some(ts[id := ts[id].(md := ts[id].md.(lastFailed := now, status := "past_due"))])
    case Undecodable => None
    case Other => Some(ts)
  }

  /** Exactly the events reported as errors, so that they are sent again: payloads that do not parse, an update without a
      subscription ID, and subscription events whose tenant cannot be read. */
  lemma DispatchFails(c: Config, ts: Tenants, e: Event, now: int, storeOk: bool)
    ensures Dispatch(c, ts, e, now, storeOk).None? <==>
              || e.Undecodable?
              || (e.Updated? && e.sub.id == "")
              || ((e.Updated? || e.Canceled?) && e.sub.tenantID != "" && (!storeOk || e.sub.tenantID !in ts))
  {
  }

  /** The tenant an event names. */
  function Subject(e: Event): string {
    match e
    case Updated(sub) => sub.tenantID
    case Canceled(sub) => sub.tenantID
    case InvoicePaid(id) => id
    case InvoiceFailed(id) => id
    case _ => ""
  }

  /** No event adds or removes a tenant or changes another one than it names. */
  lemma OnlySubjectChanges(c: Config, ts: Tenants, e: Event, now: int, storeOk: bool, x: string)
    requires Dispatch(c, ts, e, now, storeOk).Some?
    ensures x in Dispatch(c, ts, e, now, storeOk).value <==> x in ts
    ensures x in ts && (x != Subject(e) || x == "") ==> Dispatch(c, ts, e, now, storeOk).value[x] == ts[x]
  {
  }

  // ---- The handler ----

  datatype Result = Rejected | Suppressed | Failed | Done

  datatype State = State(seen: map<string, int>, tenants: Tenants)

  /** The memory after a sweep at `now`; a non-positive limit means it is kept for ever. */
  function Swept(seen: map<string, int>, ttl: int, now: int): map<string, int> {
    if ttl <= 0 then seen else map id | id in seen && seen[id] >= now - ttl :: seen[id]
  }

  function Handle(c: Config, s: State, d: Delivery): (State, Result) {
    if !d.wellFormed then (s, Rejected)
    else
      var seen1 := if d.id != "" then Swept(s.seen, c.ttl, d.checkAt) else s.seen;
      if d.id != "" && d.id in seen1 then (s.(seen := seen1), Suppressed)
      else
        var ts := Dispatch(c, s.tenants, d.event, d.workAt, d.storeOk);
        if ts.None? then (s.(seen := seen1), Failed)
        else (State(if d.id != "" then Swept(seen1, c.ttl, d.sweepAt)[d.id := d.markAt] else seen1, ts.value), Done)
  }

  class StripeEventHandler {
    var seen: map<string, int>
    var tenants: Tenants
    const cfg: Config

    constructor (cfg: Config, tenants: Tenants)
      ensures this.cfg == cfg && this.tenants == tenants && seen == map[]
    {
      this.cfg := cfg;
      this.tenants := tenants;
      seen := map[];
    }

    /** Deletes the entries older than the limit, one by one. */
    method Sweep(now: int)
      modifies this`seen
      ensures seen == Swept(old(seen), cfg.ttl, now)
    {
      if cfg.ttl <= 0 {
        return;
      }
      var cutoff := now - cfg.ttl;
      var left := seen.Keys;
      while left != {}
        invariant left <= old(seen).Keys
        invariant seen == map id | id in old(seen) && (id in left || old(seen)[id] >= cutoff) :: old(seen)[id]
        decreases left
      {
        var id :| id in left;
        if seen[id] < cutoff {
          seen := seen - {id};
        }
        left := left - {id};
      }
    }

    method AlreadyProcessed(id: string, now: int) returns (r: bool)
      modifies this`seen
      ensures seen == Swept(old(seen), cfg.ttl, now) && r == (id in seen)
    {
      Sweep(now);
      r := id in seen;
    }

    method HandleDelivery(d: Delivery) returns (r: Result)
      modifies this
      ensures (State(seen, tenants), r) == Handle(cfg, State(old(seen), old(tenants)), d)
    {
      if !d.wellFormed {
        return Rejected;
      }
      if d.id != "" {
        var replay := AlreadyProcessed(d.id, d.checkAt);
        if replay {
          return Suppressed;
        }
      }
      var ts := Dispatch(cfg, tenants, d.event, d.workAt, d.storeOk);
      if ts.None? {
        return Failed;
      }
      tenants := ts.value;
      if d.id != "" {
        Sweep(d.sweepAt);
        seen := seen[d.id := d.markAt];
      }
      return Done;
    }
  }

  /** The memory is kept short: after a delivery with an ID nothing older than the limit is remembered, at the check, or at
      the second sweep when the delivery was handled; and nothing but that ID is added. */
  lemma MemoryIsSwept(c: Config, s: State, d: Delivery, k: string)
    requires d.wellFormed && d.id != "" && c.ttl > 0 && d.checkAt <= d.sweepAt <= d.markAt
    ensures var (t, r) := Handle(c, s, d);
            && (k in t.seen ==> t.seen[k] >= (if r == Done then d.sweepAt else d.checkAt) - c.ttl)
            && (k in t.seen ==> (k in s.seen && t.seen[k] == s.seen[k]) || (k == d.id && r == Done && t.seen[k] == d.markAt))
  {
  }

  // ---- Sequences of deliveries ----

  function After(c: Config, ts: Tenants, ds: seq<Delivery>): State {
    if ds == [] then State(map[], ts) else Handle(c, After(c, ts, ds[..|ds| - 1]), ds[|ds| - 1]).0
  }

  /** The last clock reading of a sequence. */
  function Clock(ds: seq<Delivery>): Option<int> { if ds == [] then None else Some(ds[|ds| - 1].markAt) }

  /** Deliveries one after the other under a clock that never goes back. */
  ghost predicate Sequential(ds: seq<Delivery>) {
    && (forall i :: 0 <= i < |ds| ==> ds[i].checkAt <= ds[i].workAt <= ds[i].sweepAt <= ds[i].markAt)
    && (forall i, j :: 0 <= i < j < |ds| ==> ds[i].markAt <= ds[j].checkAt)
  }

  /** When an ID was last handled successfully. */
  function LastMark(c: Config, ts: Tenants, ds: seq<Delivery>, id: string): Option<int> {
    if ds == [] then None
    else
      var front, d := ds[..|ds| - 1], ds[|ds| - 1];
      if d.id == id && Handle(c, After(c, ts, front), d).1 == Done then Some(d.markAt) else LastMark(c, ts, front, id)
  }

  /** How the memory relates to the history at clock reading `now`. */
  ghost predicate Remembers(seen: map<string, int>, id: string, mark: Option<int>, ttl: int, now: int) {
    && (id in seen ==> mark == Some(seen[id]))
    && (mark.Some? && id !in seen ==> ttl > 0 && mark.value < now - ttl)
    && (mark.Some? ==> mark.value <= now)
  }

  lemma SweepRemembers(seen: map<string, int>, id: string, mark: Option<int>, ttl: int, now: int, later: int)
    requires Remembers(seen, id, mark, ttl, now) && now <= later
    ensures Remembers(Swept(seen, ttl, later), id, mark, ttl, later)
  {
  }

  lemma HandleRemembers(c: Config, s: State, d: Delivery, id: string, mark: Option<int>, now: int)
    requires id != "" && Remembers(s.seen, id, mark, c.ttl, now) && now <= d.checkAt <= d.workAt <= d.sweepAt <= d.markAt
    ensures var (t, r) := Handle(c, s, d);
            Remembers(t.seen, id, if d.id == id && r == Done then Some(d.markAt) else mark, c.ttl, d.markAt)
  {
    SweepRemembers(s.seen, id, mark, c.ttl, now, d.checkAt);
    SweepRemembers(Swept(s.seen, c.ttl, d.checkAt), id, mark, c.ttl, d.checkAt, d.sweepAt);
  }

  lemma LastMarkStep(c: Config, ts: Tenants, front: seq<Delivery>, d: Delivery, id: string)
    ensures After(c, ts, front + [d]) == Handle(c, After(c, ts, front), d).0
    ensures LastMark(c, ts, front + [d], id) ==
            if d.id == id && Handle(c, After(c, ts, front), d).1 == Done then Some(d.markAt) else LastMark(c, ts, front, id)
  {
    assert (front + [d])[..|front|] == front;
  }

  lemma {:induction false} MemoryOverRuns(c: Config, ts: Tenants, ds: seq<Delivery>, id: string, now: int)
    requires Sequential(ds) && id != "" && (ds != [] ==> ds[|ds| - 1].markAt <= now)
    ensures ds == [] ==> Remembers(After(c, ts, ds).seen, id, LastMark(c, ts, ds, id), c.ttl, now)
    ensures ds != [] ==> Remembers(After(c, ts, ds).seen, id, LastMark(c, ts, ds, id), c.ttl, ds[|ds| - 1].markAt)
  {
    if ds != [] {
      var front, d := ds[..|ds| - 1], ds[|ds| - 1];
      assert ds == front + [d];
      LastMarkStep(c, ts, front, d, id);
      MemoryOverRuns(c, ts, front, id, d.checkAt);
      HandleRemembers(c, After(c, ts, front), d, id, LastMark(c, ts, front, id), if front == [] then d.checkAt else front[|front| - 1].markAt);
    }
  }

  /** The exact replay law: at any later clock reading, an ID counts as processed exactly when it was handled successfully
      and that is no longer ago than the limit. So the sweep never forgets an ID too early, and never keeps one too long. */
  lemma ReplayLaw(c: Config, ts: Tenants, ds: seq<Delivery>, id: string, now: int)
    requires Sequential(ds) && id != "" && (ds != [] ==> ds[|ds| - 1].markAt <= now)
    ensures id in Swept(After(c, ts, ds).seen, c.ttl, now) <==>
              var m := LastMark(c, ts, ds, id); m.Some? && (c.ttl > 0 ==> m.value >= now - c.ttl)
  {
    MemoryOverRuns(c, ts, ds, id, now);
  }

  // ---- Successes ----

  /** The deliveries that were handled successfully, in order. */
  function Successes(c: Config, ts: Tenants, ds: seq<Delivery>): seq<Delivery> {
    if ds == [] then []
    else
      var front, d := ds[..|ds| - 1], ds[|ds| - 1];
      Successes(c, ts, front) + if Handle(c, After(c, ts, front), d).1 == Done then [d] else []
  }

  /** Its last success is longer ago than the limit, so the ID is forgotten. */
  predicate Forgotten(c: Config, mark: int, now: int) { c.ttl > 0 && mark < now - c.ttl }

  /** Exactly when a delivery succeeds: it is well-formed, its dispatch works, and its ID has no earlier success, or only
      forgotten ones. A remembered one is suppressed, a malformed one rejected, and only what is left fails. */
  lemma DoneLaw(c: Config, ts: Tenants, ds: seq<Delivery>, d: Delivery)
    requires Sequential(ds + [d])
    ensures Handle(c, After(c, ts, ds), d).1 == Rejected <==> !d.wellFormed
    ensures Handle(c, After(c, ts, ds), d).1 == Suppressed <==>
              && d.wellFormed && d.id != "" && LastMark(c, ts, ds, d.id).Some?
              && !Forgotten(c, LastMark(c, ts, ds, d.id).value, d.checkAt)
    ensures Handle(c, After(c, ts, ds), d).1 == Done <==>
              && d.wellFormed && Dispatch(c, After(c, ts, ds).tenants, d.event, d.workAt, d.storeOk).Some?
              && (d.id != "" && LastMark(c, ts, ds, d.id).Some? ==> Forgotten(c, LastMark(c, ts, ds, d.id).value, d.checkAt))
  {
    if d.id != "" {
      SequentialFront(ds, d);
      ReplayLaw(c, ts, ds, d.id, d.checkAt);
    }
  }

  lemma SequentialFront(ds: seq<Delivery>, d: Delivery)
    requires Sequential(ds + [d])
    ensures Sequential(ds) && (ds != [] ==> ds[|ds| - 1].markAt <= d.checkAt)
    ensures d.checkAt <= d.workAt <= d.sweepAt <= d.markAt
  {
    var all := ds + [d];
    assert all[|ds|] == d;
    assert forall i :: 0 <= i < |ds| ==> all[i] == ds[i];
  }

  /** An ID has a success exactly if it is among the successes. */
  lemma {:induction false} MarkedIsSuccess(c: Config, ts: Tenants, ds: seq<Delivery>, id: string)
    ensures LastMark(c, ts, ds, id).Some? <==> exists i :: 0 <= i < |Successes(c, ts, ds)| && Successes(c, ts, ds)[i].id == id
  {
    if ds != [] {
      var front, d := ds[..|ds| - 1], ds[|ds| - 1];
      MarkedIsSuccess(c, ts, front, id);
      var p, r := Successes(c, ts, front), Successes(c, ts, ds);
      assert p <= r && |r| <= |p| + 1;
      if LastMark(c, ts, ds, id).Some? && LastMark(c, ts, front, id).None? {
        assert r[|p|].id == id;
      }
      if LastMark(c, ts, front, id).Some? {
        var i :| 0 <= i < |p| && p[i].id == id;
        assert r[i].id == id;
      }
    }
  }

  lemma ApplyStep(c: Config, ts: Tenants, ds: seq<Delivery>, d: Delivery)
    ensures ApplyAll(c, ts, ds + [d]) ==
            if ApplyAll(c, ts, ds).None? then None else Dispatch(c, ApplyAll(c, ts, ds).value, d.event, d.workAt, d.storeOk)
  {
    assert (ds + [d])[..|ds|] == ds;
  }

  lemma HandleTenants(c: Config, s: State, d: Delivery)
    ensures var (t, r) := Handle(c, s, d);
            if r == Done then Dispatch(c, s.tenants, d.event, d.workAt, d.storeOk) == Some(t.tenants) else t.tenants == s.tenants
  {
  }

  /** The tenants are always those of applying the successes in order: nothing else changes them. */
  lemma {:induction false} SuccessesApply(c: Config, ts: Tenants, ds: seq<Delivery>)
    ensures ApplyAll(c, ts, Successes(c, ts, ds)) == Some(After(c, ts, ds).tenants)
  {
    if ds != [] {
      var front, d := ds[..|ds| - 1], ds[|ds| - 1];
      assert ds == front + [d];
      SuccessesApply(c, ts, front);
      SuccessesStep(c, ts, front, d);
      LastMarkStep(c, ts, front, d, d.id);
      HandleTenants(c, After(c, ts, front), d);
      ApplyStep(c, ts, Successes(c, ts, front), d);
    }
  }

  lemma {:induction false} SuccessesAreDelivered(c: Config, ts: Tenants, ds: seq<Delivery>)
    ensures Subsequence(Successes(c, ts, ds), ds)
  {
    if ds != [] {
      var front, d := ds[..|ds| - 1], ds[|ds| - 1];
      SuccessesAreDelivered(c, ts, front);
      var p, r := Successes(c, ts, front), Successes(c, ts, ds);
      assert r == p || (r == p + [d] && r[..|r| - 1] == p);
    }
  }

  /** `d`, after `ds`, repeats an ID all of whose successes are forgotten, and its dispatch works. */
  predicate LateRepeat(c: Config, ts: Tenants, ds: seq<Delivery>, d: Delivery) {
    && d.id != "" && d.wellFormed && Dispatch(c, After(c, ts, ds).tenants, d.event, d.workAt, d.storeOk).Some?
    && LastMark(c, ts, ds, d.id).Some? && Forgotten(c, LastMark(c, ts, ds, d.id).value, d.checkAt)
  }

  ghost predicate NoLateRepeat(c: Config, ts: Tenants, ds: seq<Delivery>) {
    forall i :: 0 <= i < |ds| ==> !LateRepeat(c, ts, ds[..i], ds[i])
  }

  lemma NoLateRepeatStep(c: Config, ts: Tenants, front: seq<Delivery>, d: Delivery)
    ensures NoLateRepeat(c, ts, front + [d]) <==> NoLateRepeat(c, ts, front) && !LateRepeat(c, ts, front, d)
  {
    var ds := front + [d];
    assert ds[..|front|] == front && ds[|front|] == d;
    assert forall i :: 0 <= i < |front| ==> ds[..i] == front[..i] && ds[i] == front[i];
  }

  lemma SuccessesStep(c: Config, ts: Tenants, front: seq<Delivery>, d: Delivery)
    ensures Successes(c, ts, front + [d]) ==
            if Handle(c, After(c, ts, front), d).1 == Done then Successes(c, ts, front) + [d] else Successes(c, ts, front)
  {
    assert (front + [d])[..|front|] == front;
  }

  /** A delivery repeats late exactly if it succeeds and its ID has succeeded before. */
  lemma LateRepeatIs(c: Config, ts: Tenants, front: seq<Delivery>, d: Delivery)
    requires Sequential(front + [d])
    ensures LateRepeat(c, ts, front, d) <==>
              Handle(c, After(c, ts, front), d).1 == Done && d.id != "" && LastMark(c, ts, front, d.id).Some?
  {
    DoneLaw(c, ts, front, d);
  }

  lemma OnceFront(c: Config, ts: Tenants, front: seq<Delivery>, d: Delivery)
    requires Sequential(front + [d])
    ensures IdsOnce(Successes(c, ts, front + [d])) <==> IdsOnce(Successes(c, ts, front)) && !LateRepeat(c, ts, front, d)
  {
    SuccessesStep(c, ts, front, d);
    LateRepeatIs(c, ts, front, d);
    MarkedIsSuccess(c, ts, front, d.id);
    IdsOnceAppend(Successes(c, ts, front), d);
  }

  lemma IdsOnceAppend(p: seq<Delivery>, d: Delivery)
    ensures IdsOnce(p + [d]) <==> IdsOnce(p) && (d.id != "" ==> forall i :: 0 <= i < |p| ==> p[i].id != d.id)
  {
    var r := p + [d];
    assert forall i :: 0 <= i < |p| ==> r[i] == p[i];
    assert r[|p|] == d;
    if IdsOnce(r) && d.id != "" {
      forall i | 0 <= i < |p| ensures p[i].id != d.id {
        assert r[i].id == "" || r[i].id != r[|p|].id;
      }
    }
  }

  /** The exact law of de-duplication: no ID succeeds twice if and only if no delivery repeats an ID after its successes were
      forgotten and then works. The success that counts is the ID's first, since any later one would be a repeat. */
  lemma {:induction false} OnceLaw(c: Config, ts: Tenants, ds: seq<Delivery>)
    requires Sequential(ds)
    ensures IdsOnce(Successes(c, ts, ds)) <==> NoLateRepeat(c, ts, ds)
  {
    if ds != [] {
      var front, d := ds[..|ds| - 1], ds[|ds| - 1];
      assert ds == front + [d];
      SequentialFront(front, d);
      OnceFront(c, ts, front, d);
      NoLateRepeatStep(c, ts, front, d);
      OnceLaw(c, ts, front);
    }
  }

  // ---- Exactly once ----

  /** The ideal handler: it remembers every success for ever. `applied` lists the deliveries it let through successfully. */
  datatype Ideal = Ideal(marks: map<string, int>, tenants: Tenants, applied: seq<Delivery>)

  function IdealStep(c: Config, s: Ideal, d: Delivery): Ideal {
    if !d.wellFormed || (d.id != "" && d.id in s.marks) then s
    else
      var ts := Dispatch(c, s.tenants, d.event, d.workAt, d.storeOk);
      if ts.None? then s
      else Ideal(if d.id != "" then s.marks[d.id := d.markAt] else s.marks, ts.value, s.applied + [d])
  }

  function IdealAfter(c: Config, ts: Tenants, ds: seq<Delivery>): Ideal {
    if ds == [] then Ideal(map[], ts, []) else IdealStep(c, IdealAfter(c, ts, ds[..|ds| - 1]), ds[|ds| - 1])
  }

  /** If the ID of `d` was processed in `ds`, then `d` comes within the limit of its first success. */
  predicate PromptAfter(c: Config, ts: Tenants, ds: seq<Delivery>, d: Delivery) {
    var marks := IdealAfter(c, ts, ds).marks;
    c.ttl > 0 && d.id in marks ==> d.checkAt <= marks[d.id] + c.ttl
  }

  /** Every redelivery of a processed ID comes within the limit of its first success. */
  ghost predicate Prompt(c: Config, ts: Tenants, ds: seq<Delivery>) {
    forall i :: 0 <= i < |ds| ==> PromptAfter(c, ts, ds[..i], ds[i])
  }

  /** Handler and ideal agree on the tenants, and the memory holds every mark not older than the limit. */
  ghost predicate Agrees(c: Config, s: State, i: Ideal, now: Option<int>) {
    && s.tenants == i.tenants
    && (forall id :: id in s.seen ==> id in i.marks && s.seen[id] == i.marks[id])
    && (forall id :: id in i.marks && id !in s.seen ==> c.ttl > 0 && now.Some? && i.marks[id] < now.value - c.ttl)
  }

  lemma AgreeStep(c: Config, s: State, i: Ideal, d: Delivery, now: Option<int>)
    requires Agrees(c, s, i, now) && (now.Some? ==> now.value <= d.checkAt) && d.checkAt <= d.workAt <= d.sweepAt <= d.markAt
    requires c.ttl > 0 && d.id in i.marks ==> d.checkAt <= i.marks[d.id] + c.ttl
    ensures Agrees(c, Handle(c, s, d).0, IdealStep(c, i, d), Some(d.markAt))
  {
    if d.wellFormed && d.id != "" {
      assert d.id in Swept(s.seen, c.ttl, d.checkAt) <==> d.id in i.marks;
    }
  }

  lemma PromptFront(c: Config, ts: Tenants, front: seq<Delivery>, d: Delivery)
    requires Prompt(c, ts, front + [d])
    ensures Prompt(c, ts, front) && PromptAfter(c, ts, front, d)
  {
    var ds := front + [d];
    assert ds[..|front|] == front && ds[|front|] == d;
    forall i | 0 <= i < |front| ensures PromptAfter(c, ts, front[..i], front[i]) {
      assert ds[..i] == front[..i] && ds[i] == front[i];
    }
  }

  /** With prompt redeliveries the tenants end up exactly as under the ideal handler. */
  lemma {:induction false} SameAsIdeal(c: Config, ts: Tenants, ds: seq<Delivery>)
    requires Sequential(ds) && Prompt(c, ts, ds)
    ensures Agrees(c, After(c, ts, ds), IdealAfter(c, ts, ds), Clock(ds))
  {
    if ds != [] {
      var front, d := ds[..|ds| - 1], ds[|ds| - 1];
      assert ds == front + [d];
      SequentialFront(front, d);
      PromptFront(c, ts, front, d);
      SameAsIdeal(c, ts, front);
      AgreeStep(c, After(c, ts, front), IdealAfter(c, ts, front), d, Clock(front));
    }
  }

  function ApplyAll(c: Config, ts: Tenants, ds: seq<Delivery>): Option<Tenants> {
    if ds == [] then Some(ts)
    else
      var before, d := ApplyAll(c, ts, ds[..|ds| - 1]), ds[|ds| - 1];
      if before.None? then None else Dispatch(c, before.value, d.event, d.workAt, d.storeOk)
  }

  ghost predicate IdsOnce(ds: seq<Delivery>) {
    forall i, j :: 0 <= i < j < |ds| && ds[i].id != "" ==> ds[i].id != ds[j].id
  }

  /** `a` is `b` with some entries left out. */
  ghost predicate Subsequence(a: seq<Delivery>, b: seq<Delivery>) {
    a == [] || (b != [] && (Subsequence(a, b[..|b| - 1]) || (a[|a| - 1] == b[|b| - 1] && Subsequence(a[..|a| - 1], b[..|b| - 1]))))
  }

  /** A processed ID is one that was applied, and it was applied once. */
  lemma {:induction false} IdealIdsOnce(c: Config, ts: Tenants, ds: seq<Delivery>)
    ensures var r := IdealAfter(c, ts, ds); IdsOnce(r.applied) && forall id :: id in r.marks <==> id != "" && exists d :: d in r.applied && d.id == id
  {
    if ds != [] {
      var front, d := ds[..|ds| - 1], ds[|ds| - 1];
      IdealIdsOnce(c, ts, front);
      var p, r := IdealAfter(c, ts, front), IdealAfter(c, ts, ds);
      if r != p {
        assert r.applied == p.applied + [d];
        assert forall x :: x in r.applied <==> x in p.applied || x == d;
        forall i | 0 <= i < |p.applied| && p.applied[i].id != "" ensures p.applied[i].id != d.id {
          assert p.applied[i] in p.applied;
        }
        if d.id != "" { assert d in r.applied; }
      }
    }
  }

  lemma IdealApplies(c: Config, ts: Tenants, front: seq<Delivery>, d: Delivery)
    requires Sequential(front + [d]) && Prompt(c, ts, front + [d])
    ensures IdealAfter(c, ts, front + [d]).applied ==
            IdealAfter(c, ts, front).applied + if Handle(c, After(c, ts, front), d).1 == Done then [d] else []
  {
    assert (front + [d])[..|front|] == front;
    SequentialFront(front, d);
    PromptFront(c, ts, front, d);
    SameAsIdeal(c, ts, front);
    DoneAgrees(c, After(c, ts, front), IdealAfter(c, ts, front), d, Clock(front));
  }

  /** With prompt redeliveries the handler's successes are the ideal handler's. */
  lemma {:induction false} SuccessesAreIdeal(c: Config, ts: Tenants, ds: seq<Delivery>)
    requires Sequential(ds) && Prompt(c, ts, ds)
    ensures Successes(c, ts, ds) == IdealAfter(c, ts, ds).applied
  {
    if ds != [] {
      var front, d := ds[..|ds| - 1], ds[|ds| - 1];
      assert ds == front + [d];
      SequentialFront(front, d);
      PromptFront(c, ts, front, d);
      SuccessesAreIdeal(c, ts, front);
      SuccessesStep(c, ts, front, d);
      IdealApplies(c, ts, front, d);
    }
  }

  lemma DoneAgrees(c: Config, s: State, i: Ideal, d: Delivery, now: Option<int>)
    requires Agrees(c, s, i, now) && (now.Some? ==> now.value <= d.checkAt)
    requires c.ttl > 0 && d.id in i.marks ==> d.checkAt <= i.marks[d.id] + c.ttl
    ensures IdealStep(c, i, d).applied == i.applied + if Handle(c, s, d).1 == Done then [d] else []
  {
    if d.wellFormed && d.id != "" {
      assert d.id in Swept(s.seen, c.ttl, d.checkAt) <==> d.id in i.marks;
    }
  }

  /** Over any prompt sequence of deliveries the tenants are those of applying the handler's own successes in order, each
      processed ID exactly once, as a handler that never forgets would; and every success is its ID's first, the earliest
      delivery of the ID that is well-formed and whose dispatch works. */
  lemma EachIdOnce(c: Config, ts: Tenants, ds: seq<Delivery>)
    requires Sequential(ds) && Prompt(c, ts, ds)
    ensures var done := Successes(c, ts, ds);
            && ApplyAll(c, ts, done) == Some(After(c, ts, ds).tenants)
            && Subsequence(done, ds) && IdsOnce(done) && done == IdealAfter(c, ts, ds).applied
            && forall id :: LastMark(c, ts, ds, id).Some? ==> exists i :: 0 <= i < |done| && done[i].id == id
    ensures forall i :: 0 <= i < |ds| && ds[i].id != "" ==>
              (Handle(c, After(c, ts, ds[..i]), ds[i]).1 == Done <==> FirstToWork(c, ts, ds, i))
  {
    SuccessesApply(c, ts, ds);
    SuccessesAreDelivered(c, ts, ds);
    SuccessesAreIdeal(c, ts, ds);
    IdealIdsOnce(c, ts, ds);
    forall id | LastMark(c, ts, ds, id).Some? ensures exists i :: 0 <= i < |Successes(c, ts, ds)| && Successes(c, ts, ds)[i].id == id {
      MarkedIsSuccess(c, ts, ds, id);
    }
    OnceLaw(c, ts, ds);
    forall i | 0 <= i < |ds| && ds[i].id != "" ensures Handle(c, After(c, ts, ds[..i]), ds[i]).1 == Done <==> FirstToWork(c, ts, ds, i) {
      DoneIsFirstToWork(c, ts, ds, i);
    }
  }

  /** Delivery `i` is well-formed, would be dispatched with success, and no earlier delivery of its ID succeeded. */
  predicate FirstToWork(c: Config, ts: Tenants, ds: seq<Delivery>, i: int)
    requires 0 <= i < |ds|
  {
    && ds[i].wellFormed && Dispatch(c, After(c, ts, ds[..i]).tenants, ds[i].event, ds[i].workAt, ds[i].storeOk).Some?
    && LastMark(c, ts, ds[..i], ds[i].id).None?
  }

  lemma DoneIsFirstToWork(c: Config, ts: Tenants, ds: seq<Delivery>, i: int)
    requires Sequential(ds) && 0 <= i < |ds| && ds[i].id != "" && !LateRepeat(c, ts, ds[..i], ds[i])
    ensures Handle(c, After(c, ts, ds[..i]), ds[i]).1 == Done <==> FirstToWork(c, ts, ds, i)
  {
    var some := ds[..i] + [ds[i]];
    assert forall j :: 0 <= j <= i ==> some[j] == ds[j];
    DoneLaw(c, ts, ds[..i], ds[i]);
  }

  // ---- What a sequence of applied events leaves behind ----

  /** The fields that follow the subscription. */
  function View(t: Tenant): (string, string, string, string, string, int) {
    (t.planID, t.md.customer, t.md.subscription, t.md.item, t.md.price, t.md.updatedAt)
  }

  predicate AboutSubscriptionOf(e: Event, x: string) { (e.Updated? || e.Canceled?) && e.sub.tenantID == x }

  ghost predicate NoneAbout(ds: seq<Delivery>, x: string) {
    forall i :: 0 <= i < |ds| ==> !AboutSubscriptionOf(ds[i].event, x)
  }

  lemma {:induction false} ViewKept(c: Config, ts: Tenants, ds: seq<Delivery>, x: string)
    requires ApplyAll(c, ts, ds).Some? && NoneAbout(ds, x) && x in ts
    ensures x in ApplyAll(c, ts, ds).value && View(ApplyAll(c, ts, ds).value[x]) == View(ts[x])
  {
    if ds != [] {
      ViewKept(c, ts, ds[..|ds| - 1], x);
    }
  }

  lemma {:induction false} ApplyAppend(c: Config, ts: Tenants, a: seq<Delivery>, b: seq<Delivery>)
    requires ApplyAll(c, ts, a + b).Some?
    ensures ApplyAll(c, ts, a).Some? && ApplyAll(c, ts, a + b) == ApplyAll(c, ApplyAll(c, ts, a).value, b)
  {
    if b == [] {
      assert a + b == a;
    } else {
      assert (a + b)[..|a + b| - 1] == a + b[..|b| - 1];
      ApplyAppend(c, ts, a, b[..|b| - 1]);
    }
  }

  /** The tenant right after its last subscription event, and its view to the end. */
  lemma LastEventDecides(c: Config, ts: Tenants, a: seq<Delivery>, d: Delivery, b: seq<Delivery>, x: string)
    requires ApplyAll(c, ts, a + [d] + b).Some? && x != "" && AboutSubscriptionOf(d.event, x) && NoneAbout(b, x)
    ensures ApplyAll(c, ts, a).Some? && x in ApplyAll(c, ts, a).value && x in ApplyAll(c, ts, a + [d] + b).value
    ensures var before, last := ApplyAll(c, ts, a).value[x], ApplyAll(c, ts, a + [d] + b).value[x];
            View(last) == View(if d.event.Updated? then AfterUpdate(c.plans, before, d.event.sub, d.workAt)
                               else AfterCancel(c.plans, before, d.workAt))
  {
    ApplyAppend(c, ts, a + [d], b);
    ApplyAppend(c, ts, a, [d]);
    var ts1 := ApplyAll(c, ts, a).value;
    assert [d][..0] == [];
    assert ApplyAll(c, ts1, [d]) == Dispatch(c, ts1, d.event, d.workAt, d.storeOk);
    ViewKept(c, ApplyAll(c, ts1, [d]).value, b, x);
  }

  /** The last subscription event of a tenant decides: after an update the tenant has that subscription and customer, its
      item and price if it has any, and the first plan with the price; after a cancellation no subscription, item and price,
      and the free plan if there is one. What the event does not say stays as it was. */
  lemma SubscriptionFollowsLastEvent(c: Config, ts: Tenants, a: seq<Delivery>, d: Delivery, b: seq<Delivery>, x: string)
    requires ApplyAll(c, ts, a + [d] + b).Some? && x != "" && AboutSubscriptionOf(d.event, x) && NoneAbout(b, x)
    ensures ApplyAll(c, ts, a).Some? && x in ApplyAll(c, ts, a).value && x in ApplyAll(c, ts, a + [d] + b).value
    ensures var was, t, sub := ApplyAll(c, ts, a).value[x], ApplyAll(c, ts, a + [d] + b).value[x], d.event.sub;
            && t.md.updatedAt == d.workAt
            && (d.event.Updated? ==> t.md.subscription == sub.id && t.md.customer == sub.customer)
            && (d.event.Updated? ==> (t.md.item, t.md.price) == if sub.first.Some? then sub.first.value else (was.md.item, was.md.price))
            && (d.event.Updated? && t.md.price != "" ==>
                  forall i :: 0 <= i < |c.plans| && FirstWithPrice(c.plans, t.md.price, i) ==> t.planID == c.plans[i].id)
            && (d.event.Updated? && (t.md.price == "" || forall p :: p in c.plans ==> p.stripePrice != t.md.price) ==> t.planID == was.planID)
            && (d.event.Canceled? ==> t.md.subscription == t.md.item == t.md.price == "" && t.md.customer == was.md.customer)
            && (d.event.Canceled? ==> t.planID == if exists p :: p in c.plans && p.id == "free" then "free" else was.planID)
  {
    LastEventDecides(c, ts, a, d, b, x);
    var t := ApplyAll(c, ts, a + [d] + b).value[x];
    if d.event.Updated? {
      forall i | 0 <= i < |c.plans| && FirstWithPrice(c.plans, t.md.price, i) ensures PlanByPrice(c.plans, t.md.price) == Some(c.plans[i].id) {
        PlanByPriceIsFirst(c.plans, t.md.price, i);
      }
      if forall p :: p in c.plans ==> p.stripePrice != t.md.price { NoPlanByPrice(c.plans, t.md.price); }
    }
  }

  lemma {:induction false} NoPlanByPrice(plans: seq<Plan>, price: string)
    requires forall p :: p in plans ==> p.stripePrice != price
    ensures PlanByPrice(plans, price) == None
  {
    if plans != [] {
      assert plans[0] in plans;
      NoPlanByPrice(plans[1..], price);
    }
  }

  // ---- Status and payment times ----

  /** The event changes the tenant's status: a subscription event, or an invoice event that reaches the store. */
  predicate SetsStatusOf(d: Delivery, x: string) {
    AboutSubscriptionOf(d.event, x) || ((d.event.InvoicePaid? || d.event.InvoiceFailed?) && d.event.tenantID == x && d.storeOk)
  }

  /** The event is that tenant's invoice of that kind, and reaches the store. */
  predicate IsInvoiceOf(d: Delivery, x: string, paid: bool) {
    (if paid then d.event.InvoicePaid? else d.event.InvoiceFailed?) && d.event.tenantID == x && d.storeOk
  }

  lemma {:induction false} StatusKept(c: Config, ts: Tenants, ds: seq<Delivery>, x: string)
    requires ApplyAll(c, ts, ds).Some? && x in ts
    ensures x in ApplyAll(c, ts, ds).value
    ensures (forall i :: 0 <= i < |ds| ==> !SetsStatusOf(ds[i], x)) ==> ApplyAll(c, ts, ds).value[x].md.status == ts[x].md.status
    ensures (forall i :: 0 <= i < |ds| ==> !IsInvoiceOf(ds[i], x, true)) ==> ApplyAll(c, ts, ds).value[x].md.lastSucceeded == ts[x].md.lastSucceeded
    ensures (forall i :: 0 <= i < |ds| ==> !IsInvoiceOf(ds[i], x, false)) ==> ApplyAll(c, ts, ds).value[x].md.lastFailed == ts[x].md.lastFailed
  {
    if ds != [] {
      StatusKept(c, ts, ds[..|ds| - 1], x);
      assert forall i :: 0 <= i < |ds| - 1 ==> ds[..|ds| - 1][i] == ds[i];
    }
  }

  lemma ApplyMiddle(c: Config, ts: Tenants, a: seq<Delivery>, d: Delivery, b: seq<Delivery>, x: string)
    requires ApplyAll(c, ts, a + [d] + b).Some? && x in ts
    ensures ApplyAll(c, ts, a).Some? && x in ApplyAll(c, ts, a).value
    ensures Dispatch(c, ApplyAll(c, ts, a).value, d.event, d.workAt, d.storeOk).Some?
    ensures ApplyAll(c, ts, a + [d] + b) == ApplyAll(c, Dispatch(c, ApplyAll(c, ts, a).value, d.event, d.workAt, d.storeOk).value, b)
  {
    ApplyAppend(c, ts, a + [d], b);
    ApplyAppend(c, ts, a, [d]);
    assert [d][..0] == [];
    StatusKept(c, ts, a, x);
  }

  /** The status a tenant's event sets. */
  function StatusSet(e: Event): string {
    match e
    case Updated(sub) => sub.status
    case Canceled(_) => "canceled"
    case InvoicePaid(_) => "active"
    case InvoiceFailed(_) => "past_due"
    case _ => ""
  }

  /** A tenant's status is that of its last subscription or invoice event: the subscription's own, canceled, active or past
      due. */
  lemma StatusFollowsLastEvent(c: Config, ts: Tenants, a: seq<Delivery>, d: Delivery, b: seq<Delivery>, x: string)
    requires ApplyAll(c, ts, a + [d] + b).Some? && x in ts && x != "" && SetsStatusOf(d, x)
    requires forall i :: 0 <= i < |b| ==> !SetsStatusOf(b[i], x)
    ensures x in ApplyAll(c, ts, a + [d] + b).value && ApplyAll(c, ts, a + [d] + b).value[x].md.status == StatusSet(d.event)
  {
    ApplyMiddle(c, ts, a, d, b, x);
    StatusKept(c, Dispatch(c, ApplyAll(c, ts, a).value, d.event, d.workAt, d.storeOk).value, b, x);
  }

  /** The times of the last paid and the last failed invoice are those of the last such event. */
  lemma PaymentTimesFollowInvoices(c: Config, ts: Tenants, a: seq<Delivery>, d: Delivery, b: seq<Delivery>, x: string, paid: bool)
    requires ApplyAll(c, ts, a + [d] + b).Some? && x in ts && x != "" && IsInvoiceOf(d, x, paid)
    requires forall i :: 0 <= i < |b| ==> !IsInvoiceOf(b[i], x, paid)
    ensures x in ApplyAll(c, ts, a + [d] + b).value
    ensures var md := ApplyAll(c, ts, a + [d] + b).value[x].md; (if paid then md.lastSucceeded else md.lastFailed) == d.workAt
  {
    ApplyMiddle(c, ts, a, d, b, x);
    StatusKept(c, Dispatch(c, ApplyAll(c, ts, a).value, d.event, d.workAt, d.storeOk).value, b, x);
  }

  predicate FirstWithPrice(plans: seq<Plan>, price: string, i: int)
    requires 0 <= i < |plans|
  {
    plans[i].stripePrice == price && forall j :: 0 <= j < i ==> plans[j].stripePrice != price
  }

  lemma {:induction false} PlanByPriceIsFirst(plans: seq<Plan>, price: string, i: int)
    requires 0 <= i < |plans| && FirstWithPrice(plans, price, i)
    ensures PlanByPrice(plans, price) == Some(plans[i].id)
  {
    if i > 0 {
      assert plans[0].stripePrice != price;
      assert forall j :: 0 <= j < i ==> plans[1..][j] == plans[j + 1];
      PlanByPriceIsFirst(plans[1..], price, i - 1);
    }
  }

  // An update, its cancellation, and the update redelivered after the limit.
  const FirstUpdate := Delivery(true, "e1", Updated(Subscription("s", "c", "active", "t", None)), true, 0, 0, 0, 0)
  const Cancellation := Delivery(true, "e2", Canceled(Subscription("s", "c", "", "t", None)), true, 1, 1, 1, 1)
  const LateUpdate := FirstUpdate.(checkAt := 20, workAt := 20, sweepAt := 20, markAt := 20)

  lemma {:induction false} LateHandler(c: Config, ts: Tenants)
    requires c == Config([], 10) && "t" in ts
    ensures var r := After(c, ts, [FirstUpdate, Cancellation, LateUpdate]); "t" in r.tenants && r.tenants["t"].md.subscription == "s"
  {
    var r1, r2, r3 := [FirstUpdate], [FirstUpdate, Cancellation], [FirstUpdate, Cancellation, LateUpdate];
    assert r1[..0] == [] && r2[..1] == r1 && r3[..2] == r2;
    var s1 := Handle(c, State(map[], ts), FirstUpdate).0;
    assert "t" in s1.tenants && s1.seen == map["e1" := 0] && After(c, ts, r1) == s1;
    var s2 := Handle(c, s1, Cancellation).0;
    assert "t" in s2.tenants && "e1" in s2.seen && s2.seen["e1"] == 0 && After(c, ts, r2) == s2;
    assert After(c, ts, r3) == Handle(c, s2, LateUpdate).0;
  }

  lemma {:induction false} LateIdeal(c: Config, ts: Tenants)
    requires c == Config([], 10) && "t" in ts
    ensures var r := IdealAfter(c, ts, [FirstUpdate, Cancellation, LateUpdate]); "t" in r.tenants && r.tenants["t"].md.subscription == ""
  {
    var r1, r2, r3 := [FirstUpdate], [FirstUpdate, Cancellation], [FirstUpdate, Cancellation, LateUpdate];
    assert r1[..0] == [] && r2[..1] == r1 && r3[..2] == r2;
    var i1 := IdealStep(c, Ideal(map[], ts, []), FirstUpdate);
    assert "t" in i1.tenants && i1.marks == map["e1" := 0] && IdealAfter(c, ts, r1) == i1;
    var i2 := IdealStep(c, i1, Cancellation);
    assert "t" in i2.tenants && "e1" in i2.marks && i2.tenants["t"].md.subscription == "" && IdealAfter(c, ts, r2) == i2;
    assert IdealAfter(c, ts, r3) == i2;
  }

  /** Redelivered after the limit, an old update is applied again, here over a later cancellation: the handler ends with
      the subscription active, the ideal one with none. */
  lemma LateRedeliveryIsApplied(c: Config, ts: Tenants)
    requires c == Config([], 10) && "t" in ts
    ensures Sequential([FirstUpdate, Cancellation, LateUpdate])
    ensures After(c, ts, [FirstUpdate, Cancellation, LateUpdate]).tenants != IdealAfter(c, ts, [FirstUpdate, Cancellation, LateUpdate]).tenants
  {
    LateHandler(c, ts);
    LateIdeal(c, ts);
  }
}
