/** Lease-based leader election over one database table. */
module LeaderElection {
  import opened Options

  datatype Row = Row(holder: string, expires: int)

  /** `_leader_election`: one row per key. */
  type Table = map<string, Row>

  /** Some unexpired row for the key is held under this name. */
  predicate Leads(rows: Table, now: int, key: string, name: string) {
    key in rows && rows[key].expires > now && rows[key].holder == name
  }

  function Cleaned(rows: Table, now: int, key: string): Table {
    if key in rows && rows[key].expires < now then rows - {key} else rows
  }

  function Claimed(rows: Table, key: string, name: string, expires: int): Table {
    if key in rows then rows else rows[key := Row(name, expires)]
  }

  /** The committed table after an election by `name`, and whether it won; a lost election is rolled back whole. */
  function ElectResult(rows: Table, now: int, key: string, name: string, expires: int): (Table, bool) {
    var claimed := Claimed(Cleaned(rows, now, key), key, name, expires);
    if Leads(claimed, now, key, name) then (claimed, true) else (rows, false)
  }

  function RenewRows(rows: Table, key: string, name: string, expires: int): Table {
    if key in rows && rows[key].holder == name then rows[key := rows[key].(expires := expires)] else rows
  }

  function ResignRows(rows: Table, key: string, name: string): Table {
    if key in rows && rows[key].holder == name then rows - {key} else rows
  }

  /** The election statements in order, inside one transaction. */
  class LeaseTable {
    var rows: Table

    constructor ()
      ensures rows == map[]
    {
      rows := map[];
    }

    /** `now` is the transaction's database time; `expires` comes from the caller's own clock. */
    method Elect(now: int, key: string, name: string, expires: int) returns (won: bool)
      modifies this
      ensures (rows, won) == ElectResult(old(rows), now, key, name, expires)
    {
      var tx := rows;
      if key in tx && tx[key].expires < now {            // drop a stale lease
        tx := tx - {key};
      }
      if key !in tx {                                    // insert, on conflict do nothing
        tx := tx[key := Row(name, expires)];
      }
      if key !in tx || !(tx[key].expires > now) {        // no unexpired row
        return false;
      }
      if tx[key].holder != name {                        // another holder
        return false;
      }
      rows := tx;                                        // commit
      return true;
    }

    method IsLeader(now: int, key: string, name: string) returns (r: bool)
      ensures r == Leads(rows, now, key, name)
    {
      r := false;
      if key in rows && rows[key].expires > now {
        r := rows[key].holder == name;
      }
    }
  }

  // ---- Interleavings ----

  /** `names` gives each process the host name it uses; a pending renewal has read the row and not yet written it. */
  datatype Pending = Pending(key: string, name: string, expires: int)

  datatype State = State(rows: Table, now: int, pending: map<nat, Pending>)

  datatype Action =
    | Elect(p: nat, key: string, expires: int)
    | RenewRead(p: nat, key: string, expires: int, ticket: nat)
    | RenewWrite(ticket: nat)
    | Resign(p: nat, key: string)
    | Tick(to: int)

  type Names = nat -> string

  const Initial := State(map[], 0, map[])

  function Step(names: Names, s: State, a: Action): Option<State> {
    match a
    case Elect(p, key, expires) => Some(s.(rows := ElectResult(s.rows, s.now, key, names(p), expires).0))
    case RenewRead(p, key, expires, ticket) =>
      if ticket in s.pending then None
      else if !Leads(s.rows, s.now, key, names(p)) then Some(s)   // Renew returns false
      else Some(s.(pending := s.pending[ticket := Pending(key, names(p), expires)]))
    case RenewWrite(ticket) =>
      if ticket !in s.pending then None
      else
        var w := s.pending[ticket];
        Some(s.(rows := RenewRows(s.rows, w.key, w.name, w.expires), pending := s.pending - {ticket}))
    case Resign(p, key) => Some(s.(rows := ResignRows(s.rows, key, names(p))))
    case Tick(to) => if to < s.now then None else Some(s.(now := to))
  }

  function Run(names: Names, s: State, run: seq<Action>): Option<State> {
    if run == [] then Some(s)
    else
      var before := Run(names, s, run[..|run| - 1]);
      if before.None? then None else Step(names, before.value, run[|run| - 1])
  }

  predicate IsLeader(names: Names, s: State, p: nat, key: string) { Leads(s.rows, s.now, key, names(p)) }

  // ---- Safety ----

  ghost predicate Distinct(names: Names) { forall p: nat, q: nat :: p != q ==> names(p) != names(q) }

  ghost predicate OneLeader(names: Names, s: State) {
    forall p: nat, q: nat, key :: IsLeader(names, s, p, key) && IsLeader(names, s, q, key) ==> p == q
  }

  ghost predicate SafeRun(names: Names, run: seq<Action>) {
    Run(names, Initial, run).Some? ==> OneLeader(names, Run(names, Initial, run).value)
  }

  /** Two processes under one host name both pass once either is elected. */
  lemma SharedNameIsUnsafe(names: Names, p: nat, q: nat)
    requires p != q && names(p) == names(q)
    ensures !SafeRun(names, [Elect(p, "k", 1)])
  {
    var run := [Elect(p, "k", 1)];
    assert run[..|run| - 1] == [] && Run(names, Initial, []) == Some(Initial);
    assert Run(names, Initial, run) == Step(names, Initial, run[0]);
    var s := Step(names, Initial, run[0]).value;
    assert IsLeader(names, s, p, "k") && IsLeader(names, s, q, "k");
  }

  /** A key has one row, so at most one name passes IsLeader for it; hence at most one process does, in every run, exactly
      when no two share a host name. What elections and renewals add to this is the lease law below. */
  lemma OneLeaderIffDistinct(names: Names)
    ensures Distinct(names) <==> forall run: seq<Action> :: SafeRun(names, run)
  {
    if !Distinct(names) {
      var p: nat, q: nat :| p != q && names(p) == names(q);
      SharedNameIsUnsafe(names, p, q);
    }
  }

  /** Exactly when an election is won, and what it leaves: the name leads already, and nothing changes; or the key has no row,
      or one that ran out before now, and the row is the winner's, to the end it asked for, which must be ahead. A row that
      runs out right now is neither held nor free. */
  lemma ElectionLaw(rows: Table, now: int, key: string, name: string, expires: int)
    ensures var leads := key in rows && rows[key].holder == name && now < rows[key].expires;
            var free := key !in rows || rows[key].expires < now;
            ElectResult(rows, now, key, name, expires) ==
            if leads then (rows, true) else if free && now < expires then (rows[key := Row(name, expires)], true) else (rows, false)
  {
    if key in rows && rows[key].expires < now { assert (rows - {key})[key := Row(name, expires)] == rows[key := Row(name, expires)]; }
  }

  /** A renewal goes on to its write exactly if its process leads when it reads; the read changes nothing else. */
  lemma RenewReads(names: Names, s: State, p: nat, key: string, expires: int, ticket: nat)
    requires ticket !in s.pending
    ensures var leads := key in s.rows && s.rows[key].holder == names(p) && s.now < s.rows[key].expires;
            Step(names, s, RenewRead(p, key, expires, ticket)) ==
            Some(if leads then s.(pending := s.pending[ticket := Pending(key, names(p), expires)]) else s)
  {
  }

  /** While a lease is unexpired, no election under another name wins, and it leaves no trace. */
  lemma ElectionBlocked(rows: Table, now: int, key: string, holder: string, name: string, expires: int)
    requires Leads(rows, now, key, holder) && name != holder
    ensures ElectResult(rows, now, key, name, expires) == (rows, false)
  {
  }

  /** Electing again while leading succeeds but does not move the expiry. */
  lemma ReElectionDoesNotExtend(rows: Table, now: int, key: string, name: string, expires: int)
    requires Leads(rows, now, key, name)
    ensures ElectResult(rows, now, key, name, expires) == (rows, true)
  {
  }

  /** Writing a renewal touches only a row still held under the renewer's name, and keeps its holder. */
  lemma RenewTouchesOwnRow(rows: Table, key: string, name: string, expires: int, k: string)
    ensures var t := RenewRows(rows, key, name, expires);
            && t.Keys == rows.Keys
            && (k in rows ==> t[k].holder == rows[k].holder)
            && (k in rows && rows[k].holder != name ==> t[k] == rows[k])
  {
  }

  // ---- The lease law ----

  /** What an outside observer keeps who sees only the steps: until when the lease of one holder runs, the renewals that
      holder has read and not written, the time, and whether the lease was kept without a gap. */
  datatype Watch = Watch(end: int, tickets: map<nat, int>, now: int, kept: bool)

  /** The observer looks at no table: elections leave its record alone. */
  function Observe(names: Names, w: Watch, a: Action, key: string, holder: string): Watch {
    match a
    case Elect(_, _, _) => w
    case RenewRead(p, k, expires, ticket) => if k == key && names(p) == holder then w.(tickets := w.tickets[ticket := expires]) else w
    case RenewWrite(ticket) =>
      if ticket !in w.tickets then w
      else w.(end := w.tickets[ticket], tickets := w.tickets - {ticket}, kept := w.kept && w.now < w.tickets[ticket])
    case Resign(p, k) => if k == key && names(p) == holder then w.(kept := false) else w
    case Tick(to) => w.(now := to, kept := w.kept && to < w.end)
  }

  function ObserveAll(names: Names, w: Watch, run: seq<Action>, key: string, holder: string): Watch {
    if run == [] then w else Observe(names, ObserveAll(names, w, run[..|run| - 1], key, holder), run[|run| - 1], key, holder)
  }

  /** The renewals of this key read under this name and not yet written. */
  function TicketsOf(pending: map<nat, Pending>, key: string, holder: string): map<nat, int> {
    map t | t in pending && pending[t].key == key && pending[t].name == holder :: pending[t].expires
  }

  /** The record of an observer that starts at `s`. */
  function WatchFrom(s: State, key: string, holder: string): Watch
    requires key in s.rows
  {
    Watch(s.rows[key].expires, TicketsOf(s.pending, key, holder), s.now, true)
  }

  /** While the lease is kept, the record describes the row exactly. */
  ghost predicate Describes(w: Watch, s: State, key: string, holder: string) {
    && key in s.rows && s.rows[key] == Row(holder, w.end) && s.now == w.now < w.end
    && w.tickets == TicketsOf(s.pending, key, holder)
  }

  lemma TicketRead(pending: map<nat, Pending>, t: nat, w: Pending, key: string, holder: string)
    requires t !in pending
    ensures TicketsOf(pending[t := w], key, holder) ==
            if w.key == key && w.name == holder then TicketsOf(pending, key, holder)[t := w.expires] else TicketsOf(pending, key, holder)
  {
  }

  lemma TicketWritten(pending: map<nat, Pending>, t: nat, key: string, holder: string)
    ensures TicketsOf(pending - {t}, key, holder) == TicketsOf(pending, key, holder) - {t}
    ensures t !in TicketsOf(pending, key, holder) ==> TicketsOf(pending - {t}, key, holder) == TicketsOf(pending, key, holder)
  {
  }

  /** One step: the lease stays described exactly when the observer says it was kept; otherwise the holder leads no more. */
  lemma ObserveStep(names: Names, s: State, a: Action, w: Watch, key: string, holder: string)
    requires w.kept && Describes(w, s, key, holder) && Step(names, s, a).Some?
    ensures var t, v := Step(names, s, a).value, Observe(names, w, a, key, holder);
            if v.kept then Describes(v, t, key, holder) else !Leads(t.rows, t.now, key, holder)
    ensures a.Elect? && a.key == key && names(a.p) != holder ==> !ElectResult(s.rows, s.now, key, names(a.p), a.expires).1
  {
    match a
    case RenewRead(p, k, expires, t) =>
      TicketRead(s.pending, t, Pending(k, names(p), expires), key, holder);
    case RenewWrite(t) =>
      TicketWritten(s.pending, t, key, holder);
    case _ =>
  }

  lemma {:induction false} NeverKeptAgain(names: Names, w: Watch, run: seq<Action>, n: nat, key: string, holder: string)
    requires n <= |run| && ObserveAll(names, w, run, key, holder).kept
    ensures ObserveAll(names, w, run[..n], key, holder).kept
  {
    if n == |run| {
      assert run[..n] == run;
    } else {
      assert run[..|run| - 1][..n] == run[..n];
      NeverKeptAgain(names, w, run[..|run| - 1], n, key, holder);
    }
  }

  lemma {:induction false} RunPrefix(names: Names, s: State, run: seq<Action>, n: nat)
    requires Run(names, s, run).Some? && n <= |run|
    ensures Run(names, s, run[..n]).Some?
  {
    if n == |run| {
      assert run[..n] == run;
    } else {
      assert run[..|run| - 1][..n] == run[..n];
      RunPrefix(names, s, run[..|run| - 1], n);
    }
  }

  lemma {:induction false} KeptIsDescribed(names: Names, s: State, run: seq<Action>, key: string, holder: string)
    requires Leads(s.rows, s.now, key, holder) && Run(names, s, run).Some?
    requires ObserveAll(names, WatchFrom(s, key, holder), run, key, holder).kept
    ensures Describes(ObserveAll(names, WatchFrom(s, key, holder), run, key, holder), Run(names, s, run).value, key, holder)
  {
    if run != [] {
      var front, a, w := run[..|run| - 1], run[|run| - 1], WatchFrom(s, key, holder);
      NeverKeptAgain(names, w, run, |front|, key, holder);
      KeptIsDescribed(names, s, front, key, holder);
      ObserveStep(names, Run(names, s, front).value, a, ObserveAll(names, w, front, key, holder), key, holder);
    }
  }

  /** The holder passes IsLeader after every step of the run. */
  ghost predicate LeadsThroughout(names: Names, s: State, run: seq<Action>, key: string, holder: string) {
    forall n: nat {:trigger run[..n]} :: n <= |run| ==>
      Run(names, s, run[..n]).Some? && Leads(Run(names, s, run[..n]).value.rows, Run(names, s, run[..n]).value.now, key, holder)
  }

  /** The first step at which the lease is lost. */
  lemma {:induction false} LostIsNotLed(names: Names, s: State, run: seq<Action>, key: string, holder: string)
    requires Leads(s.rows, s.now, key, holder) && Run(names, s, run).Some?
    requires !ObserveAll(names, WatchFrom(s, key, holder), run, key, holder).kept
    ensures !LeadsThroughout(names, s, run, key, holder)
  {
    var front, a, w := run[..|run| - 1], run[|run| - 1], WatchFrom(s, key, holder);
    if ObserveAll(names, w, front, key, holder).kept {
      KeptIsDescribed(names, s, front, key, holder);
      ObserveStep(names, Run(names, s, front).value, a, ObserveAll(names, w, front, key, holder), key, holder);
      assert run[..|run|] == run;
    } else {
      LostIsNotLed(names, s, front, key, holder);
      var n: nat :| n <= |front| && !(Run(names, s, front[..n]).Some?
                      && Leads(Run(names, s, front[..n]).value.rows, Run(names, s, front[..n]).value.now, key, holder));
      assert front[..n] == run[..n];
    }
  }

  /** The lease law. Whatever others elect, renew and resign in between, a holder leads after every step of a run if and only
      if the steps say so: it does not resign, no clock reading reaches the end of the lease then in force, and no delayed
      renewal of its own writes an end that has passed. */
  lemma LeaseLaw(names: Names, s: State, run: seq<Action>, key: string, holder: string)
    requires Leads(s.rows, s.now, key, holder) && Run(names, s, run).Some?
    ensures LeadsThroughout(names, s, run, key, holder) <==> ObserveAll(names, WatchFrom(s, key, holder), run, key, holder).kept
  {
    var w := WatchFrom(s, key, holder);
    if ObserveAll(names, w, run, key, holder).kept {
      forall n: nat | n <= |run|
        ensures Run(names, s, run[..n]).Some? && Leads(Run(names, s, run[..n]).value.rows, Run(names, s, run[..n]).value.now, key, holder)
      {
        RunPrefix(names, s, run, n);
        NeverKeptAgain(names, w, run, n, key, holder);
        KeptIsDescribed(names, s, run[..n], key, holder);
      }
    } else {
      LostIsNotLed(names, s, run, key, holder);
    }
  }

  /** While the lease is kept, no election under another name wins. */
  lemma NoRivalWins(names: Names, s: State, run: seq<Action>, n: nat, key: string, holder: string)
    requires Leads(s.rows, s.now, key, holder) && Run(names, s, run).Some? && n < |run|
    requires ObserveAll(names, WatchFrom(s, key, holder), run[..n], key, holder).kept
    requires run[n].Elect? && run[n].key == key && names(run[n].p) != holder
    ensures Run(names, s, run[..n]).Some?
    ensures var m := Run(names, s, run[..n]).value; !ElectResult(m.rows, m.now, key, names(run[n].p), run[n].expires).1
  {
    RunPrefix(names, s, run, n);
    KeptIsDescribed(names, s, run[..n], key, holder);
    var m := Run(names, s, run[..n]).value;
    ElectionBlocked(m.rows, m.now, key, holder, names(run[n].p), run[n].expires);
  }

  /** Between two won elections of a key under different names, the first winner resigned, or its lease came to an end. */
  lemma NextWinnerWaits(names: Names, s: State, p: nat, q: nat, key: string, e: int, f: int, run: seq<Action>)
    requires ElectResult(s.rows, s.now, key, names(p), e).1 && names(p) != names(q)
    requires var s1 := Step(names, s, Elect(p, key, e)).value;
             Run(names, s1, run).Some? && ElectResult(Run(names, s1, run).value.rows, Run(names, s1, run).value.now, key, names(q), f).1
    ensures var s1 := Step(names, s, Elect(p, key, e)).value;
            key in s1.rows && !ObserveAll(names, WatchFrom(s1, key, names(p)), run, key, names(p)).kept
  {
    var s1 := Step(names, s, Elect(p, key, e)).value;
    if ObserveAll(names, WatchFrom(s1, key, names(p)), run, key, names(p)).kept {
      KeptIsDescribed(names, s1, run, key, names(p));
      var m := Run(names, s1, run).value;
      ElectionBlocked(m.rows, m.now, key, names(p), names(q), f);
      assert false;
    }
  }

  /** Nothing the holder does, and no clock reading, brings the lease to an end before the deadline. */
  ghost predicate SafeUntil(names: Names, a: Action, key: string, holder: string, deadline: int) {
    && (a.Tick? ==> a.to < deadline)
    && (a.Resign? && a.key == key ==> names(a.p) != holder)
    && (a.RenewRead? && a.key == key && names(a.p) == holder ==> a.expires >= deadline)
  }

  ghost predicate KeptUntil(w: Watch, deadline: int) {
    w.kept && w.now < deadline <= w.end && forall t :: t in w.tickets ==> w.tickets[t] >= deadline
  }

  lemma {:induction false} KeptBeforeDeadline(names: Names, w: Watch, run: seq<Action>, key: string, holder: string, deadline: int)
    requires KeptUntil(w, deadline)
    requires forall i :: 0 <= i < |run| ==> SafeUntil(names, run[i], key, holder, deadline)
    ensures KeptUntil(ObserveAll(names, w, run, key, holder), deadline)
  {
    if run != [] {
      KeptBeforeDeadline(names, w, run[..|run| - 1], key, holder, deadline);
      assert SafeUntil(names, run[|run| - 1], key, holder, deadline);
    }
  }

  /** A lease that runs to a deadline holds until then: if no clock reading reaches it, the holder does not resign, and all
      its renewals go to the deadline or beyond, the holder leads after every step, and no rival's election wins at any. */
  lemma LeaseHolds(names: Names, s: State, run: seq<Action>, key: string, holder: string, deadline: int)
    requires Leads(s.rows, s.now, key, holder) && s.rows[key].expires >= deadline > s.now && Run(names, s, run).Some?
    requires forall t :: t in TicketsOf(s.pending, key, holder) ==> TicketsOf(s.pending, key, holder)[t] >= deadline
    requires forall i :: 0 <= i < |run| ==> SafeUntil(names, run[i], key, holder, deadline)
    ensures LeadsThroughout(names, s, run, key, holder)
    ensures forall n :: 0 <= n < |run| && run[n].Elect? && run[n].key == key && names(run[n].p) != holder ==>
              Run(names, s, run[..n]).Some?
              && !ElectResult(Run(names, s, run[..n]).value.rows, Run(names, s, run[..n]).value.now, key, names(run[n].p), run[n].expires).1
  {
    var w := WatchFrom(s, key, holder);
    KeptBeforeDeadline(names, w, run, key, holder, deadline);
    LeaseLaw(names, s, run, key, holder);
    forall n | 0 <= n < |run| && run[n].Elect? && run[n].key == key && names(run[n].p) != holder
      ensures Run(names, s, run[..n]).Some?
              && !ElectResult(Run(names, s, run[..n]).value.rows, Run(names, s, run[..n]).value.now, key, names(run[n].p), run[n].expires).1
    {
      NeverKeptAgain(names, w, run, n, key, holder);
      NoRivalWins(names, s, run, n, key, holder);
    }
  }

  // ---- Delayed renewals ----

  /** Steps that are no election and no resignation never change who holds a key. */
  lemma {:induction false} RenewalsNeverChangeHolder(names: Names, s: State, run: seq<Action>, key: string)
    requires Run(names, s, run).Some? && forall a :: a in run ==> a.RenewRead? || a.RenewWrite? || a.Tick?
    ensures var t := Run(names, s, run).value;
            t.rows.Keys == s.rows.Keys && (key in s.rows ==> t.rows[key].holder == s.rows[key].holder)
  {
    if run != [] {
      var front, a := run[..|run| - 1], run[|run| - 1];
      assert forall x :: x in front ==> x in run;
      assert a in run;
      RenewalsNeverChangeHolder(names, s, front, key);
    }
  }

  /** Renewals of others, delayed and interleaved anywhere, leave a row exactly as it is. */
  lemma {:induction false} RenewalsLeaveOthersAlone(names: Names, s: State, run: seq<Action>, key: string)
    requires Run(names, s, run).Some? && key in s.rows && TicketsOf(s.pending, key, s.rows[key].holder) == map[]
    requires forall i :: 0 <= i < |run| ==> run[i].RenewRead? || run[i].RenewWrite? || run[i].Tick?
    requires forall i :: 0 <= i < |run| && run[i].RenewRead? && run[i].key == key ==> names(run[i].p) != s.rows[key].holder
    ensures var t := Run(names, s, run).value;
            key in t.rows && t.rows[key] == s.rows[key] && TicketsOf(t.pending, key, s.rows[key].holder) == map[]
  {
    if run != [] {
      var front, a, holder := run[..|run| - 1], run[|run| - 1], s.rows[key].holder;
      RenewalsLeaveOthersAlone(names, s, front, key);
      var m := Run(names, s, front).value;
      match a
      case RenewRead(p, k, expires, t) => TicketRead(m.pending, t, Pending(k, names(p), expires), key, holder);
      case RenewWrite(t) =>
        TicketWritten(m.pending, t, key, holder);
        assert t !in TicketsOf(m.pending, key, holder);
      case _ =>
    }
  }

  predicate Held(s: State, key: string, name: string) { key in s.rows && s.rows[key].holder == name }

  /** When a renewal's write does what its `true` reports: its process then leads until the new expiry if and only if the row
      is still held under its name, expired or not, and the new expiry is ahead. Otherwise nobody else's row changes. */
  lemma RenewVerdict(names: Names, s: State, ticket: nat)
    requires ticket in s.pending
    ensures var w, t := s.pending[ticket], Step(names, s, RenewWrite(ticket)).value;
            && (Leads(t.rows, t.now, w.key, w.name) && t.rows[w.key].expires == w.expires <==> Held(s, w.key, w.name) && s.now < w.expires)
            && (!Held(s, w.key, w.name) ==> t.rows == s.rows)
  {
  }

  /** The step takes the row from `name`: its own resignation, or an election won under another name after its lease ran out. */
  predicate Takes(names: Names, s: State, a: Action, key: string, name: string) {
    || (a.Resign? && a.key == key && names(a.p) == name)
    || (a.Elect? && a.key == key && names(a.p) != name && key in s.rows && s.rows[key].expires < s.now < a.expires)
  }

  /** The step gives the row to `name`: an election won under it. */
  predicate Gains(names: Names, s: State, a: Action, key: string, name: string) {
    a.Elect? && a.key == key && names(a.p) == name && s.now < a.expires && (key in s.rows ==> s.rows[key].expires < s.now)
  }

  lemma HeldStep(names: Names, s: State, a: Action, key: string, name: string)
    requires Step(names, s, a).Some?
    ensures Held(Step(names, s, a).value, key, name) <==>
              (Held(s, key, name) && !Takes(names, s, a, key, name)) || Gains(names, s, a, key, name)
  {
  }

  ghost predicate TakenAt(names: Names, s: State, run: seq<Action>, i: nat, key: string, name: string) {
    i < |run| && Run(names, s, run[..i]).Some? && Takes(names, Run(names, s, run[..i]).value, run[i], key, name)
  }

  ghost predicate GainedAt(names: Names, s: State, run: seq<Action>, i: nat, key: string, name: string) {
    i < |run| && Run(names, s, run[..i]).Some? && Gains(names, Run(names, s, run[..i]).value, run[i], key, name)
  }

  /** Some step takes the row from `name`, and no later one gives it back. */
  ghost predicate LostIn(names: Names, s: State, run: seq<Action>, key: string, name: string) {
    exists i: nat :: TakenAt(names, s, run, i, key, name) && forall j: nat :: i < j ==> !GainedAt(names, s, run, j, key, name)
  }

  lemma SameBefore(names: Names, s: State, run: seq<Action>, i: nat, key: string, name: string)
    requires run != [] && i < |run| - 1
    ensures TakenAt(names, s, run, i, key, name) <==> TakenAt(names, s, run[..|run| - 1], i, key, name)
    ensures GainedAt(names, s, run, i, key, name) <==> GainedAt(names, s, run[..|run| - 1], i, key, name)
  {
    assert run[..|run| - 1][..i] == run[..i];
  }

  lemma LostInFront(names: Names, s: State, run: seq<Action>, key: string, name: string)
    requires run != [] && !TakenAt(names, s, run, |run| - 1, key, name)
    ensures LostIn(names, s, run, key, name) <==>
              LostIn(names, s, run[..|run| - 1], key, name) && !GainedAt(names, s, run, |run| - 1, key, name)
  {
    var front := run[..|run| - 1];
    if i: nat :| TakenAt(names, s, run, i, key, name) && forall j: nat :: i < j ==> !GainedAt(names, s, run, j, key, name) {
      SameBefore(names, s, run, i, key, name);
      forall j: nat | i < j ensures !GainedAt(names, s, front, j, key, name) {
        if j < |front| { SameBefore(names, s, run, j, key, name); }
      }
      assert !GainedAt(names, s, run, |run| - 1, key, name);
    }
    if LostIn(names, s, front, key, name) && !GainedAt(names, s, run, |run| - 1, key, name) {
      var i: nat :| TakenAt(names, s, front, i, key, name) && forall j: nat :: i < j ==> !GainedAt(names, s, front, j, key, name);
      SameBefore(names, s, run, i, key, name);
      forall j: nat | i < j ensures !GainedAt(names, s, run, j, key, name) {
        if j < |front| { SameBefore(names, s, run, j, key, name); }
      }
    }
  }

  /** A row once held is held at the end of a run exactly if no step took it for good. */
  lemma {:induction false} HeldLaw(names: Names, s: State, run: seq<Action>, key: string, name: string)
    requires Held(s, key, name) && Run(names, s, run).Some?
    ensures Held(Run(names, s, run).value, key, name) <==> !LostIn(names, s, run, key, name)
  {
    if run != [] {
      var front, a := run[..|run| - 1], run[|run| - 1];
      var m := Run(names, s, front).value;
      HeldLaw(names, s, front, key, name);
      HeldStep(names, m, a, key, name);
      if TakenAt(names, s, run, |front|, key, name) {
        assert Takes(names, m, a, key, name) && !Gains(names, m, a, key, name);
        assert forall j: nat :: |front| < j ==> !GainedAt(names, s, run, j, key, name);
        assert LostIn(names, s, run, key, name);
      } else {
        LostInFront(names, s, run, key, name);
        assert GainedAt(names, s, run, |front|, key, name) <==> Gains(names, m, a, key, name);
      }
    }
  }

  lemma {:induction false} TicketStays(names: Names, s: State, run: seq<Action>, ticket: nat)
    requires ticket in s.pending && Run(names, s, run).Some? && forall i :: 0 <= i < |run| ==> run[i] != RenewWrite(ticket)
    ensures ticket in Run(names, s, run).value.pending && Run(names, s, run).value.pending[ticket] == s.pending[ticket]
  {
    if run != [] { TicketStays(names, s, run[..|run| - 1], ticket); }
  }

  /** The whole of Renew, with anything in between: a process reads that it leads, other steps follow, and its write comes
      last. What it reports, that it now leads until the new expiry, is true if and only if that expiry is still ahead and
      no step in between took the row for good: its own resignation, or a rival's election after the lease had run out. */
  lemma RenewLaw(names: Names, s: State, p: nat, key: string, expires: int, ticket: nat, run: seq<Action>)
    requires Leads(s.rows, s.now, key, names(p)) && ticket !in s.pending
    requires var s1 := Step(names, s, RenewRead(p, key, expires, ticket)).value;
             Run(names, s1, run).Some? && forall i :: 0 <= i < |run| ==> run[i] != RenewWrite(ticket)
    ensures var s1 := Step(names, s, RenewRead(p, key, expires, ticket)).value;
            var m := Run(names, s1, run).value;
            && Step(names, m, RenewWrite(ticket)).Some?
            && var t := Step(names, m, RenewWrite(ticket)).value;
               Leads(t.rows, t.now, key, names(p)) && t.rows[key].expires == expires
               <==> m.now < expires && !LostIn(names, s1, run, key, names(p))
  {
    var s1 := Step(names, s, RenewRead(p, key, expires, ticket)).value;
    TicketStays(names, s1, run, ticket);
    HeldLaw(names, s1, run, key, names(p));
    RenewVerdict(names, Run(names, s1, run).value, ticket);
  }

  /** A late write makes its process leader again although its lease had run out, as long as nobody took the row. */
  lemma OwnRowRevived(names: Names)
    ensures var s := Run(names, Initial, [Elect(0, "k", 10), RenewRead(0, "k", 30, 7), Tick(20)]);
            && s.Some? && 7 in s.value.pending && !IsLeader(names, s.value, 0, "k")
            && IsLeader(names, Step(names, s.value, RenewWrite(7)).value, 0, "k")
  {
    var r1 := [Elect(0, "k", 10)];
    var r2 := r1 + [RenewRead(0, "k", 30, 7)];
    var r3 := r2 + [Tick(20)];
    assert r1[..0] == [] && r2[..1] == r1 && r3[..2] == r2;
    assert Run(names, Initial, r1).Some? && Run(names, Initial, r2).Some?;
    assert r3 == [Elect(0, "k", 10), RenewRead(0, "k", 30, 7), Tick(20)];
  }

  /** A renewal may report success although the lease has meanwhile passed to another process: the row it read
      expired before its write, which then changes nothing. */
  lemma RenewTrueButLost(names: Names)
    requires names(0) != names(1)
    ensures var run := [Elect(0, "k", 10), RenewRead(0, "k", 20, 7), Tick(11), Elect(1, "k", 30)];
            var s := Run(names, Initial, run);
            && s.Some? && 7 in s.value.pending && IsLeader(names, s.value, 1, "k")
            && Step(names, s.value, RenewWrite(7)).Some? && Step(names, s.value, RenewWrite(7)).value.rows == s.value.rows
  {
    var r1 := [Elect(0, "k", 10)];
    var r2 := r1 + [RenewRead(0, "k", 20, 7)];
    var r3 := r2 + [Tick(11)];
    var r4 := r3 + [Elect(1, "k", 30)];
    assert r1[..0] == [] && r2[..1] == r1 && r3[..2] == r2 && r4[..3] == r3;
    assert Run(names, Initial, r1).Some? && Run(names, Initial, r2).Some? && Run(names, Initial, r3).Some?;
    assert r4 == [Elect(0, "k", 10), RenewRead(0, "k", 20, 7), Tick(11), Elect(1, "k", 30)];
  }
}
