/** Scheduled configuration backups: full and incremental rows, stored objects, and the retention sweep,
    with one storage target. */
module Backup {
  import opened Options

  type Bytes = string

  /** The object key "<tenant>/<app>/<backup>.json". */
  datatype Key = Key(tenant: string, app: string, backup: nat)

  datatype Status = Pending | Completed | Failed

  datatype Row = Row(id: nat, tenant: string, app: string, path: Key, hash: string, status: Status, createdAt: int)

  datatype Object = Object(bytes: Bytes, createdAt: int)

  /** Seconds in the 30 days of retention. */
  const RETENTION := 30 * 24 * 60 * 60

  /** `rows`: the backups table in insertion order; `objects`: the storage; `uploads`: every object ever stored;
      `swept`: the keys the retention sweep removed. */
  datatype State = State(rows: seq<Row>, objects: map<Key, Object>, uploads: map<Key, Object>, swept: set<Key>, clock: int)

  const Initial := State([], map[], map[], {}, 0)

  /** What the database and the storage do during one backup. `created`: the row exists after the insert, `stored`: the
      object exists after the upload, `updated`: the status change reached the row; each whatever the call reported. */
  datatype Outcome = Outcome(createOk: bool, created: bool, uploadOk: bool, stored: bool, updated: bool)

  /** `id` is the generated backup ID; `last` what listing the tenant's newest row returned. */
  datatype Action =
    | BackupApp(id: nat, tenant: string, app: string, payload: Bytes, last: Option<Row>, o: Outcome, now: int)
    | Cleanup(tenant: string, deletable: set<Key>, now: int)

  /** The listing is ordered by creation time, newest first, and limited to one row; it may also fail. */
  ghost predicate ListsNewest(rows: seq<Row>, tenant: string, last: Option<Row>) {
    last.Some? ==>
      && last.value in rows && last.value.tenant == tenant
      && forall r :: r in rows && r.tenant == tenant ==> r.createdAt <= last.value.createdAt
  }

  /** The previous backup to build on: the listed row, if it is a completed one of this app. */
  function FindLast(last: Option<Row>, app: string): Option<Row> {
    if last.Some? && last.value.app == app && last.value.status == Completed then last else None
  }

  function PathFor(hash: Bytes -> string, a: Action): Key
    requires a.BackupApp?
  {
    var prev := FindLast(a.last, a.app);
    if prev.Some? && prev.value.hash == hash(a.payload) then prev.value.path else Key(a.tenant, a.app, a.id)
  }

  predicate Incremental(hash: Bytes -> string, a: Action)
    requires a.BackupApp?
  {
    var prev := FindLast(a.last, a.app);
    prev.Some? && prev.value.hash == hash(a.payload)
  }

  function WithStatus(rows: seq<Row>, id: nat, tenant: string, st: Status): seq<Row> {
    seq(|rows|, i requires 0 <= i < |rows| => if rows[i].id == id && rows[i].tenant == tenant then rows[i].(status := st) else rows[i])
  }

  /** One backup: create the row as pending, upload unless incremental, then mark it completed or failed. */
  function AfterBackup(hash: Bytes -> string, s: State, a: Action): State
    requires a.BackupApp?
  {
    var key := PathFor(hash, a);
    var row := Row(a.id, a.tenant, a.app, key, hash(a.payload), Pending, a.now);
    if a.payload == "" || (!a.o.createOk && !a.o.created) then s.(clock := a.now)
    else
      var s1 := s.(rows := s.rows + [row], clock := a.now);
      if !a.o.createOk then s1
      else if Incremental(hash, a) then
        if a.o.updated then s1.(rows := WithStatus(s1.rows, a.id, a.tenant, Completed)) else s1
      else
        var obj := Object(a.payload, a.now);
        var s2 := if a.o.uploadOk || a.o.stored then s1.(objects := s1.objects[key := obj], uploads := s1.uploads[key := obj]) else s1;
        if a.o.updated then s2.(rows := WithStatus(s2.rows, a.id, a.tenant, if a.o.uploadOk then Completed else Failed)) else s2
  }

  /** The tenant's objects older than the cutoff by their own timestamp, where deletion works. */
  ghost function Expired(objects: map<Key, Object>, tenant: string, deletable: set<Key>, cutoff: int): set<Key> {
    set k | k in objects && k.tenant == tenant && objects[k].createdAt < cutoff && k in deletable
  }

  /** Removes the tenant's expired objects. */
  ghost function AfterCleanup(s: State, a: Action): State
    requires a.Cleanup?
  {
    var gone := Expired(s.objects, a.tenant, a.deletable, a.now - RETENTION);
    Without(s, gone).(clock := a.now)
  }

  ghost function Without(s: State, gone: set<Key>): State {
    s.(objects := s.objects - gone, swept := s.swept + gone)
  }

  ghost predicate Enabled(s: State, a: Action) {
    && a.now >= s.clock
    && (a.BackupApp? ==> ListsNewest(s.rows, a.tenant, a.last) && forall r :: r in s.rows ==> r.id != a.id)
  }

  ghost function Step(hash: Bytes -> string, s: State, a: Action): State {
    if a.BackupApp? then AfterBackup(hash, s, a) else AfterCleanup(s, a)
  }

  ghost predicate IsRun(hash: Bytes -> string, run: seq<Action>) {
    run == [] || (IsRun(hash, run[..|run| - 1]) && Enabled(After(hash, run[..|run| - 1]), run[|run| - 1]))
  }

  ghost function After(hash: Bytes -> string, run: seq<Action>): State {
    if run == [] then Initial else Step(hash, After(hash, run[..|run| - 1]), run[|run| - 1])
  }

  // ---- The chain invariant ----

  /** A completed row names an uploaded object of its own tenant and app, with contents of the recorded hash. */
  ghost predicate RowBacked(hash: Bytes -> string, uploads: map<Key, Object>, r: Row) {
    r.status == Completed ==>
      && r.path in uploads && hash(uploads[r.path].bytes) == r.hash
      && r.path.tenant == r.tenant && r.path.app == r.app
  }

  /** Every key ever uploaded carries the ID of a row, so a fresh ID gives a fresh key. */
  ghost predicate KeysOwned(rows: seq<Row>, uploads: map<Key, Object>) {
    forall k :: k in uploads ==> exists r :: r in rows && r.id == k.backup
  }

  /** The storage holds exactly the uploads that were not swept, unaltered, and what was swept was old enough. */
  ghost predicate StorageInv(objects: map<Key, Object>, uploads: map<Key, Object>, swept: set<Key>, clock: int) {
    && (forall k :: k in objects ==> k in uploads && objects[k] == uploads[k])
    && (forall k :: k in uploads ==> (k in objects <==> k !in swept))
    && (forall k :: k in swept ==> k in uploads && uploads[k].createdAt < clock - RETENTION)
    && (forall k :: k in uploads ==> uploads[k].createdAt <= clock)
  }

  ghost predicate Inv(hash: Bytes -> string, s: State) {
    && (forall r :: r in s.rows ==> RowBacked(hash, s.uploads, r))
    && KeysOwned(s.rows, s.uploads)
    && StorageInv(s.objects, s.uploads, s.swept, s.clock)
  }

  /** The rows after a backup: the old ones, and perhaps one new row of this backup. */
  lemma NewRow(hash: Bytes -> string, s: State, a: Action, r: Row)
    requires a.BackupApp? && Enabled(s, a) && r in AfterBackup(hash, s, a).rows
    ensures r in s.rows || (r.id == a.id && r.tenant == a.tenant && r.app == a.app && r.path == PathFor(hash, a)
                            && r.hash == hash(a.payload) && (r.status == Completed ==> a.o.createOk && (Incremental(hash, a) || a.o.uploadOk)))
  {
    var row := Row(a.id, a.tenant, a.app, PathFor(hash, a), hash(a.payload), Pending, a.now);
    var rows, t := s.rows + [row], AfterBackup(hash, s, a).rows;
    var i :| 0 <= i < |t| && t[i] == r;
    if i < |s.rows| {
      assert rows[i] == s.rows[i] && s.rows[i] in s.rows;
      assert t[i] == s.rows[i];
    } else {
      assert rows[i] == row;
    }
  }

  lemma OldRowsKept(hash: Bytes -> string, s: State, a: Action)
    requires a.BackupApp? && Enabled(s, a)
    ensures forall r :: r in s.rows ==> r in AfterBackup(hash, s, a).rows
    ensures a.payload != "" && a.o.createOk ==> exists r :: r in AfterBackup(hash, s, a).rows && r.id == a.id
  {
    var t := AfterBackup(hash, s, a).rows;
    forall r | r in s.rows ensures r in t {
      var i :| 0 <= i < |s.rows| && s.rows[i] == r;
      assert t[i] == r;
    }
    if a.payload != "" && a.o.createOk {
      assert t[|s.rows|] in t && t[|s.rows|].id == a.id;
    }
  }

  lemma FreshKey(hash: Bytes -> string, s: State, a: Action)
    requires Inv(hash, s) && a.BackupApp? && Enabled(s, a)
    ensures Key(a.tenant, a.app, a.id) !in s.uploads
  {
  }

  lemma BackupKeepsRowsBacked(hash: Bytes -> string, s: State, a: Action, r: Row)
    requires Inv(hash, s) && a.BackupApp? && Enabled(s, a) && r in AfterBackup(hash, s, a).rows
    ensures RowBacked(hash, AfterBackup(hash, s, a).uploads, r)
  {
    NewRow(hash, s, a, r);
    FreshKey(hash, s, a);
    if r in s.rows {
      assert RowBacked(hash, s.uploads, r);
    } else if Incremental(hash, a) {
      assert RowBacked(hash, s.uploads, a.last.value);
    }
  }

  lemma UploadKeepsStorage(s: State, key: Key, obj: Object, now: int)
    requires StorageInv(s.objects, s.uploads, s.swept, s.clock) && key !in s.uploads && s.clock <= now == obj.createdAt
    ensures StorageInv(s.objects, s.uploads, s.swept, now)
    ensures StorageInv(s.objects[key := obj], s.uploads[key := obj], s.swept, now)
  {
  }

  lemma BackupKeepsStorage(hash: Bytes -> string, s: State, a: Action)
    requires Inv(hash, s) && a.BackupApp? && Enabled(s, a)
    ensures var t := AfterBackup(hash, s, a); StorageInv(t.objects, t.uploads, t.swept, t.clock)
  {
    FreshKey(hash, s, a);
    UploadKeepsStorage(s, Key(a.tenant, a.app, a.id), Object(a.payload, a.now), a.now);
  }

  lemma BackupKeepsKeysOwned(hash: Bytes -> string, s: State, a: Action)
    requires KeysOwned(s.rows, s.uploads) && a.BackupApp? && Enabled(s, a)
    ensures KeysOwned(AfterBackup(hash, s, a).rows, AfterBackup(hash, s, a).uploads)
  {
    OldRowsKept(hash, s, a);
    var t := AfterBackup(hash, s, a);
    forall k | k in t.uploads ensures exists r :: r in t.rows && r.id == k.backup {
      if k in s.uploads {
        var r :| r in s.rows && r.id == k.backup;
        assert r in t.rows;
      }
    }
  }

  lemma BackupKeepsInv(hash: Bytes -> string, s: State, a: Action)
    requires Inv(hash, s) && a.BackupApp? && Enabled(s, a)
    ensures Inv(hash, AfterBackup(hash, s, a))
  {
    var t := AfterBackup(hash, s, a);
    forall r | r in t.rows ensures RowBacked(hash, t.uploads, r) { BackupKeepsRowsBacked(hash, s, a, r); }
    BackupKeepsKeysOwned(hash, s, a);
    BackupKeepsStorage(hash, s, a);
  }

  lemma CleanupKeepsInv(hash: Bytes -> string, s: State, a: Action)
    requires Inv(hash, s) && a.Cleanup? && Enabled(s, a)
    ensures Inv(hash, AfterCleanup(s, a))
  {
    assert StorageInv(s.objects, s.uploads, s.swept, s.clock);
  }

  lemma {:induction false} InvOverRuns(hash: Bytes -> string, run: seq<Action>)
    requires IsRun(hash, run)
    ensures Inv(hash, After(hash, run))
  {
    if run != [] {
      var front, a := run[..|run| - 1], run[|run| - 1];
      InvOverRuns(hash, front);
      if a.BackupApp? { BackupKeepsInv(hash, After(hash, front), a); } else { CleanupKeepsInv(hash, After(hash, front), a); }
    }
  }

  /** Over any run, across chains of incremental rows of any length: a completed row's path was uploaded with contents of
      the row's hash; the object is still there, byte for byte, unless the sweep removed it; and the sweep removed it only
      when the object itself was older than the retention time. */
  lemma CompletedRowsAreBacked(hash: Bytes -> string, run: seq<Action>, r: Row)
    requires IsRun(hash, run) && r in After(hash, run).rows && r.status == Completed
    ensures var s := After(hash, run);
            && r.path in s.uploads && hash(s.uploads[r.path].bytes) == r.hash
            && (r.path in s.objects <==> r.path !in s.swept)
            && (r.path in s.objects ==> s.objects[r.path] == s.uploads[r.path])
            && (r.path in s.swept ==> s.uploads[r.path].createdAt < s.clock - 2_592_000)
  {
    InvOverRuns(hash, run);
    assert RowBacked(hash, After(hash, run).uploads, r);
  }

  // ---- The retention sweep against incremental rows ----

  lemma Extend(hash: Bytes -> string, run: seq<Action>, a: Action)
    requires IsRun(hash, run) && Enabled(After(hash, run), a)
    ensures IsRun(hash, run + [a]) && After(hash, run + [a]) == Step(hash, After(hash, run), a)
  {
    assert (run + [a])[..|run|] == run;
  }

  /** A sweep that can delete everything keeps a completed row's object if and only if it was there and the object, not the
      row, is within the retention time. */
  lemma SweepLaw(hash: Bytes -> string, run: seq<Action>, r: Row, a: Action)
    requires IsRun(hash, run) && r in After(hash, run).rows && r.status == Completed
    requires a.Cleanup? && a.tenant == r.tenant && a.deletable == After(hash, run).objects.Keys && a.now >= After(hash, run).clock
    ensures r.path in After(hash, run).uploads
    ensures r.path in AfterCleanup(After(hash, run), a).objects <==>
            r.path in After(hash, run).objects && After(hash, run).uploads[r.path].createdAt >= a.now - 2_592_000
  {
    InvOverRuns(hash, run);
    assert RowBacked(hash, After(hash, run).uploads, r);
  }

  lemma SweptStays(hash: Bytes -> string, s: State, a: Action, k: Key)
    requires Inv(hash, s) && Enabled(s, a) && k in s.swept
    ensures k in Step(hash, s, a).swept
  {
  }

  /** A removed object never comes back: whatever follows, the rows that name it stay without contents. */
  lemma {:induction false} SweptForever(hash: Bytes -> string, run: seq<Action>, more: seq<Action>, k: Key)
    requires IsRun(hash, run + more) && IsRun(hash, run) && k in After(hash, run).swept
    ensures k in After(hash, run + more).swept && k !in After(hash, run + more).objects
    decreases |more|
  {
    InvOverRuns(hash, run + more);
    if more == [] {
      assert run + more == run;
    } else {
      var front, a := more[..|more| - 1], more[|more| - 1];
      assert (run + more)[..|run + more| - 1] == run + front;
      SweptForever(hash, run, front, k);
      InvOverRuns(hash, run + front);
      SweptStays(hash, After(hash, run + front), a, k);
    }
  }

  /** A backup whose every call succeeds leaves a completed row of this moment. Its object exists if and only if the backup
      was full, or the object it builds on was not swept. */
  lemma NewRowObject(hash: Bytes -> string, run: seq<Action>, a: Action)
    requires IsRun(hash, run) && a.BackupApp? && Enabled(After(hash, run), a)
    requires a.payload != "" && a.o.createOk && a.o.uploadOk && a.o.updated
    ensures var s, t := After(hash, run), AfterBackup(hash, After(hash, run), a);
            exists r :: r in t.rows && r.id == a.id && r.status == Completed && r.createdAt == a.now
              && (r.path in t.objects <==> (Incremental(hash, a) ==> a.last.value.path !in s.swept))
  {
    var s, t := After(hash, run), AfterBackup(hash, After(hash, run), a);
    InvOverRuns(hash, run);
    var r := t.rows[|s.rows|];
    assert r in t.rows && r.path == PathFor(hash, a);
    if Incremental(hash, a) {
      assert RowBacked(hash, s.uploads, a.last.value);
    }
  }

  /** The row a backup leaves: none if there is nothing to back up or the insert left none; else one with the new contents'
      hash, on the path of the tenant's newest row if that is a completed one of this app with the same hash, and on its own
      path otherwise; completed when the object is there and the update got through, failed when the upload failed and the
      update got through, and pending in every other case. */
  lemma BackupRow(hash: Bytes -> string, s: State, a: Action)
    requires a.BackupApp? && Enabled(s, a)
    ensures var again := a.last.Some? && a.last.value.app == a.app && a.last.value.status == Completed && a.last.value.hash == hash(a.payload);
            var path := if again then a.last.value.path else Key(a.tenant, a.app, a.id);
            var st := if !a.o.createOk || !a.o.updated then Pending else if again || a.o.uploadOk then Completed else Failed;
            var none := a.payload == "" || !(a.o.createOk || a.o.created);
            AfterBackup(hash, s, a).rows == s.rows + if none then [] else [Row(a.id, a.tenant, a.app, path, hash(a.payload), st, a.now)]
  {
    var t := AfterBackup(hash, s, a).rows;
    assert s.rows + [] == s.rows;
    assert forall i :: 0 <= i < |s.rows| ==> s.rows[i] in s.rows && t[i] == s.rows[i];
  }

  /** Rows are never changed or removed by a later backup or sweep. */
  lemma {:induction false} RowsStay(hash: Bytes -> string, run: seq<Action>, more: seq<Action>)
    requires IsRun(hash, run + more)
    ensures After(hash, run).rows <= After(hash, run + more).rows
  {
    if more == [] {
      assert run + more == run;
    } else {
      var front, a := more[..|more| - 1], more[|more| - 1];
      assert (run + more)[..|run + more| - 1] == run + front;
      RowsStay(hash, run, front);
      if a.BackupApp? { BackupRow(hash, After(hash, run + front), a); }
    }
  }

  const ALL_OK := Outcome(true, true, true, true, true)

  /** Day 0 a full backup, day 29 an incremental one, day 31 the sweep: the completed row of day 29 names a removed object. */
  lemma {:induction false} SweepOrphansRows(hash: Bytes -> string)
    ensures exists run: seq<Action>, r: Row :: IsRun(hash, run) && r in After(hash, run).rows && r.status == Completed
              && r.path !in After(hash, run).objects && After(hash, run).clock - r.createdAt < RETENTION
  {
    var day := 24 * 60 * 60;
    var key, h := Key("t", "a", 0), hash("x");
    var row0 := Row(0, "t", "a", key, h, Completed, 0);
    var row1 := Row(1, "t", "a", key, h, Completed, 29 * day);
    var a0 := BackupApp(0, "t", "a", "x", None, ALL_OK, 0);
    var a1 := BackupApp(1, "t", "a", "x", Some(row0), ALL_OK, 29 * day);
    var a2 := Cleanup("t", {key}, 31 * day);
    Extend(hash, [], a0);
    var s1 := After(hash, [] + [a0]);
    assert s1.rows == [row0];
    assert Enabled(s1, a1);
    Extend(hash, [] + [a0], a1);
    var s2 := After(hash, [] + [a0] + [a1]);
    assert s2.rows == [row0, row1];
    assert key in s2.objects && s2.objects[key].createdAt == 0;
    Extend(hash, [] + [a0] + [a1], a2);
    var s3 := After(hash, [] + [a0] + [a1] + [a2]);
    assert key !in s3.objects && s3.rows[1] == row1;
  }

  // ---- The scheduler's methods ----

  /** One entry of the storage listing. */
  datatype Entry = Entry(key: Key, createdAt: int)

  class Scheduler {
    var rows: seq<Row>
    var objects: map<Key, Object>
    ghost var uploads: map<Key, Object>
    ghost var swept: set<Key>
    ghost var clock: int

    ghost function Current(): State reads this { State(rows, objects, uploads, swept, clock) }

    constructor ()
      ensures Current() == Initial
    {
      rows, objects, uploads, swept, clock := [], map[], map[], {}, 0;
    }

    method UpdateBackupStatus(id: nat, tenant: string, st: Status, updated: bool)
      modifies this`rows
      ensures rows == if updated then WithStatus(old(rows), id, tenant, st) else old(rows)
      ensures |rows| == |old(rows)| && forall i :: 0 <= i < |rows| ==>
                rows[i] == if updated && old(rows)[i].id == id && old(rows)[i].tenant == tenant then old(rows)[i].(status := st) else old(rows)[i]
    {
      if updated {
        var i := 0;
        while i < |rows|
          invariant 0 <= i <= |rows| == |old(rows)|
          invariant forall j :: 0 <= j < i ==> rows[j] == WithStatus(old(rows), id, tenant, st)[j]
          invariant forall j :: i <= j < |rows| ==> rows[j] == old(rows)[j]
        {
          if rows[i].id == id && rows[i].tenant == tenant {
            rows := rows[i := rows[i].(status := st)];
          }
          i := i + 1;
        }
      }
    }

    method Upload(key: Key, obj: Object, ok: bool, stored: bool)
      modifies this`objects, this`uploads
      ensures objects == if ok || stored then old(objects)[key := obj] else old(objects)
      ensures uploads == if ok || stored then old(uploads)[key := obj] else old(uploads)
    {
      if ok || stored {
        objects, uploads := objects[key := obj], uploads[key := obj];
      }
    }

    /** Backs up one app. A true result says the object was stored or an earlier one is reused; the row is marked completed
        only if the last update also went through. */
    method BackupApp(hash: Bytes -> string, a: Action) returns (ok: bool)
      requires a.BackupApp? && Enabled(Current(), a)
      modifies this
      ensures Current() == AfterBackup(hash, old(Current()), a)
      ensures ok <==> a.payload != "" && a.o.createOk && (Incremental(hash, a) || a.o.uploadOk)
    {
      clock := a.now;
      if a.payload == "" {
        UpdateBackupStatus(a.id, a.tenant, Failed, a.o.updated);
        assert rows == old(rows);
        return false;
      }
      var prev, key, incremental := FindLast(a.last, a.app), Key(a.tenant, a.app, a.id), false;
      if prev.Some? && prev.value.hash == hash(a.payload) {
        incremental, key := true, prev.value.path;
      }
      if a.o.createOk || a.o.created {
        rows := rows + [Row(a.id, a.tenant, a.app, key, hash(a.payload), Pending, a.now)];
      }
      if !a.o.createOk {
        return false;
      }
      if !incremental {
        Upload(key, Object(a.payload, a.now), a.o.uploadOk, a.o.stored);
        if !a.o.uploadOk {
          UpdateBackupStatus(a.id, a.tenant, Failed, a.o.updated);
          return false;
        }
      }
      UpdateBackupStatus(a.id, a.tenant, Completed, a.o.updated);
      return true;
    }

    method DeleteOlder(entries: seq<Entry>, deletable: set<Key>, cutoff: int) returns (deleted: nat)
      requires DistinctKeys(entries)
      modifies this`objects, this`swept
      ensures deleted == |Doomed(entries, deletable, cutoff)|
      ensures objects == old(objects) - Doomed(entries, deletable, cutoff)
      ensures swept == old(swept) + Doomed(entries, deletable, cutoff)
    {
      deleted := 0;
      ghost var gone: set<Key> := {};
      for i := 0 to |entries|
        invariant gone == Doomed(entries[..i], deletable, cutoff)
        invariant deleted == |gone| && objects == old(objects) - gone && swept == old(swept) + gone
      {
        var e := entries[i];
        DoomedStep(entries, i, deletable, cutoff);
        if IsDoomed(e, deletable, cutoff) {
          CutAgain(old(objects), gone, e.key);
          objects := objects - {e.key};
          gone, swept := gone + {e.key}, swept + {e.key};
          deleted := deleted + 1;
        }
      }
      assert entries[..|entries|] == entries;
    }

    /** Sweeps one tenant. `listing` is what the storage listed under the tenant's prefix, `None` when that failed. */
    method CleanupOldBackups(listing: Option<seq<Entry>>, a: Action) returns (deleted: Option<nat>, ghost gone: set<Key>)
      requires a.Cleanup?
      requires listing.Some? ==> ListsTenant(listing.value, objects, a.tenant)
      modifies this
      ensures listing.None? ==> deleted == None && Current() == old(Current()).(clock := a.now)
      ensures listing.Some? ==> deleted == Some(|gone|) && gone == Expired(old(objects), a.tenant, a.deletable, a.now - RETENTION)
      ensures listing.Some? ==> Current() == AfterCleanup(old(Current()), a)
    {
      clock := a.now;
      if listing.None? {
        return None, {};
      }
      var n;
      n, gone := DeleteExpired(listing.value, a.tenant, a.deletable, a.now - RETENTION);
      deleted := Some(n);
    }

    method DeleteExpired(entries: seq<Entry>, ghost tenant: string, deletable: set<Key>, cutoff: int) returns (deleted: nat, ghost gone: set<Key>)
      requires ListsTenant(entries, objects, tenant)
      modifies this`objects, this`swept
      ensures gone == Expired(old(objects), tenant, deletable, cutoff) && deleted == |gone|
      ensures Current() == Without(old(Current()), gone)
    {
      DoomedAll(entries, objects, tenant, deletable, cutoff);
      gone := Doomed(entries, deletable, cutoff);
      deleted := DeleteOlder(entries, deletable, cutoff);
    }
  }

  ghost predicate DistinctKeys(entries: seq<Entry>) {
    forall i, j :: 0 <= i < j < |entries| ==> entries[i].key != entries[j].key
  }

  ghost predicate DescribesOne(e: Entry, objects: map<Key, Object>, tenant: string) {
    e.key in objects && e.key.tenant == tenant && e.createdAt == objects[e.key].createdAt
  }

  ghost predicate Listed(entries: seq<Entry>, k: Key) { exists e :: e in entries && e.key == k }

  /** The listing names every object of the tenant once, with its own timestamp. */
  ghost predicate ListsTenant(entries: seq<Entry>, objects: map<Key, Object>, tenant: string) {
    && (forall e {:trigger DescribesOne(e, objects, tenant)} :: e in entries ==> DescribesOne(e, objects, tenant))
    && (forall k {:trigger Listed(entries, k)} :: k in objects && k.tenant == tenant ==> Listed(entries, k))
    && DistinctKeys(entries)
  }

  predicate IsDoomed(e: Entry, deletable: set<Key>, cutoff: int) { e.createdAt < cutoff && e.key in deletable }

  /** The keys the sweep removes among these entries. */
  ghost function Doomed(entries: seq<Entry>, deletable: set<Key>, cutoff: int): set<Key> {
    if entries == [] then {}
    else
      var front, e := Doomed(entries[..|entries| - 1], deletable, cutoff), entries[|entries| - 1];
      if IsDoomed(e, deletable, cutoff) then front + {e.key} else front
  }

  lemma {:induction false} DoomedMembers(entries: seq<Entry>, deletable: set<Key>, cutoff: int, k: Key)
    ensures k in Doomed(entries, deletable, cutoff) <==> exists e :: e in entries && IsDoomed(e, deletable, cutoff) && e.key == k
  {
    if entries != [] {
      var front, last := entries[..|entries| - 1], entries[|entries| - 1];
      DoomedMembers(front, deletable, cutoff, k);
      assert entries == front + [last];
    }
  }

  lemma DoomedStep(entries: seq<Entry>, i: nat, deletable: set<Key>, cutoff: int)
    requires i < |entries| && DistinctKeys(entries)
    ensures entries[i].key !in Doomed(entries[..i], deletable, cutoff)
    ensures var front := Doomed(entries[..i], deletable, cutoff);
            Doomed(entries[..i + 1], deletable, cutoff) == if IsDoomed(entries[i], deletable, cutoff) then front + {entries[i].key} else front
  {
    DoomedMembers(entries[..i], deletable, cutoff, entries[i].key);
    assert entries[..i + 1][..i] == entries[..i];
  }

  lemma CutAgain(m: map<Key, Object>, gone: set<Key>, k: Key)
    ensures (m - gone) - {k} == m - (gone + {k})
  {
  }

  lemma DoomedAll(entries: seq<Entry>, objects: map<Key, Object>, tenant: string, deletable: set<Key>, cutoff: int)
    requires ListsTenant(entries, objects, tenant)
    ensures Doomed(entries, deletable, cutoff) == Expired(objects, tenant, deletable, cutoff)
  {
    forall k ensures k in Doomed(entries, deletable, cutoff) <==> k in Expired(objects, tenant, deletable, cutoff) {
      DoomedMembers(entries, deletable, cutoff, k);
      if k in Doomed(entries, deletable, cutoff) {
        var e :| e in entries && IsDoomed(e, deletable, cutoff) && e.key == k;
        assert DescribesOne(e, objects, tenant);
      }
      if k in Expired(objects, tenant, deletable, cutoff) {
        assert Listed(entries, k);
        var e :| e in entries && e.key == k;
        assert DescribesOne(e, objects, tenant) && IsDoomed(e, deletable, cutoff);
      }
    }
  }

  // ---- Paging ----

  /** Lists one page, as the store does. */
  function Page<T>(items: seq<T>, limit: nat, offset: nat): seq<T> {
    if offset >= |items| then [] else if offset + limit <= |items| then items[offset..offset + limit] else items[offset..]
  }

  /** The paging loop over a store that does not change meanwhile. `fails` tells at which offsets listing fails, `canceled`
      after how many visits the context is canceled. Every item is visited once and in order, up to the first failed
      listing or the cancellation; without one, all of them are. */
  method VisitAll<T>(items: seq<T>, pageSize: nat, fails: nat -> bool, canceled: nat -> bool) returns (visited: seq<T>, done: bool)
    requires pageSize > 0
    ensures visited <= items
    ensures done ==> visited == items && forall k :: 0 <= k < |items| ==> !canceled(k)
    ensures !done ==> fails(|visited|) || canceled(|visited|)
  {
    visited := [];
    var offset := 0;
    while true
      invariant offset <= |items| && visited == items[..offset]
      invariant forall k :: 0 <= k < offset ==> !canceled(k)
      decreases |items| - offset
    {
      if canceled(offset) || fails(offset) {
        return visited, false;
      }
      var page := Page(items, pageSize, offset);
      if |page| == 0 {
        break;
      }
      for i := 0 to |page|
        invariant visited == items[..offset + i]
        invariant forall k :: 0 <= k < offset + i ==> !canceled(k)
      {
        if canceled(offset + i) {
          return visited, false;
        }
        visited := visited + [page[i]];
      }
      if |page| < pageSize {
        break;
      }
      offset := offset + |page|;
    }
    done := true;
  }
}
