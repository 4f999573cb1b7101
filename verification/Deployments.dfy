/** The deployments table, its version allocation, and container names. */
module Deployments {
  import opened Texts

  datatype Status = Deploying | Running | Failed

  /** A row of the deployments table; its position in the table stands for its ID. */
  datatype Deployment = Deployment(app: string, version: nat, image: string, container: string, status: Status)

  /** The greatest version of the app, 0 when it has none. */
  function MaxVersion(rows: seq<Deployment>, app: string): nat {
    if rows == [] then 0
    else
      var front, last := MaxVersion(rows[..|rows| - 1], app), rows[|rows| - 1];
      if last.app == app && last.version > front then last.version else front
  }

  lemma {:induction false} MaxVersionBounds(rows: seq<Deployment>, app: string, i: nat)
    requires i < |rows| && rows[i].app == app
    ensures rows[i].version <= MaxVersion(rows, app)
  {
    if i < |rows| - 1 { MaxVersionBounds(rows[..|rows| - 1], app, i); }
  }

  /** The greatest version is one of the app's versions, unless it has none above 0. */
  lemma {:induction false} MaxVersionAttained(rows: seq<Deployment>, app: string)
    ensures MaxVersion(rows, app) == 0 || exists i :: 0 <= i < |rows| && rows[i].app == app && rows[i].version == MaxVersion(rows, app)
  {
    if rows != [] {
      var front, n := rows[..|rows| - 1], |rows| - 1;
      MaxVersionAttained(front, app);
      if MaxVersion(rows, app) == MaxVersion(front, app) && MaxVersion(front, app) != 0 {
        var i :| 0 <= i < |front| && front[i].app == app && front[i].version == MaxVersion(front, app);
        assert rows[i] == front[i];
      } else {
        assert MaxVersion(rows, app) != 0 ==> rows[n].app == app && rows[n].version == MaxVersion(rows, app);
      }
    }
  }

  /** The row an atomic allocation inserts. */
  function NewRow(rows: seq<Deployment>, app: string, image: string): Deployment {
    Deployment(app, MaxVersion(rows, app) + 1, image, "", Deploying)
  }

  /** "dm-<app>-<version>". */
  function ContainerName(app: string, version: nat): string { "dm-" + app + "-" + Decimal(version) }

  /** Splitting at the last dash. */
  lemma LastDash(a: string, d: string, b: string, e: string)
    requires '-' !in d && '-' !in e && a + "-" + d == b + "-" + e
    ensures a == b && d == e
  {
    var s, t := a + "-" + d, b + "-" + e;
    assert s[|a|] == '-' && t[|b|] == '-';
    assert forall i :: |a| < i < |s| ==> s[i] == d[i - |a| - 1];
    assert forall i :: |b| < i < |t| ==> t[i] == e[i - |b| - 1];
    assert |a| == |b|;
    assert a == s[..|a|] == t[..|b|] == b;
    assert d == s[|a| + 1..] == t[|b| + 1..] == e;
  }

  /** Whatever the app IDs contain, a container name belongs to one app and one version. */
  lemma NameInjective(app1: string, v1: nat, app2: string, v2: nat)
    requires ContainerName(app1, v1) == ContainerName(app2, v2)
    ensures app1 == app2 && v1 == v2
  {
    DecimalHasNoDash(v1);
    DecimalHasNoDash(v2);
    LastDash("dm-" + app1, Decimal(v1), "dm-" + app2, Decimal(v2));
    assert app1 == ("dm-" + app1)[3..] && app2 == ("dm-" + app2)[3..];
    DecimalInjective(v1, v2);
  }
}
