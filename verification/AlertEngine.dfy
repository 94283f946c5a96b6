/** The alert engine as the program has it: an object whose maps its methods update in place,
    above a database handle. Each method is tied to the functions of module Alerts. */
module AlertEngine {
  import opened Options
  import opened Database
  import opened Alerts
  import AlertReadings
  import Storage

  class Engine {
    const db: Storage.DB
    var thresholds: map<string, real>
    var activeAlerts: map<string, nat>

    constructor (db: Storage.DB)
      ensures this.db == db && thresholds == map[] && activeAlerts == map[]
    {
      this.db := db;
      thresholds := map[];
      activeAlerts := map[];
    }

    function View(): System
      reads this, db
    {
      System(db.tables, EngineState(thresholds, activeAlerts))
    }

    /** `readsThresholds` and `readsAlerts` say whether the two queries succeed. */
    method LoadThresholds(readsThresholds: bool, readsAlerts: bool) returns (ok: bool, ghost listing: seq<nat>)
      modifies this
      ensures ok == (readsThresholds && readsAlerts)
      ensures thresholds == if readsThresholds then db.tables.thresholds else old(thresholds)
      ensures IsActiveListing(db.tables.alerts.rows, listing)
      ensures activeAlerts == if ok then LoadActive(old(activeAlerts), db.tables.alerts.rows, listing) else old(activeAlerts)
      ensures old(thresholds) == map[] && old(activeAlerts) == map[] ==>
                View().engine == Load(db.tables, listing, Queries(readsThresholds, readsAlerts))
    {
      var active := db.ActiveAlerts();
      listing := active;
      if !readsThresholds {
        return false, listing;
      }
      var t := db.GetThresholds();
      thresholds := t;
      if !readsAlerts {
        return false, listing;
      }
      var rows := db.tables.alerts.rows;
      for i := 0 to |active|
        invariant db.tables == old(db.tables) && thresholds == t
        invariant activeAlerts == LoadActive(old(activeAlerts), rows, active[..i])
      {
        assert active[..i + 1][..i] == active[..i];
        assert active[i] in active;
        activeAlerts := activeAlerts[rows[active[i]].kind := active[i]];
      }
      assert active[..|active|] == active;
      return true, listing;
    }

    method UpdateThreshold(key: string, value: real, ok: bool)
      modifies this, db
      ensures View() == if ok
                        then System(SetThreshold(old(db.tables), key, value), old(View()).engine.(thresholds := old(thresholds)[key := value]))
                        else old(View())
    {
      db.SetThreshold(key, value, ok);
      if ok {
        thresholds := thresholds[key := value];
      }
    }

    method BuildChecks(m: Metrics) returns (checks: seq<Check>)
      ensures checks == Checks(m, thresholds)
      ensures AlertReadings.ChecksAre(checks, m, thresholds)
    {
      checks := [ReadingCheck("cpu_pct", m.cpu, thresholds),
                 ReadingCheck("ram_pct", m.ram, thresholds),
                 ReadingCheck("swap_pct", m.swap, thresholds)];
      var diskThreshold := Lookup(thresholds, "disk_pct");
      ghost var fixedChecks := checks;
      for i := 0 to |m.disks|
        invariant checks == fixedChecks + DiskChecks(m.disks, diskThreshold)[..i]
      {
        checks := checks + [DiskCheck(m.disks[i], diskThreshold)];
      }
      ghost var withDisks := checks;
      for i := 0 to |m.urls|
        invariant checks == withDisks + URLChecks(m.urls)[..i]
      {
        checks := checks + [URLCheckOf(m.urls[i])];
      }
      assert checks == Checks(m, thresholds);
      AlertReadings.TheChecks(m, thresholds);
    }

    method Evaluate(m: Metrics, env: Env) returns (fired: seq<FiredAlert>, ok: bool, ghost log: seq<Entry>)
      modifies this, db
      ensures Progress(View(), fired, log, ok) == Alerts.Evaluate(old(View()), m, env)
    {
      var checks := BuildChecks(m);
      ghost var start := View();
      fired, ok, log := [], true, [];
      for i := 0 to |checks|
        invariant ok && Progress(View(), fired, log, true) == EvalPrefix(start, checks, i, env)
      {
        var c := checks[i];
        ghost var p := EvalPrefix(start, checks, i, env);
        assert EvalPrefix(start, checks, i + 1, env) == EvalStep(p, c, i, env);
        if c.threshold <= 0.0 {
          continue;
        }
        if c.value >= c.threshold {
          if c.kind !in activeAlerts {
            var a := RowOf(c, env.clock(i));
            var id := db.InsertAlert(a, env.insertOk(i));
            if id == None {
              ok := false;
              EvalPrefixStops(start, checks, i + 1, env);
              return;
            }
            activeAlerts := activeAlerts[c.kind := id.value];
            fired := fired + [FiredAlert(id.value, a)];
            log := log + [Fired(c.kind, id.value)];
          }
        } else {
          if c.kind in activeAlerts {
            var id := activeAlerts[c.kind];
            db.ResolveAlert(id, env.clock(i), env.resolveOk(i));
            activeAlerts := activeAlerts - {c.kind};
            log := log + [Resolved(c.kind, id)];
          }
        }
      }
    }
  }

  /** After a failed insertion the remaining iterations do nothing. */
  lemma {:induction false} EvalPrefixStops(sys: System, checks: seq<Check>, n: nat, env: Env)
    requires n <= |checks| && !EvalPrefix(sys, checks, n, env).ok
    ensures EvaluateAll(sys, checks, env) == EvalPrefix(sys, checks, n, env)
    decreases |checks| - n
  {
    if n < |checks| {
      EvalPrefixStops(sys, checks, n + 1, env);
    }
  }
}
