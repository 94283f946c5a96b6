/** Whole runs of the alert engine over its tables: evaluations, threshold updates,
    acknowledgements, purges, restarts, and crashes in the middle of an evaluation. */
module AlertRuns {
  import opened Database
  import opened Alerts
  import opened AlertIndex

  datatype Op =
    | DoEvaluate(metrics: Metrics, env: Env)
    | DoUpdate(key: string, value: real, ok: bool)
    | DoAcknowledge(id: nat)
    | DoPurge(now: int, done: nat)
      // A new engine and LoadThresholds; `listing` is what ActiveAlerts would answer.
    | Restart(listing: seq<nat>, queries: Queries)
      // The process dies after n iterations of an evaluation and is started again.
    | Crash(metrics: Metrics, env: Env, n: nat, listing: seq<nat>, queries: Queries)

  datatype Outcome = Outcome(sys: System, fired: seq<FiredAlert>, log: seq<Entry>)

  /** How many of the checks the evaluation gets to. */
  function CrashLength(sys: System, m: Metrics, n: nat): (k: nat)
    ensures k <= |Checks(m, sys.engine.thresholds)|
  {
    var checks := Checks(m, sys.engine.thresholds);
    if n <= |checks| then n else |checks|
  }

  function CrashPoint(sys: System, m: Metrics, env: Env, n: nat): Progress {
    EvalPrefix(sys, Checks(m, sys.engine.thresholds), CrashLength(sys, m, n), env)
  }

  ghost predicate ValidOp(sys: System, op: Op) {
    match op
    case Restart(listing, _) => IsActiveListing(sys.tables.alerts.rows, listing)
    case Crash(m, env, n, listing, _) => IsActiveListing(CrashPoint(sys, m, env, n).sys.tables.alerts.rows, listing)
    case _ => true
  }

  ghost function Exec(sys: System, op: Op): Outcome
    requires ValidOp(sys, op)
  {
    match op
    case DoEvaluate(m, env) =>
      var p := Evaluate(sys, m, env);
      Outcome(p.sys, p.fired, p.log)
    case DoUpdate(key, value, ok) =>
      if ok then
        Outcome(System(SetThreshold(sys.tables, key, value), sys.engine.(thresholds := sys.engine.thresholds[key := value])), [], [])
      else
        Outcome(sys, [], [])
    case DoAcknowledge(id) => Outcome(System(AcknowledgeAlert(sys.tables, id), sys.engine), [], [])
    case DoPurge(now, done) => Outcome(System(Purge(sys.tables, now, done), sys.engine), [], [])
    case Restart(listing, queries) => Outcome(System(sys.tables, Load(sys.tables, listing, queries)), [], [])
    case Crash(m, env, n, listing, queries) =>
      var p := CrashPoint(sys, m, env, n);
      Outcome(System(p.sys.tables, Load(p.sys.tables, listing, queries)), [], p.log)
  }

  /** An update sets one threshold in the table and in the engine, or nothing; an acknowledgement
      marks one row, if it is there; a purge deletes what is too old. Neither of these touches
      the index. */
  lemma OpsDo(sys: System, op: Op)
    requires ValidOp(sys, op)
    ensures var after, rows := Exec(sys, op).sys, sys.tables.alerts.rows;
            match op
            case DoUpdate(key, value, ok) =>
              && after.tables == sys.tables.(thresholds := if ok then sys.tables.thresholds[key := value] else sys.tables.thresholds)
              && after.engine.thresholds == (if ok then sys.engine.thresholds[key := value] else sys.engine.thresholds)
              && after.engine.active == sys.engine.active
            case DoAcknowledge(id) =>
              && after.tables.alerts.rows == (if id in rows then rows[id := rows[id].(acknowledged := true)] else rows)
              && after.engine == sys.engine
            case DoPurge(now, done) => PurgeEffect(sys.tables, after.tables, now, done) && after.engine == sys.engine
            case _ => true
  {
    if op.DoPurge? {
      PurgeDeletesExactly(sys.tables, op.now, op.done);
    }
  }

  ghost predicate ValidRun(sys: System, ops: seq<Op>)
    decreases |ops|
  {
    ops == [] || (ValidOp(sys, ops[0]) && ValidRun(Exec(sys, ops[0]).sys, ops[1..]))
  }

  ghost function Run(sys: System, ops: seq<Op>): Outcome
    requires ValidRun(sys, ops)
    decreases |ops|
  {
    if ops == [] then Outcome(sys, [], [])
    else
      var first := Exec(sys, ops[0]);
      var rest := Run(first.sys, ops[1..]);
      Outcome(rest.sys, first.fired + rest.fired, first.log + rest.log)
  }

  /** The engine holds what a fresh load of its tables would hold. */
  ghost predicate Loaded(sys: System) {
    ExactIndex(sys) && sys.engine.thresholds == sys.tables.thresholds
  }

  predicate NoneOpen(rows: map<nat, Alert>) {
    forall id :: id in rows ==> !Open(rows[id])
  }

  /** A failed query has nothing to lose. */
  predicate LoadHarmless(t: Tables, queries: Queries) {
    && (queries.thresholds || t.thresholds == map[])
    && (queries == Queries(true, true) || NoneOpen(t.alerts.rows))
  }

  /** No attempted resolve fails, and no failed query of a load has anything to lose. */
  ghost predicate Faultless(sys: System, op: Op) {
    match op
    case DoEvaluate(m, env) =>
      var checks := Checks(m, sys.engine.thresholds);
      !SomeResolveLost(sys, checks, |checks|, env)
    case Restart(_, queries) => LoadHarmless(sys.tables, queries)
    case Crash(m, env, n, _, queries) =>
      && !SomeResolveLost(sys, Checks(m, sys.engine.thresholds), CrashLength(sys, m, n), env)
      && LoadHarmless(CrashPoint(sys, m, env, n).sys.tables, queries)
    case _ => true
  }

  ghost predicate FaultlessRun(sys: System, ops: seq<Op>)
    decreases |ops|
  {
    ops == [] || (ValidOp(sys, ops[0]) && Faultless(sys, ops[0]) && FaultlessRun(Exec(sys, ops[0]).sys, ops[1..]))
  }

  // ----- What one operation keeps ----------------------------------------------------------

  lemma {:induction false} PrefixKeepsThresholds(sys: System, checks: seq<Check>, n: nat, env: Env)
    requires n <= |checks|
    ensures var p := EvalPrefix(sys, checks, n, env);
            p.sys.tables.thresholds == sys.tables.thresholds && p.sys.engine.thresholds == sys.engine.thresholds
  {
    if n > 0 {
      PrefixKeepsThresholds(sys, checks, n - 1, env);
    }
  }

  lemma PrefixLoadedIff(sys: System, checks: seq<Check>, n: nat, env: Env)
    requires n <= |checks| && Loaded(sys)
    ensures Loaded(EvalPrefix(sys, checks, n, env).sys) <==> !SomeResolveLost(sys, checks, n, env)
  {
    EveryIterationExactIff(sys, checks, n, env);
    PrefixKeepsThresholds(sys, checks, n, env);
  }

  lemma PurgeKeepsIndex(sys: System, now: int, done: nat)
    ensures ExactIndex(sys) ==> ExactIndex(System(Purge(sys.tables, now, done), sys.engine))
    ensures WeakIndex(sys) ==> WeakIndex(System(Purge(sys.tables, now, done), sys.engine))
  {
    var after := System(Purge(sys.tables, now, done), sys.engine);
    if ExactIndex(sys) {
      forall id | id in after.tables.alerts.rows
        ensures !Orphan(after, id)
      {
        assert !Orphan(sys, id);
      }
    }
  }

  lemma AcknowledgeKeepsIndex(sys: System, id: nat)
    ensures ExactIndex(sys) ==> ExactIndex(System(AcknowledgeAlert(sys.tables, id), sys.engine))
    ensures WeakIndex(sys) ==> WeakIndex(System(AcknowledgeAlert(sys.tables, id), sys.engine))
  {
    var after := System(AcknowledgeAlert(sys.tables, id), sys.engine);
    if ExactIndex(sys) {
      forall other | other in after.tables.alerts.rows
        ensures !Orphan(after, other)
      {
        assert !Orphan(sys, other);
      }
    }
  }

  lemma UpdateKeepsIndex(sys: System, tables: Tables, thresholds: map<string, real>)
    requires tables.alerts == sys.tables.alerts
    ensures ExactIndex(sys) ==> ExactIndex(System(tables, sys.engine.(thresholds := thresholds)))
    ensures WeakIndex(sys) ==> WeakIndex(System(tables, sys.engine.(thresholds := thresholds)))
  {
    var after := System(tables, sys.engine.(thresholds := thresholds));
    if ExactIndex(sys) {
      forall id | id in after.tables.alerts.rows
        ensures !Orphan(after, id)
      {
        assert !Orphan(sys, id);
      }
    }
  }

  /** A fresh load of a loaded system finds the engine it replaces. */
  lemma ReloadChangesNothing(sys: System, listing: seq<nat>)
    requires Loaded(sys) && IsActiveListing(sys.tables.alerts.rows, listing)
    ensures Reload(sys.tables, listing) == sys.engine
  {
    ExactMeansIndex(sys);
    ReloadIsExact(sys.tables, listing);
    ExactIndexUnique(sys.tables, sys.engine, Reload(sys.tables, listing));
  }

  /** The alerts query has nothing to lose where it fails. */
  predicate AlertsHarmless(rows: map<nat, Alert>, queries: Queries) {
    queries == Queries(true, true) || NoneOpen(rows)
  }

  /** A start finds an exact index exactly when the alerts query had nothing to lose where it
      failed and no kind has two unresolved rows to load. */
  lemma ExactAfterLoadIff(t: Tables, listing: seq<nat>, queries: Queries)
    requires t.alerts.Valid() && IsActiveListing(t.alerts.rows, listing)
    ensures ExactIndex(System(t, Load(t, listing, queries)))
       <==> AlertsHarmless(t.alerts.rows, queries) && OnePerKind(t.alerts.rows)
  {
    var sys := System(t, Load(t, listing, queries));
    if queries == Queries(true, true) {
      if OnePerKind(t.alerts.rows) {
        ReloadIsExact(t, listing);
      } else if ExactIndex(sys) {
        ExactMeansIndex(sys);
      }
    } else {
      assert WeakIndex(sys);
      forall id
        ensures Orphan(sys, id) <==> id in t.alerts.rows && Open(t.alerts.rows[id])
      {
      }
    }
  }

  /** A start is sound exactly when no failed query had anything to lose and no kind has two
      unresolved rows to load. */
  lemma LoadedAfterLoadIff(t: Tables, listing: seq<nat>, queries: Queries)
    requires t.alerts.Valid() && IsActiveListing(t.alerts.rows, listing)
    ensures Loaded(System(t, Load(t, listing, queries))) <==> LoadHarmless(t, queries) && OnePerKind(t.alerts.rows)
  {
    ExactAfterLoadIff(t, listing, queries);
  }

  /** A restart of a loaded system changes nothing if and only if no failed query of its load
      had anything to lose. */
  lemma RestartTransparentIff(sys: System, listing: seq<nat>, queries: Queries)
    requires Loaded(sys) && IsActiveListing(sys.tables.alerts.rows, listing)
    ensures Load(sys.tables, listing, queries) == sys.engine <==> LoadHarmless(sys.tables, queries)
  {
    ReloadChangesNothing(sys, listing);
    ExactMeansIndex(sys);
    LoadedAfterLoadIff(sys.tables, listing, queries);
    if LoadHarmless(sys.tables, queries) {
      ExactIndexUnique(sys.tables, sys.engine, Load(sys.tables, listing, queries));
    }
  }

  /** No attempted resolve fails, and no failed alerts query has anything to lose. */
  ghost predicate IndexFaultless(sys: System, op: Op) {
    match op
    case DoEvaluate(m, env) =>
      var checks := Checks(m, sys.engine.thresholds);
      !SomeResolveLost(sys, checks, |checks|, env)
    case Restart(_, queries) => AlertsHarmless(sys.tables.alerts.rows, queries)
    case Crash(m, env, n, _, queries) =>
      && !SomeResolveLost(sys, Checks(m, sys.engine.thresholds), CrashLength(sys, m, n), env)
      && AlertsHarmless(CrashPoint(sys, m, env, n).sys.tables.alerts.rows, queries)
    case _ => true
  }

  /** The index is exact where the operation ends, and where a crash cuts it short. */
  ghost predicate StaysExact(sys: System, op: Op)
    requires ValidOp(sys, op)
  {
    && (op.Crash? ==> ExactIndex(CrashPoint(sys, op.metrics, op.env, op.n).sys))
    && ExactIndex(Exec(sys, op).sys)
  }

  lemma CrashExactIff(sys: System, m: Metrics, env: Env, n: nat, listing: seq<nat>, queries: Queries)
    requires ExactIndex(sys) && ValidOp(sys, Crash(m, env, n, listing, queries))
    ensures StaysExact(sys, Crash(m, env, n, listing, queries)) <==> IndexFaultless(sys, Crash(m, env, n, listing, queries))
  {
    var p := CrashPoint(sys, m, env, n);
    EveryIterationExactIff(sys, Checks(m, sys.engine.thresholds), CrashLength(sys, m, n), env);
    if ExactIndex(p.sys) {
      ExactMeansIndex(p.sys);
      ExactAfterLoadIff(p.sys.tables, listing, queries);
    }
  }

  /** An operation keeps an exact index exact if and only if no attempted resolve fails and no
      failed alerts query has anything to lose, whatever the thresholds are. */
  lemma ExecExactIff(sys: System, op: Op)
    requires ExactIndex(sys) && ValidOp(sys, op)
    ensures StaysExact(sys, op) <==> IndexFaultless(sys, op)
  {
    match op
    case DoEvaluate(m, env) =>
      var checks := Checks(m, sys.engine.thresholds);
      EveryIterationExactIff(sys, checks, |checks|, env);
    case DoUpdate(key, value, ok) =>
      UpdateKeepsIndex(sys, SetThreshold(sys.tables, key, value), sys.engine.thresholds[key := value]);
    case DoAcknowledge(id) =>
      AcknowledgeKeepsIndex(sys, id);
    case DoPurge(now, done) =>
      PurgeKeepsIndex(sys, now, done);
    case Restart(listing, queries) =>
      ExactMeansIndex(sys);
      ExactAfterLoadIff(sys.tables, listing, queries);
    case Crash(m, env, n, listing, queries) =>
      CrashExactIff(sys, m, env, n, listing, queries);
  }

  /** The system is loaded where the operation ends, and where a crash cuts it short. */
  ghost predicate StaysLoaded(sys: System, op: Op)
    requires ValidOp(sys, op)
  {
    && (op.Crash? ==> Loaded(CrashPoint(sys, op.metrics, op.env, op.n).sys))
    && Loaded(Exec(sys, op).sys)
  }

  lemma ExecThresholds(sys: System, op: Op)
    requires sys.engine.thresholds == sys.tables.thresholds && ValidOp(sys, op)
    ensures op.Crash? ==>
              var p := CrashPoint(sys, op.metrics, op.env, op.n);
              p.sys.engine.thresholds == p.sys.tables.thresholds == sys.tables.thresholds
    ensures var after := Exec(sys, op).sys;
            after.engine.thresholds == after.tables.thresholds
            <==> (op.Restart? || op.Crash? ==> op.queries.thresholds || sys.tables.thresholds == map[])
  {
    match op
    case DoEvaluate(m, env) =>
      var checks := Checks(m, sys.engine.thresholds);
      PrefixKeepsThresholds(sys, checks, |checks|, env);
    case Crash(m, env, n, _, _) =>
      PrefixKeepsThresholds(sys, Checks(m, sys.engine.thresholds), CrashLength(sys, m, n), env);
    case _ =>
  }

  /** An operation leaves a loaded system loaded exactly when it is faultless. */
  lemma ExecLoadedIff(sys: System, op: Op)
    requires Loaded(sys) && ValidOp(sys, op)
    ensures StaysLoaded(sys, op) <==> Faultless(sys, op)
  {
    ExecExactIff(sys, op);
    ExecThresholds(sys, op);
  }

  lemma CrashIsAReload(sys: System, m: Metrics, env: Env, n: nat, listing: seq<nat>, queries: Queries)
    requires Loaded(sys) && ValidOp(sys, Crash(m, env, n, listing, queries)) && Faultless(sys, Crash(m, env, n, listing, queries))
    ensures Loaded(CrashPoint(sys, m, env, n).sys)
    ensures Exec(sys, Crash(m, env, n, listing, queries)).sys == CrashPoint(sys, m, env, n).sys
  {
    PrefixLoadedIff(sys, Checks(m, sys.engine.thresholds), CrashLength(sys, m, n), env);
    RestartTransparentIff(CrashPoint(sys, m, env, n).sys, listing, queries);
  }

  /** Whatever fails, a load included, no operation makes an index entry wrong. */
  lemma ExecKeepsWeak(sys: System, op: Op)
    requires WeakIndex(sys) && ValidOp(sys, op)
    ensures WeakIndex(Exec(sys, op).sys)
  {
    match op
    case DoEvaluate(m, env) =>
      var checks := Checks(m, sys.engine.thresholds);
      EveryIterationWeak(sys, checks, |checks|, env);
    case DoUpdate(key, value, ok) =>
      UpdateKeepsIndex(sys, SetThreshold(sys.tables, key, value), sys.engine.thresholds[key := value]);
    case DoAcknowledge(id) =>
      AcknowledgeKeepsIndex(sys, id);
    case DoPurge(now, done) =>
      PurgeKeepsIndex(sys, now, done);
    case Restart(listing, queries) =>
      LoadIsWeak(sys.tables, listing, queries);
    case Crash(m, env, n, listing, queries) =>
      EveryIterationWeak(sys, Checks(m, sys.engine.thresholds), CrashLength(sys, m, n), env);
      LoadIsWeak(CrashPoint(sys, m, env, n).sys.tables, listing, queries);
  }

  lemma LoadIsWeak(t: Tables, listing: seq<nat>, queries: Queries)
    requires t.alerts.Valid() && IsActiveListing(t.alerts.rows, listing)
    ensures WeakIndex(System(t, Load(t, listing, queries)))
  {
    forall k | k in Load(t, listing, queries).active
      ensures var id := Load(t, listing, queries).active[k];
              id in t.alerts.rows && t.alerts.rows[id].kind == k && Open(t.alerts.rows[id])
    {
      ReloadEntry(t, listing, k);
    }
  }

  /** Over every run, whatever fails, loads included, and wherever it crashes. */
  lemma {:induction false} RunKeepsWeak(sys: System, ops: seq<Op>)
    requires WeakIndex(sys) && ValidRun(sys, ops)
    ensures WeakIndex(Run(sys, ops).sys)
    decreases |ops|
  {
    if ops != [] {
      ExecKeepsWeak(sys, ops[0]);
      RunKeepsWeak(Exec(sys, ops[0]).sys, ops[1..]);
    }
  }

  /** Over every faultless run, crashes included: one unresolved row per kind, and the index
      is exactly those rows. */
  lemma {:induction false} RunKeepsLoaded(sys: System, ops: seq<Op>)
    requires Loaded(sys) && ValidRun(sys, ops) && FaultlessRun(sys, ops)
    ensures var last := Run(sys, ops).sys;
            && Loaded(last)
            && OnePerKind(last.tables.alerts.rows)
            && last.engine.active.Items == OpenPairs(last.tables.alerts.rows)
    decreases |ops|
  {
    if ops == [] {
      ExactMeansIndex(sys);
    } else {
      ExecLoadedIff(sys, ops[0]);
      RunKeepsLoaded(Exec(sys, ops[0]).sys, ops[1..]);
    }
  }

  ghost predicate LoadedThroughout(sys: System, ops: seq<Op>)
    decreases |ops|
  {
    ops == [] || (ValidOp(sys, ops[0]) && StaysLoaded(sys, ops[0]) && LoadedThroughout(Exec(sys, ops[0]).sys, ops[1..]))
  }

  /** A run keeps memory and tables in agreement throughout if and only if it is faultless. */
  lemma {:induction false} LoadedThroughoutIff(sys: System, ops: seq<Op>)
    requires Loaded(sys) && ValidRun(sys, ops)
    ensures LoadedThroughout(sys, ops) <==> FaultlessRun(sys, ops)
    decreases |ops|
  {
    if ops != [] {
      ExecLoadedIff(sys, ops[0]);
      if Faultless(sys, ops[0]) {
        LoadedThroughoutIff(Exec(sys, ops[0]).sys, ops[1..]);
      }
    }
  }

  ghost predicate IndexFaultlessRun(sys: System, ops: seq<Op>)
    decreases |ops|
  {
    ops == [] || (ValidOp(sys, ops[0]) && IndexFaultless(sys, ops[0]) && IndexFaultlessRun(Exec(sys, ops[0]).sys, ops[1..]))
  }

  ghost predicate ExactThroughout(sys: System, ops: seq<Op>)
    decreases |ops|
  {
    ops == [] || (ValidOp(sys, ops[0]) && StaysExact(sys, ops[0]) && ExactThroughout(Exec(sys, ops[0]).sys, ops[1..]))
  }

  /** A run keeps one unresolved row per kind and the index exactly those rows, after every
      operation and at every crash, if and only if no attempted resolve of it fails and no
      failed alerts query has anything to lose. */
  lemma {:induction false} ExactThroughoutIff(sys: System, ops: seq<Op>)
    requires ExactIndex(sys) && ValidRun(sys, ops)
    ensures ExactThroughout(sys, ops) <==> IndexFaultlessRun(sys, ops)
    decreases |ops|
  {
    if ops != [] {
      ExecExactIff(sys, ops[0]);
      if IndexFaultless(sys, ops[0]) {
        ExactThroughoutIff(Exec(sys, ops[0]).sys, ops[1..]);
      }
    }
  }

  // ----- Restart transparency --------------------------------------------------------------

  function StripRestarts(ops: seq<Op>): seq<Op> {
    if ops == [] then []
    else (if ops[0].Restart? then [] else [ops[0]]) + StripRestarts(ops[1..])
  }

  lemma RunCons(sys: System, op: Op, rest: seq<Op>)
    requires ValidOp(sys, op) && ValidRun(Exec(sys, op).sys, rest)
    ensures ValidRun(sys, [op] + rest)
    ensures var first, tail := Exec(sys, op), Run(Exec(sys, op).sys, rest);
            Run(sys, [op] + rest) == Outcome(tail.sys, first.fired + tail.fired, first.log + tail.log)
  {
    assert ([op] + rest)[1..] == rest;
  }

  /** Restarts anywhere between calls of a faultless run change neither the alerts that fire, nor the tables, nor
      the engine, nor the history of the index. */
  lemma {:induction false} RestartsAreTransparent(sys: System, ops: seq<Op>)
    requires Loaded(sys) && ValidRun(sys, ops) && FaultlessRun(sys, ops)
    ensures ValidRun(sys, StripRestarts(ops))
    ensures Run(sys, ops) == Run(sys, StripRestarts(ops))
    decreases |ops|
  {
    if ops != [] {
      var op, rest := ops[0], ops[1..];
      ExecLoadedIff(sys, op);
      RestartsAreTransparent(Exec(sys, op).sys, rest);
      if op.Restart? {
        RestartTransparentIff(sys, op.listing, op.queries);
        assert StripRestarts(ops) == StripRestarts(rest);
        var tail := Run(sys, rest);
        assert [] + tail.fired == tail.fired && [] + tail.log == tail.log;
      } else {
        RunCons(sys, op, StripRestarts(rest));
      }
    }
  }

  /** Two runs that differ only in where they restart are indistinguishable. */
  lemma RestartsAnywhere(sys: System, ops: seq<Op>, ops': seq<Op>)
    requires Loaded(sys) && ValidRun(sys, ops) && ValidRun(sys, ops')
    requires StripRestarts(ops) == StripRestarts(ops')
    requires FaultlessRun(sys, ops) && FaultlessRun(sys, ops')
    ensures Run(sys, ops) == Run(sys, ops')
  {
    RestartsAreTransparent(sys, ops);
    RestartsAreTransparent(sys, ops');
  }

  // ----- A load that fails -----------------------------------------------------------------

  predicate OpenOfKind(rows: map<nat, Alert>, id: nat, k: string) {
    id in rows && Open(rows[id]) && rows[id].kind == k
  }

  /** No resolve fails, yet a kind gets a second unresolved row: one alert is active, a restart
      cannot read the alerts, and the reading is still above its threshold. */
  lemma FailedLoadDuplicates(row: Alert, t: Tables, env: Env)
    requires row.kind == "cpu_pct" && Open(row)
    requires t.alerts == Table(map[1 := row], 1) && t.thresholds == map["cpu_pct" := 90.0]
    requires env.insertOk(0)
    ensures var sys := System(t, EngineState(t.thresholds, map["cpu_pct" := 1]));
            var ops := [Restart([1], Queries(true, false)), DoEvaluate(Metrics(95.0, 0.0, 0.0, [], []), env)];
            && Loaded(sys) && ValidRun(sys, ops)
            && OpenOfKind(Run(sys, ops).sys.tables.alerts.rows, 1, "cpu_pct")
            && OpenOfKind(Run(sys, ops).sys.tables.alerts.rows, 2, "cpu_pct")
            && !OnePerKind(Run(sys, ops).sys.tables.alerts.rows)
  {
    var sys := System(t, EngineState(t.thresholds, map["cpu_pct" := 1]));
    var m := Metrics(95.0, 0.0, 0.0, [], []);
    var ops := [Restart([1], Queries(true, false)), DoEvaluate(m, env)];
    assert IsActiveListing(t.alerts.rows, [1]);
    assert Loaded(sys);
    var empty := Exec(sys, ops[0]).sys;
    assert empty == System(t, EngineState(t.thresholds, map[]));
    var after := Exec(empty, ops[1]).sys;
    FiresAgain(empty, m, env);
    assert ops[1..] == [ops[1]] && ops[1..][1..] == [];
    assert Run(empty, ops[1..]).sys == after;
    assert OpenOfKind(after.tables.alerts.rows, 1, "cpu_pct") && OpenOfKind(after.tables.alerts.rows, 2, "cpu_pct");
  }

  lemma FiresAgain(sys: System, m: Metrics, env: Env)
    requires m.disks == [] && m.urls == [] && m.cpu == 95.0
    requires sys.engine == EngineState(map["cpu_pct" := 90.0], map[]) && env.insertOk(0)
    ensures var fired := RowOf(ReadingCheck("cpu_pct", m.cpu, sys.engine.thresholds), env.clock(0));
            Evaluate(sys, m, env).sys.tables == InsertAlert(sys.tables, fired)
  {
    var checks := Checks(m, sys.engine.thresholds);
    assert |checks| == 3 && checks[0] == ReadingCheck("cpu_pct", m.cpu, sys.engine.thresholds);
    assert EvalPrefix(sys, checks, 1, env) == Fire(EvalPrefix(sys, checks, 0, env), checks[0], env.clock(0));
    assert EvalPrefix(sys, checks, 2, env) == EvalPrefix(sys, checks, 1, env);
    assert EvalPrefix(sys, checks, 3, env) == EvalPrefix(sys, checks, 1, env);
  }
}
