/** The fast tick of runCollector (cmd/server/main.go) over the whole program: the checker's
    actions, the engine's evaluation one iteration at a time, and everything else that touches
    the alerts may happen between any two steps of a tick. */
module Collector {
  import opened Options
  import opened Database
  import opened Alerts
  import opened AlertIndex
  import A = AlertReadings
  import R = AlertRuns
  import L = AlertLevels
  import C = Checker
  import S = CheckerSafety

  datatype Host = Host(cpu: real, ram: real, swap: real, disks: seq<Disk>)

  /** What one tick has read: the host, and the checker's summaries as they were, in the order
      in which the map was walked. */
  datatype Tick = Tick(host: Host, snapshot: map<nat, C.Summary>, order: seq<nat>)

  ghost predicate Lists(order: seq<nat>, keys: set<nat>) {
    && (forall id :: id in order <==> id in keys)
    && (forall i, j :: 0 <= i < j < |order| ==> order[i] != order[j])
  }

  predicate Within(tick: Tick) {
    forall i :: 0 <= i < |tick.order| ==> tick.order[i] in tick.snapshot
  }

  ghost predicate TickOk(tick: Tick) {
    && Lists(tick.order, tick.snapshot.Keys) && Within(tick)
    && (forall id :: id in tick.snapshot ==> tick.snapshot[id].check.id == id)
  }

  /** The last result is there and says the check is down. */
  predicate Down(s: C.Summary) {
    s.last.Some? && !s.last.value.row.up
  }

  function StatOf(s: C.Summary): URLStat {
    URLStat(s.check.id, s.check.url, s.check.labelText, s.last.None? || s.last.value.row.up)
  }

  function MetricsOf(tick: Tick): Metrics
    requires Within(tick)
  {
    Metrics(tick.host.cpu, tick.host.ram, tick.host.swap, tick.host.disks,
            seq(|tick.order|, i requires 0 <= i < |tick.order| => StatOf(tick.snapshot[tick.order[i]])))
  }

  function TickChecks(tick: Tick, thresholds: map<string, real>): seq<Check>
    requires Within(tick)
  {
    Checks(MetricsOf(tick), thresholds)
  }

  // ----- One tick and its summaries --------------------------------------------------------

  /** It is not the kind of a mountpoint that is listed twice. Only such a kind can be checked
      twice in one tick. */
  ghost predicate SeenOnce(tick: Tick, k: string) {
    forall i, j :: 0 <= i < j < |tick.host.disks| && tick.host.disks[i].mountpoint == tick.host.disks[j].mountpoint ==>
      k != "disk_pct:" + tick.host.disks[i].mountpoint
  }

  lemma UrlSeenOnce(tick: Tick, id: int)
    ensures SeenOnce(tick, UrlKind(id))
  {
    forall i | 0 <= i < |tick.host.disks|
      ensures UrlKind(id) != "disk_pct:" + tick.host.disks[i].mountpoint
    {
      assert UrlKind(id)[0] == 'u' && ("disk_pct:" + tick.host.disks[i].mountpoint)[0] == 'd';
    }
  }

  lemma DisksApart(tick: Tick, i: nat, j: nat, threshold: real)
    requires i < j < |tick.host.disks| && SeenOnce(tick, DiskCheck(tick.host.disks[i], threshold).kind)
    ensures DiskCheck(tick.host.disks[i], threshold).kind != DiskCheck(tick.host.disks[j], threshold).kind
  {
    if DiskCheck(tick.host.disks[i], threshold).kind == DiskCheck(tick.host.disks[j], threshold).kind {
      L.DiskKindsDiffer(tick.host.disks[i], tick.host.disks[j], threshold);
    }
  }

  lemma KindsApart(tick: Tick, thresholds: map<string, real>, i: nat, j: nat)
    requires TickOk(tick) && i < j < |TickChecks(tick, thresholds)|
    requires SeenOnce(tick, TickChecks(tick, thresholds)[i].kind)
    ensures TickChecks(tick, thresholds)[i].kind != TickChecks(tick, thresholds)[j].kind
  {
    var m := MetricsOf(tick);
    if 3 <= i && j < 3 + |m.disks| {
      L.DisksAndUrls(m, thresholds, i);
      L.DisksAndUrls(m, thresholds, j);
      DisksApart(tick, i - 3, j - 3, Lookup(thresholds, "disk_pct"));
    } else if 3 + |m.disks| <= i {
      assert L.DistinctUrls(m);
      L.TwoUrls(m, thresholds, i, j);
    } else {
      L.KindInitials(m, thresholds, i);
      L.KindInitials(m, thresholds, j);
    }
  }

  lemma CheckedOnce(tick: Tick, thresholds: map<string, real>, k: string)
    requires TickOk(tick) && SeenOnce(tick, k)
    ensures L.CheckedOnce(TickChecks(tick, thresholds), k)
  {
    var checks := TickChecks(tick, thresholds);
    forall i, j | 0 <= i < j < |checks|
      ensures checks[i].kind != k || checks[j].kind != k
    {
      if checks[i].kind == k {
        KindsApart(tick, thresholds, i, j);
      }
    }
  }

  lemma ChecksLength(m: Metrics, thresholds: map<string, real>)
    ensures |Checks(m, thresholds)| == 3 + |m.disks| + |m.urls|
  {
  }

  /** The check of a summary, and where it stands. */
  lemma CheckOfSummary(tick: Tick, thresholds: map<string, real>, id: nat) returns (i: nat)
    requires TickOk(tick) && id in tick.snapshot
    ensures i < |TickChecks(tick, thresholds)|
    ensures var c := TickChecks(tick, thresholds)[i];
            && c.kind == UrlKind(id) && c.threshold == 1.0
            && c.value == if Down(tick.snapshot[id]) then 1.0 else 0.0
  {
    assert id in tick.order;
    var k :| 0 <= k < |tick.order| && tick.order[k] == id;
    i := 3 + |tick.host.disks| + k;
    var m := MetricsOf(tick);
    assert |m.urls| == |tick.order| && m.urls[k] == StatOf(tick.snapshot[id]);
    ChecksLength(m, thresholds);
    L.DisksAndUrls(m, thresholds, i);
  }

  /** Only the check of id itself has its kind. */
  lemma KindComesFromSummary(tick: Tick, thresholds: map<string, real>, i: nat, id: int)
    requires TickOk(tick) && i < |TickChecks(tick, thresholds)|
    requires TickChecks(tick, thresholds)[i].kind == UrlKind(id)
    ensures 0 <= id && id in tick.snapshot
    ensures Breached(TickChecks(tick, thresholds)[i]) ==> Down(tick.snapshot[id])
    ensures Cleared(TickChecks(tick, thresholds)[i]) ==> !Down(tick.snapshot[id])
  {
    var m := MetricsOf(tick);
    assert UrlKind(id)[0] == 'u';
    L.KindInitials(m, thresholds, i);
    L.DisksAndUrls(m, thresholds, i);
    var k := i - 3 - |m.disks|;
    L.UrlKindsDiffer(m.urls[k].id, id);
    assert tick.order[k] in tick.snapshot;
  }

  // ----- The whole program -----------------------------------------------------------------

  datatype Phase =
    | Idle
    | Snapped(tick: Tick)
    | Evaluating(tick: Tick, i: nat, fired: seq<FiredAlert>)
    | Broadcasting(tick: Tick, fired: seq<FiredAlert>, sent: nat)

  /** An evaluation that has gone through: its tick, and the thresholds it went by. */
  datatype Evaluated = Evaluated(tick: Tick, thresholds: map<string, real>)

  /** The checker holds the tables. `settled` is the latest evaluation, once it has gone through
      without a failed insertion. */
  datatype World = World(checker: C.State, engine: EngineState, phase: Phase, settled: Option<Evaluated>)

  function Sys(w: World): System {
    System(w.checker.core.tables, w.engine)
  }

  function WithSys(w: World, sys: System): World {
    w.(checker := w.checker.(core := w.checker.core.(tables := sys.tables)), engine := sys.engine)
  }

  datatype Action =
    | OfChecker(a: C.Action)
    | Snapshot(host: Host, order: seq<nat>)
    | BeginEvaluate
    | Iterate(env: Env)
    | EndEvaluate
    | BroadcastOne
    | EndTick
    | Acknowledge(id: nat)
    | PurgeAll(now: int, done: nat)
    | UpdateThreshold(key: string, value: real, ok: bool)
      // The process is started again over the same tables; either query of the load may fail.
    | Restart(listing: seq<nat>, queries: Queries)

  ghost predicate Enabled(w: World, a: Action) {
    match a
    case OfChecker(ca) => C.Enabled(w.checker, ca)
    case Snapshot(host, order) => w.phase.Idle? && Lists(order, w.checker.core.summaries.Keys)
    case BeginEvaluate => w.phase.Snapped?
    case Iterate(_) => w.phase.Evaluating? && Within(w.phase.tick) && w.phase.i < |TickChecks(w.phase.tick, w.engine.thresholds)|
    case EndEvaluate => w.phase.Evaluating? && Within(w.phase.tick) && w.phase.i >= |TickChecks(w.phase.tick, w.engine.thresholds)|
    case BroadcastOne => w.phase.Broadcasting? && w.phase.sent < |w.phase.fired|
    case EndTick => w.phase.Broadcasting? && w.phase.sent >= |w.phase.fired|
    case Acknowledge(_) => true
    case PurgeAll(_, _) => true
      // The evaluation holds the engine's lock.
    case UpdateThreshold(_, _, _) => !w.phase.Evaluating?
    case Restart(listing, _) => IsActiveListing(w.checker.core.tables.alerts.rows, listing)
  }

  /** One iteration of the evaluation of this tick, on the tables as they are now. */
  function IterateProgress(w: World, env: Env): Progress
    requires w.phase.Evaluating? && Within(w.phase.tick)
    requires w.phase.i < |TickChecks(w.phase.tick, w.engine.thresholds)|
  {
    EvalStep(Progress(Sys(w), w.phase.fired, [], true),
             TickChecks(w.phase.tick, w.engine.thresholds)[w.phase.i], w.phase.i, env)
  }

  ghost function Next(w: World, a: Action): World
    requires Enabled(w, a)
  {
    match a
    case OfChecker(ca) => w.(checker := C.Next(w.checker, ca))
    case Snapshot(host, order) => w.(phase := Snapped(Tick(host, w.checker.core.summaries, order)))
    case BeginEvaluate => w.(phase := Evaluating(w.phase.tick, 0, []), settled := None)
    case Iterate(env) =>
      var p := IterateProgress(w, env);
      WithSys(w, p.sys).(phase := if p.ok then Evaluating(w.phase.tick, w.phase.i + 1, p.fired)
                                  else Broadcasting(w.phase.tick, p.fired, 0))
    case EndEvaluate => w.(phase := Broadcasting(w.phase.tick, w.phase.fired, 0), settled := Some(Evaluated(w.phase.tick, w.engine.thresholds)))
    case BroadcastOne => w.(phase := w.phase.(sent := w.phase.sent + 1))
    case EndTick => w.(phase := Idle)
    case Acknowledge(id) => WithSys(w, R.Exec(Sys(w), R.DoAcknowledge(id)).sys)
    case PurgeAll(now, done) => WithSys(w, R.Exec(Sys(w), R.DoPurge(now, done)).sys)
    case UpdateThreshold(key, value, ok) => WithSys(w, R.Exec(Sys(w), R.DoUpdate(key, value, ok)).sys)
    case Restart(listing, queries) => Boot(w.checker.core.tables, listing, queries)
  }

  function Boot(t: Tables, listing: seq<nat>, queries: Queries): World
    requires IsActiveListing(t.alerts.rows, listing)
  {
    World(C.Initial(t), Load(t, listing, queries), Idle, None)
  }

  ghost predicate ValidRun(w: World, actions: seq<Action>)
    decreases |actions|
  {
    actions == [] || (Enabled(w, actions[0]) && ValidRun(Next(w, actions[0]), actions[1..]))
  }

  ghost function Run(w: World, actions: seq<Action>): World
    requires ValidRun(w, actions)
    decreases |actions|
  {
    if actions == [] then w else Run(Next(w, actions[0]), actions[1..])
  }

  // ----- What every interleaving keeps -----------------------------------------------------

  /** The alert is an unresolved row with its id, as it was inserted up to acknowledgement, and
      it is the active alert of its kind. */
  ghost predicate Persisted(sys: System, f: FiredAlert) {
    && f.id in sys.tables.alerts.rows && Open(sys.tables.alerts.rows[f.id])
    && sys.tables.alerts.rows[f.id].(acknowledged := false) == f.row
    && f.row.kind in sys.engine.active && sys.engine.active[f.row.kind] == f.id
  }

  /** An alert about a check is about a check that this tick found down. */
  ghost predicate Justified(tick: Tick, row: Alert) {
    forall id :: row.kind == UrlKind(id) ==> 0 <= id && id in tick.snapshot && Down(tick.snapshot[id])
  }

  /** The alert is about something this tick has read, and holds what it read. */
  ghost predicate FromTick(tick: Tick, row: Alert) {
    || HostAlert(row, "cpu_pct", tick.host.cpu) || HostAlert(row, "ram_pct", tick.host.ram) || HostAlert(row, "swap_pct", tick.host.swap)
    || (exists k :: 0 <= k < |tick.host.disks| && DiskAlert(row, tick.host.disks[k]))
    || (exists id :: id in tick.snapshot && UrlAlert(row, tick.snapshot[id]))
  }

  predicate HostAlert(row: Alert, key: string, value: real) {
    value >= row.threshold > 0.0
    && row == Alert(key, Reading(key, value, row.threshold), value, row.threshold, row.firedAt, None, false)
  }

  predicate DiskAlert(row: Alert, d: Disk) {
    d.percent >= row.threshold > 0.0
    && row == Alert("disk_pct:" + d.mountpoint, DiskReading(d.mountpoint, d.percent, row.threshold),
                    d.percent, row.threshold, row.firedAt, None, false)
  }

  /** It names the check as the summary does. */
  predicate UrlAlert(row: Alert, s: C.Summary) {
    s.last.Some? && !s.last.value.row.up
    && row == Alert("url_down:" + Decimal.Signed(s.check.id),
                    UrlDown(if s.check.labelText == "" then s.check.url else s.check.labelText),
                    1.0, 1.0, row.firedAt, None, false)
  }

  ghost predicate FiredOne(sys: System, tick: Tick, f: FiredAlert) {
    && (SeenOnce(tick, f.row.kind) ==> Persisted(sys, f)) && Justified(tick, f.row) && FromTick(tick, f.row)
  }

  ghost predicate FiredOk(sys: System, tick: Tick, fired: seq<FiredAlert>) {
    forall j :: 0 <= j < |fired| ==> FiredOne(sys, tick, fired[j])
  }

  /** The first i checks have had their say, and what fired came from them. */
  ghost predicate Decided(sys: System, tick: Tick, i: nat, fired: seq<FiredAlert>)
    requires Within(tick)
  {
    var checks := TickChecks(tick, sys.engine.thresholds);
    && i <= |checks|
    && (forall k :: 0 <= k < i && checks[k].threshold > 0.0 && SeenOnce(tick, checks[k].kind) ==>
          (checks[k].kind in sys.engine.active <==> checks[k].value >= checks[k].threshold))
    && (forall j, k :: 0 <= j < |fired| && i <= k < |checks| && SeenOnce(tick, fired[j].row.kind) ==>
          fired[j].row.kind != checks[k].kind)
  }

  /** With a positive threshold configured, the kind is active exactly when the value has
      reached it. */
  ghost predicate Matches(active: map<string, nat>, kind: string, key: string, value: real, thresholds: map<string, real>) {
    key in thresholds && thresholds[key] > 0.0 ==> (kind in active <==> value >= thresholds[key])
  }

  /** What is active is what the tick has read: of the host, of each disk whose mountpoint is
      listed once, and of each check that has a summary. */
  ghost predicate ActiveMatches(active: map<string, nat>, tick: Tick, thresholds: map<string, real>) {
    && Matches(active, "cpu_pct", "cpu_pct", tick.host.cpu, thresholds)
    && Matches(active, "ram_pct", "ram_pct", tick.host.ram, thresholds)
    && Matches(active, "swap_pct", "swap_pct", tick.host.swap, thresholds)
    && (forall k :: 0 <= k < |tick.host.disks| && ListedOnce(tick.host, k) ==>
          Matches(active, "disk_pct:" + tick.host.disks[k].mountpoint, "disk_pct", tick.host.disks[k].percent, thresholds))
    && (forall id :: id in tick.snapshot ==> UrlMatches(active, id, tick.snapshot[id]))
  }

  ghost predicate ListedOnce(host: Host, k: nat)
    requires k < |host.disks|
  {
    forall l :: 0 <= l < |host.disks| && l != k ==> host.disks[l].mountpoint != host.disks[k].mountpoint
  }

  predicate UrlMatches(active: map<string, nat>, id: nat, s: C.Summary) {
    "url_down:" + Decimal.Signed(id) in active <==> s.last.Some? && !s.last.value.row.up
  }

  ghost predicate SettledOk(w: World) {
    w.settled.Some? ==> ActiveMatches(w.engine.active, w.settled.value.tick, w.settled.value.thresholds)
  }

  ghost predicate PhaseOk(w: World) {
    match w.phase
    case Idle => true
    case Snapped(tick) => TickOk(tick)
    case Evaluating(tick, i, fired) =>
      && TickOk(tick) && w.settled.None? && FiredOk(Sys(w), tick, fired)
      && Decided(Sys(w), tick, i, fired)
    case Broadcasting(tick, fired, _) => TickOk(tick) && FiredOk(Sys(w), tick, fired)
  }

  ghost predicate Inv(w: World) {
    S.SummariesOk(w.checker.core) && WeakIndex(Sys(w)) && SettledOk(w) && PhaseOk(w)
  }

  /** The checker never touches what the alerts are made of. */
  lemma CheckerKeepsAlerts(s: C.State, a: C.Action)
    requires C.Enabled(s, a)
    ensures C.Next(s, a).core.tables.alerts == s.core.tables.alerts
    ensures C.Next(s, a).core.tables.thresholds == s.core.tables.thresholds
  {
    if C.OfRoutine(a) {
      RoutinesKeepAlerts(s.core, a);
    } else {
      CallsKeepAlerts(s, a);
    }
  }

  lemma RoutinesKeepAlerts(c: C.Core, a: C.Action)
    requires C.RoutineEnabled(c, a)
    ensures C.RoutineNext(c, a).tables.alerts == c.tables.alerts
    ensures C.RoutineNext(c, a).tables.thresholds == c.tables.thresholds
  {
  }

  lemma CallsKeepAlerts(s: C.State, a: C.Action)
    requires C.Enabled(s, a) && !C.OfRoutine(a)
    ensures C.Next(s, a).core.tables.alerts == s.core.tables.alerts
    ensures C.Next(s, a).core.tables.thresholds == s.core.tables.thresholds
  {
  }

  /** A step that leaves the index alone, and unresolved rows up to acknowledgement. */
  ghost predicate Gentle(sys: System, sys': System) {
    && sys'.engine.active == sys.engine.active
    && forall id :: id in sys.tables.alerts.rows && Open(sys.tables.alerts.rows[id]) ==>
         && id in sys'.tables.alerts.rows && Open(sys'.tables.alerts.rows[id])
         && sys'.tables.alerts.rows[id].(acknowledged := false) == sys.tables.alerts.rows[id].(acknowledged := false)
  }

  lemma GentleKeepsPhase(w: World, w': World)
    requires PhaseOk(w) && SettledOk(w) && Gentle(Sys(w), Sys(w'))
    requires w'.phase == w.phase && w'.settled == w.settled
    requires w.phase.Evaluating? ==> w'.engine.thresholds == w.engine.thresholds
    ensures PhaseOk(w') && SettledOk(w')
  {
    if w.phase.Evaluating? || w.phase.Broadcasting? {
      forall j | 0 <= j < |w.phase.fired|
        ensures FiredOne(Sys(w'), w.phase.tick, w.phase.fired[j])
      {
        assert FiredOne(Sys(w), w.phase.tick, w.phase.fired[j]);
      }
    }
  }

  lemma OldFiredStays(p: Progress, c: Check, i: nat, env: Env, tick: Tick, f: FiredAlert)
    requires p.ok && WeakIndex(p.sys) && FiredOne(p.sys, tick, f)
    requires SeenOnce(tick, f.row.kind) ==> f.row.kind != c.kind
    ensures FiredOne(EvalStep(p, c, i, env).sys, tick, f)
  {
  }

  lemma NewFired(p: Progress, i: nat, env: Env, tick: Tick)
    requires p.ok && TickOk(tick) && i < |TickChecks(tick, p.sys.engine.thresholds)|
    requires var q := EvalStep(p, TickChecks(tick, p.sys.engine.thresholds)[i], i, env); |q.fired| > |p.fired|
    ensures var q := EvalStep(p, TickChecks(tick, p.sys.engine.thresholds)[i], i, env);
            FiredOne(q.sys, tick, q.fired[|p.fired|])
  {
    var c := TickChecks(tick, p.sys.engine.thresholds)[i];
    assert Breached(c);
    forall id | c.kind == UrlKind(id)
      ensures 0 <= id && id in tick.snapshot && Down(tick.snapshot[id])
    {
      KindComesFromSummary(tick, p.sys.engine.thresholds, i, id);
    }
    RowFromTick(tick, p.sys.engine.thresholds, i, RowOf(c, env.clock(i)), env);
  }

  /** The row of a check that has reached its threshold. */
  lemma RowFromTick(tick: Tick, thresholds: map<string, real>, i: nat, row: Alert, env: Env)
    requires TickOk(tick) && i < |TickChecks(tick, thresholds)|
    requires A.RowFrom(row, TickChecks(tick, thresholds)[i], env.clock(i))
    ensures FromTick(tick, row)
  {
    var m := MetricsOf(tick);
    A.RowFromMetrics(row, m, thresholds, i, env);
    if k :| 0 <= k < |m.disks| && A.DiskRow(row, m.disks[k], thresholds, env.clock(3 + k)) {
      assert DiskAlert(row, tick.host.disks[k]);
    } else if k :| 0 <= k < |m.urls| && A.UrlRow(row, m.urls[k], env.clock(3 + |m.disks| + k)) {
      assert UrlAlert(row, tick.snapshot[tick.order[k]]);
    }
  }

  /** One iteration adds at most one alert, and spoils none of those that fired before. */
  lemma StepKeepsFired(p: Progress, i: nat, env: Env, tick: Tick)
    requires p.ok && WeakIndex(p.sys) && TickOk(tick) && i < |TickChecks(tick, p.sys.engine.thresholds)|
    requires FiredOk(p.sys, tick, p.fired) && Decided(p.sys, tick, i, p.fired)
    ensures var q := EvalStep(p, TickChecks(tick, p.sys.engine.thresholds)[i], i, env);
            FiredOk(q.sys, tick, q.fired)
  {
    var c := TickChecks(tick, p.sys.engine.thresholds)[i];
    var q := EvalStep(p, c, i, env);
    forall j | 0 <= j < |q.fired|
      ensures FiredOne(q.sys, tick, q.fired[j])
    {
      if j < |p.fired| {
        assert q.fired[j] == p.fired[j];
        OldFiredStays(p, c, i, env, tick, p.fired[j]);
      } else {
        NewFired(p, i, env, tick);
      }
    }
  }

  /** One iteration decides its check and leaves the earlier ones decided. */
  lemma StepKeepsDecided(p: Progress, i: nat, env: Env, tick: Tick)
    requires p.ok && TickOk(tick) && i < |TickChecks(tick, p.sys.engine.thresholds)|
    requires Decided(p.sys, tick, i, p.fired)
    ensures var q := EvalStep(p, TickChecks(tick, p.sys.engine.thresholds)[i], i, env);
            q.ok ==> Decided(q.sys, tick, i + 1, q.fired)
  {
    var checks := TickChecks(tick, p.sys.engine.thresholds);
    var q := EvalStep(p, checks[i], i, env);
    if q.ok {
      forall k | 0 <= k <= i && checks[k].threshold > 0.0 && SeenOnce(tick, checks[k].kind)
        ensures checks[k].kind in q.sys.engine.active <==> checks[k].value >= checks[k].threshold
      {
        if k < i {
          KindsApart(tick, p.sys.engine.thresholds, k, i);
        }
      }
      forall j, k | 0 <= j < |q.fired| && i < k < |checks| && SeenOnce(tick, q.fired[j].row.kind)
        ensures q.fired[j].row.kind != checks[k].kind
      {
        if j >= |p.fired| {
          KindsApart(tick, p.sys.engine.thresholds, i, k);
        }
      }
    }
  }

  /** When all checks have had their say, what is active is what the tick has read. */
  lemma DecidedSettles(sys: System, tick: Tick, fired: seq<FiredAlert>)
    requires TickOk(tick) && Decided(sys, tick, |TickChecks(tick, sys.engine.thresholds)|, fired)
    ensures ActiveMatches(sys.engine.active, tick, sys.engine.thresholds)
  {
    HostSettles(sys, tick, fired);
    forall k | 0 <= k < |tick.host.disks| && ListedOnce(tick.host, k)
      ensures Matches(sys.engine.active, "disk_pct:" + tick.host.disks[k].mountpoint, "disk_pct",
                      tick.host.disks[k].percent, sys.engine.thresholds)
    {
      DiskSettles(sys, tick, fired, k);
    }
    forall id | id in tick.snapshot
      ensures UrlMatches(sys.engine.active, id, tick.snapshot[id])
    {
      UrlSettles(sys, tick, fired, id);
    }
  }

  lemma HostSeenOnce(tick: Tick, k: string)
    requires k != "" && k[0] != 'd'
    ensures SeenOnce(tick, k)
  {
    forall i | 0 <= i < |tick.host.disks|
      ensures k != "disk_pct:" + tick.host.disks[i].mountpoint
    {
      assert ("disk_pct:" + tick.host.disks[i].mountpoint)[0] == 'd';
    }
  }

  lemma HostSettles(sys: System, tick: Tick, fired: seq<FiredAlert>)
    requires TickOk(tick) && Decided(sys, tick, |TickChecks(tick, sys.engine.thresholds)|, fired)
    ensures Matches(sys.engine.active, "cpu_pct", "cpu_pct", tick.host.cpu, sys.engine.thresholds)
    ensures Matches(sys.engine.active, "ram_pct", "ram_pct", tick.host.ram, sys.engine.thresholds)
    ensures Matches(sys.engine.active, "swap_pct", "swap_pct", tick.host.swap, sys.engine.thresholds)
  {
    A.TheHostChecks(MetricsOf(tick), sys.engine.thresholds);
    HostSeenOnce(tick, "cpu_pct");
    HostSeenOnce(tick, "ram_pct");
    HostSeenOnce(tick, "swap_pct");
  }

  lemma DiskSettles(sys: System, tick: Tick, fired: seq<FiredAlert>, k: nat)
    requires TickOk(tick) && Decided(sys, tick, |TickChecks(tick, sys.engine.thresholds)|, fired)
    requires k < |tick.host.disks| && ListedOnce(tick.host, k)
    ensures Matches(sys.engine.active, "disk_pct:" + tick.host.disks[k].mountpoint, "disk_pct",
                    tick.host.disks[k].percent, sys.engine.thresholds)
  {
    A.TheDiskCheck(MetricsOf(tick), sys.engine.thresholds, k);
    DiskSeenOnce(tick, k);
  }

  lemma DiskSeenOnce(tick: Tick, k: nat)
    requires k < |tick.host.disks| && ListedOnce(tick.host, k)
    ensures SeenOnce(tick, "disk_pct:" + tick.host.disks[k].mountpoint)
  {
    forall i, j | 0 <= i < j < |tick.host.disks| && tick.host.disks[i].mountpoint == tick.host.disks[j].mountpoint
      ensures "disk_pct:" + tick.host.disks[k].mountpoint != "disk_pct:" + tick.host.disks[i].mountpoint
    {
      if "disk_pct:" + tick.host.disks[k].mountpoint == "disk_pct:" + tick.host.disks[i].mountpoint {
        L.PrefixInjective("disk_pct:", tick.host.disks[k].mountpoint, tick.host.disks[i].mountpoint);
      }
    }
  }

  lemma UrlSettles(sys: System, tick: Tick, fired: seq<FiredAlert>, id: nat)
    requires TickOk(tick) && id in tick.snapshot
    requires Decided(sys, tick, |TickChecks(tick, sys.engine.thresholds)|, fired)
    ensures UrlMatches(sys.engine.active, id, tick.snapshot[id])
  {
    var i := CheckOfSummary(tick, sys.engine.thresholds, id);
    UrlSeenOnce(tick, id);
  }

  lemma InvIterate(w: World, env: Env)
    requires Inv(w) && Enabled(w, Iterate(env))
    ensures Inv(Next(w, Iterate(env)))
  {
    var p, i, tick := Progress(Sys(w), w.phase.fired, [], true), w.phase.i, w.phase.tick;
    StepKeepsWeak(p, TickChecks(tick, w.engine.thresholds)[i], i, env);
    StepKeepsFired(p, i, env, tick);
    StepKeepsDecided(p, i, env, tick);
  }

  lemma InvTick(w: World, a: Action)
    requires Inv(w) && Enabled(w, a)
    requires a.Snapshot? || a.BeginEvaluate? || a.Iterate? || a.EndEvaluate? || a.BroadcastOne? || a.EndTick?
    ensures Inv(Next(w, a))
  {
    match a
    case Snapshot(host, order) =>
      assert forall id :: id in w.checker.core.summaries ==> S.SummaryOk(id, w.checker.core.summaries[id]);
    case Iterate(env) => InvIterate(w, env);
    case EndEvaluate =>
      DecidedSettles(Sys(w), w.phase.tick, w.phase.fired);
    case _ =>
  }

  lemma InvOthers(w: World, a: Action)
    requires Inv(w) && Enabled(w, a)
    requires a.Acknowledge? || a.PurgeAll? || a.UpdateThreshold?
    ensures Inv(Next(w, a))
  {
    var op :=
      if a.Acknowledge? then R.DoAcknowledge(a.id)
      else if a.PurgeAll? then R.DoPurge(a.now, a.done)
      else R.DoUpdate(a.key, a.value, a.ok);
    R.ExecKeepsWeak(Sys(w), op);
    GentleKeepsPhase(w, Next(w, a));
  }

  lemma InvNext(w: World, a: Action)
    requires Inv(w) && Enabled(w, a)
    ensures Inv(Next(w, a))
  {
    match a
    case OfChecker(ca) =>
      S.SummariesNext(w.checker, ca);
      CheckerKeepsAlerts(w.checker, ca);
      GentleKeepsPhase(w, Next(w, a));
    case Acknowledge(_) => InvOthers(w, a);
    case PurgeAll(_, _) => InvOthers(w, a);
    case UpdateThreshold(_, _, _) => InvOthers(w, a);
    case Restart(listing, queries) => R.LoadIsWeak(w.checker.core.tables, listing, queries);
    case _ => InvTick(w, a);
  }

  lemma {:induction false} InvRun(w: World, actions: seq<Action>)
    requires Inv(w) && ValidRun(w, actions)
    ensures Inv(Run(w, actions))
    decreases |actions|
  {
    if actions != [] {
      InvNext(w, actions[0]);
      InvRun(Next(w, actions[0]), actions[1..]);
    }
  }

  // ----- End to end ------------------------------------------------------------------------

  lemma InvBoot(t: Tables, listing: seq<nat>, queries: Queries)
    requires t.alerts.Valid() && IsActiveListing(t.alerts.rows, listing)
    ensures Inv(Boot(t, listing, queries))
  {
    R.LoadIsWeak(t, listing, queries);
  }

  /** In every interleaving, restarts and failed loads included: once a tick's evaluation has
      gone through, what is active is what the tick has read, and this stays so until the next
      evaluation. A reading of the host or of a disk listed once is alerted exactly when it has
      reached the threshold the evaluation went by, and a check exactly when its last result
      was there and down. */
  lemma ActiveIffRead(t: Tables, listing: seq<nat>, queries: Queries, actions: seq<Action>)
    requires t.alerts.Valid() && IsActiveListing(t.alerts.rows, listing)
    requires ValidRun(Boot(t, listing, queries), actions)
    requires Run(Boot(t, listing, queries), actions).settled.Some?
    ensures var w := Run(Boot(t, listing, queries), actions);
            ActiveMatches(w.engine.active, w.settled.value.tick, w.settled.value.thresholds)
  {
    InvBoot(t, listing, queries);
    InvRun(Boot(t, listing, queries), actions);
  }

  /** In every interleaving, and even when the evaluation ended early: an alert about to be
      broadcast is at that moment an unresolved row with the broadcast id, unless it is about a
      mountpoint the host listed twice; it is about something this tick has read and holds what
      it read; and if it is about a check, this tick's snapshot has that check down. */
  lemma BroadcastsArePersisted(t: Tables, listing: seq<nat>, queries: Queries, actions: seq<Action>)
    requires t.alerts.Valid() && IsActiveListing(t.alerts.rows, listing)
    requires ValidRun(Boot(t, listing, queries), actions)
    requires Enabled(Run(Boot(t, listing, queries), actions), BroadcastOne)
    ensures var w := Run(Boot(t, listing, queries), actions);
            var f := w.phase.fired[w.phase.sent];
            && (SeenOnce(w.phase.tick, f.row.kind) ==> Persisted(Sys(w), f))
            && FromTick(w.phase.tick, f.row) && Justified(w.phase.tick, f.row)
  {
    InvBoot(t, listing, queries);
    InvRun(Boot(t, listing, queries), actions);
    var w := Run(Boot(t, listing, queries), actions);
    assert FiredOne(Sys(w), w.phase.tick, w.phase.fired[w.phase.sent]);
  }

  /** The order in which the map of summaries is walked does not matter to what is active. */
  lemma MapOrderIsIrrelevant(sys: System, tick: Tick, order: seq<nat>, env: Env, env': Env)
    requires TickOk(tick) && TickOk(tick.(order := order))
    requires Evaluate(sys, MetricsOf(tick), env).ok && Evaluate(sys, MetricsOf(tick.(order := order)), env').ok
    ensures Evaluate(sys, MetricsOf(tick), env).sys.engine.active.Keys
         == Evaluate(sys, MetricsOf(tick.(order := order)), env').sys.engine.active.Keys
  {
    var tick' := tick.(order := order);
    var thresholds := sys.engine.thresholds;
    var checks, checks' := TickChecks(tick, thresholds), TickChecks(tick', thresholds);
    var after, after' := Evaluate(sys, MetricsOf(tick), env).sys, Evaluate(sys, MetricsOf(tick'), env').sys;
    forall k
      ensures k in after.engine.active <==> k in after'.engine.active
    {
      L.LevelTriggered(sys, checks, |checks|, env, k);
      L.LevelTriggered(sys, checks', |checks'|, env', k);
      SameDecision(tick, tick', thresholds, k);
    }
  }

  predicate HasUrlOf(m: Metrics, k: string) {
    exists i :: 0 <= i < |m.urls| && URLCheckOf(m.urls[i]).kind == k
  }

  lemma SameDecision(tick: Tick, tick': Tick, thresholds: map<string, real>, k: string)
    requires TickOk(tick) && TickOk(tick') && tick' == tick.(order := tick'.order)
    ensures L.Decision(TickChecks(tick, thresholds), |TickChecks(tick, thresholds)|, k)
         == L.Decision(TickChecks(tick', thresholds), |TickChecks(tick', thresholds)|, k)
  {
    var m, m' := MetricsOf(tick), MetricsOf(tick');
    if HasUrlOf(m, k) {
      var i :| 0 <= i < |m.urls| && URLCheckOf(m.urls[i]).kind == k;
      var j := SamePlace(tick, tick', i);
      UrlDecision(tick, thresholds, i);
      UrlDecision(tick', thresholds, j);
    } else {
      if HasUrlOf(m', k) {
        var j :| 0 <= j < |m'.urls| && URLCheckOf(m'.urls[j]).kind == k;
        var i := SamePlace(tick', tick, j);
      }
      OtherDecision(m, thresholds, k);
      OtherDecision(m', thresholds, k);
    }
  }

  /** A kind that is no url's is decided before the urls. */
  lemma OtherDecision(m: Metrics, thresholds: map<string, real>, k: string)
    requires !HasUrlOf(m, k)
    ensures L.Decision(Checks(m, thresholds), |Checks(m, thresholds)|, k)
         == L.Decision(Checks(m.(urls := []), thresholds), |Checks(m.(urls := []), thresholds)|, k)
  {
    UrlsLast(m, thresholds);
    DecisionOfParts(Checks(m, thresholds), Checks(m.(urls := []), thresholds), URLChecks(m.urls), k);
  }

  lemma DecisionOfParts(all: seq<Check>, before: seq<Check>, rest: seq<Check>, k: string)
    requires all == before + rest && forall i :: 0 <= i < |rest| ==> rest[i].kind != k
    ensures L.Decision(all, |all|, k) == L.Decision(before, |before|, k)
  {
    DecisionBefore(before, rest, |rest|, k);
  }

  /** A url is decided by its own check alone. */
  lemma UrlDecision(tick: Tick, thresholds: map<string, real>, i: nat)
    requires TickOk(tick) && i < |MetricsOf(tick).urls|
    ensures var checks, c := TickChecks(tick, thresholds), URLCheckOf(MetricsOf(tick).urls[i]);
            L.Decision(checks, |checks|, c.kind) == Some(c.value >= c.threshold)
  {
    var m := MetricsOf(tick);
    var checks := TickChecks(tick, thresholds);
    var n := 3 + |m.disks| + i;
    ChecksLength(m, thresholds);
    L.DisksAndUrls(m, thresholds, n);
    UrlSeenOnce(tick, m.urls[i].id);
    CheckedOnce(tick, thresholds, checks[n].kind);
    L.DecisionOfLast(checks, |checks|, n);
  }

  /** Checks of other kinds decide nothing. */
  lemma {:induction false} DecisionBefore(before: seq<Check>, rest: seq<Check>, n: nat, k: string)
    requires n <= |rest| && forall i :: 0 <= i < |rest| ==> rest[i].kind != k
    ensures L.Decision(before + rest, |before| + n, k) == L.Decision(before, |before|, k)
  {
    if n > 0 {
      DecisionBefore(before, rest, n - 1, k);
    } else {
      DecisionPrefix(before, rest, |before|, k);
    }
  }

  lemma {:induction false} DecisionPrefix(before: seq<Check>, rest: seq<Check>, n: nat, k: string)
    requires n <= |before|
    ensures L.Decision(before + rest, n, k) == L.Decision(before, n, k)
  {
    if n > 0 {
      DecisionPrefix(before, rest, n - 1, k);
    }
  }

  lemma UrlsLast(m: Metrics, thresholds: map<string, real>)
    ensures Checks(m, thresholds) == Checks(m.(urls := []), thresholds) + URLChecks(m.urls)
  {
  }

  /** Where the i-th summary of one order stands in the other. */
  lemma SamePlace(tick: Tick, tick': Tick, i: nat) returns (k: nat)
    requires TickOk(tick) && TickOk(tick') && tick' == tick.(order := tick'.order) && i < |tick.order|
    ensures k < |tick'.order| && MetricsOf(tick').urls[k] == MetricsOf(tick).urls[i]
  {
    var id := tick.order[i];
    assert id in tick.order;
    assert id in tick'.order;
    k :| 0 <= k < |tick'.order| && tick'.order[k] == id;
  }
}
