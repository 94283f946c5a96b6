/** What internal/alerts/alerts.go computes: the checks of one evaluation, the fire/resolve
    loop, and the rebuilding of the index of active alerts. */
module Alerts {
  import opened Options
  import opened Database
  import Decimal

  datatype Disk = Disk(mountpoint: string, percent: real)
  datatype URLStat = URLStat(id: int, url: string, labelText: string, up: bool)
  datatype Metrics = Metrics(cpu: real, ram: real, swap: real, disks: seq<Disk>, urls: seq<URLStat>)

  datatype Check = Check(kind: string, value: real, threshold: real, message: Message)

  /** Reading a missing key of a map of floats gives zero. */
  function Lookup(thresholds: map<string, real>, key: string): real {
    if key in thresholds then thresholds[key] else 0.0
  }

  function ReadingCheck(kind: string, value: real, thresholds: map<string, real>): Check {
    var threshold := Lookup(thresholds, kind);
    Check(kind, value, threshold, Reading(kind, value, threshold))
  }

  function DiskCheck(d: Disk, threshold: real): Check {
    Check("disk_pct:" + d.mountpoint, d.percent, threshold, DiskReading(d.mountpoint, d.percent, threshold))
  }

  function UrlKind(id: int): string {
    "url_down:" + Decimal.Signed(id)
  }

  function URLCheckOf(u: URLStat): Check {
    Check(UrlKind(u.id), if u.up then 0.0 else 1.0, 1.0, UrlDown(if u.labelText == "" then u.url else u.labelText))
  }

  function DiskChecks(disks: seq<Disk>, threshold: real): (cs: seq<Check>)
    ensures |cs| == |disks|
  {
    seq(|disks|, i requires 0 <= i < |disks| => DiskCheck(disks[i], threshold))
  }

  function URLChecks(urls: seq<URLStat>): (cs: seq<Check>)
    ensures |cs| == |urls|
  {
    seq(|urls|, i requires 0 <= i < |urls| => URLCheckOf(urls[i]))
  }

  /** The checks of one evaluation, in the order they are made. */
  function Checks(m: Metrics, thresholds: map<string, real>): seq<Check> {
    [ReadingCheck("cpu_pct", m.cpu, thresholds),
     ReadingCheck("ram_pct", m.ram, thresholds),
     ReadingCheck("swap_pct", m.swap, thresholds)]
    + DiskChecks(m.disks, Lookup(thresholds, "disk_pct"))
    + URLChecks(m.urls)
  }

  /** The engine's two maps; `active` sends a kind to the id of its unresolved alert. */
  datatype EngineState = EngineState(thresholds: map<string, real>, active: map<string, nat>)

  datatype System = System(tables: Tables, engine: EngineState)

  /** The outcomes an evaluation meets at its i-th check: whether an insertion or an update
      succeeds there, and what the clock reads. */
  datatype Env = Env(insertOk: nat -> bool, resolveOk: nat -> bool, clock: nat -> int)

  /** A fired alert as it is returned: its id and its row. */
  datatype FiredAlert = FiredAlert(id: nat, row: Alert)

  /** The history of the index: an alert entering it and leaving it. */
  datatype Entry = Fired(kind: string, id: nat) | Resolved(kind: string, id: nat)

  /** The state of the loop: `ok` is false once an insertion has failed. */
  datatype Progress = Progress(sys: System, fired: seq<FiredAlert>, log: seq<Entry>, ok: bool)

  predicate Breached(c: Check) {
    c.threshold > 0.0 && c.value >= c.threshold
  }

  predicate Cleared(c: Check) {
    c.threshold > 0.0 && c.value < c.threshold
  }

  function RowOf(c: Check, now: int): Alert {
    Alert(c.kind, c.message, c.value, c.threshold, now, None, false)
  }

  function Fire(p: Progress, c: Check, now: int): Progress {
    var tables := InsertAlert(p.sys.tables, RowOf(c, now));
    var id := tables.alerts.lastId;
    Progress(System(tables, p.sys.engine.(active := p.sys.engine.active[c.kind := id])),
             p.fired + [FiredAlert(id, RowOf(c, now))],
             p.log + [Fired(c.kind, id)],
             true)
  }

  function Resolve(p: Progress, kind: string, ok: bool, now: int): Progress
    requires kind in p.sys.engine.active
  {
    var id := p.sys.engine.active[kind];
    Progress(System(if ok then ResolveAlert(p.sys.tables, id, now) else p.sys.tables,
                    p.sys.engine.(active := p.sys.engine.active - {kind})),
             p.fired, p.log + [Resolved(kind, id)], true)
  }

  /** One iteration of the loop. */
  function EvalStep(p: Progress, c: Check, i: nat, env: Env): Progress
    requires p.ok
  {
    if Breached(c) && c.kind !in p.sys.engine.active then
      if env.insertOk(i) then Fire(p, c, env.clock(i)) else p.(ok := false)
    else if Cleared(c) && c.kind in p.sys.engine.active then
      Resolve(p, c.kind, env.resolveOk(i), env.clock(i))
    else
      p
  }

  /** The loop after its first n iterations, or where a failed insertion ended it. */
  function EvalPrefix(sys: System, checks: seq<Check>, n: nat, env: Env): Progress
    requires n <= |checks|
  {
    if n == 0 then Progress(sys, [], [], true)
    else
      var p := EvalPrefix(sys, checks, n - 1, env);
      if p.ok then EvalStep(p, checks[n - 1], n - 1, env) else p
  }

  function EvaluateAll(sys: System, checks: seq<Check>, env: Env): Progress {
    EvalPrefix(sys, checks, |checks|, env)
  }

  function Evaluate(sys: System, m: Metrics, env: Env): Progress {
    EvaluateAll(sys, Checks(m, sys.engine.thresholds), env)
  }

  /** LoadThresholds's loop over the listed rows: a later row of a kind replaces an earlier. */
  function LoadActive(base: map<string, nat>, alerts: map<nat, Alert>, ids: seq<nat>): map<string, nat>
    requires forall i :: 0 <= i < |ids| ==> ids[i] in alerts
  {
    if ids == [] then base
    else
      var k := |ids| - 1;
      LoadActive(base, alerts, ids[..k])[alerts[ids[k]].kind := ids[k]]
  }

  /** Which of LoadThresholds's two queries succeed. */
  datatype Queries = Queries(thresholds: bool, alerts: bool)

  /** A new engine after LoadThresholds, when ActiveAlerts answers `listing`. A failed query
      ends the load, the program goes on all the same, and what was not loaded is empty. */
  function Load(t: Tables, listing: seq<nat>, queries: Queries): EngineState
    requires IsActiveListing(t.alerts.rows, listing)
  {
    if !queries.thresholds then EngineState(map[], map[])
    else if !queries.alerts then EngineState(t.thresholds, map[])
    else Reload(t, listing)
  }

  /** The load whose queries both succeed. */
  function Reload(t: Tables, listing: seq<nat>): EngineState
    requires IsActiveListing(t.alerts.rows, listing)
  {
    EngineState(t.thresholds, LoadActive(map[], t.alerts.rows, listing))
  }
}
