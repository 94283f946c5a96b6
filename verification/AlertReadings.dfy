/** What an evaluation means for the readings it is given: which alerts are active afterwards,
    what the rows that fire hold, and what becomes of the rows that were there. */
module AlertReadings {
  import opened Options
  import opened Database
  import opened Alerts
  import opened AlertIndex
  import opened AlertLevels

  // ----- The checks, written out -----------------------------------------------------------

  /** One check per reading of the host, then one per disk, then one per url. */
  ghost predicate ChecksAre(checks: seq<Check>, m: Metrics, thresholds: map<string, real>) {
    && |checks| == 3 + |m.disks| + |m.urls|
    && IsHostCheck(checks[0], "cpu_pct", m.cpu, thresholds)
    && IsHostCheck(checks[1], "ram_pct", m.ram, thresholds)
    && IsHostCheck(checks[2], "swap_pct", m.swap, thresholds)
    && (forall k :: 0 <= k < |m.disks| ==> IsDiskCheck(checks[3 + k], m.disks[k], thresholds))
    && (forall k :: 0 <= k < |m.urls| ==> IsUrlCheck(checks[3 + |m.disks| + k], m.urls[k]))
  }

  /** A threshold that is not configured counts as zero. */
  ghost predicate IsHostCheck(c: Check, key: string, value: real, thresholds: map<string, real>) {
    && c.kind == key && c.value == value
    && c.threshold == (if key in thresholds then thresholds[key] else 0.0)
    && c.message == Reading(key, value, c.threshold)
  }

  ghost predicate IsDiskCheck(c: Check, d: Disk, thresholds: map<string, real>) {
    && c.kind == "disk_pct:" + d.mountpoint && c.value == d.percent
    && c.threshold == (if "disk_pct" in thresholds then thresholds["disk_pct"] else 0.0)
    && c.message == DiskReading(d.mountpoint, d.percent, c.threshold)
  }

  ghost predicate IsUrlCheck(c: Check, u: URLStat) {
    && c.kind == "url_down:" + Decimal.Signed(u.id) && c.value == (if u.up then 0.0 else 1.0) && c.threshold == 1.0
    && c.message == UrlDown(if u.labelText != "" then u.labelText else u.url)
  }

  lemma TheHostChecks(m: Metrics, thresholds: map<string, real>)
    ensures var checks := Checks(m, thresholds);
            && |checks| == 3 + |m.disks| + |m.urls|
            && IsHostCheck(checks[0], "cpu_pct", m.cpu, thresholds)
            && IsHostCheck(checks[1], "ram_pct", m.ram, thresholds)
            && IsHostCheck(checks[2], "swap_pct", m.swap, thresholds)
  {
  }

  lemma TheDiskCheck(m: Metrics, thresholds: map<string, real>, k: nat)
    requires k < |m.disks|
    ensures |Checks(m, thresholds)| == 3 + |m.disks| + |m.urls| && IsDiskCheck(Checks(m, thresholds)[3 + k], m.disks[k], thresholds)
  {
    Count(m, thresholds);
    DisksAndUrls(m, thresholds, 3 + k);
  }

  lemma TheUrlCheck(m: Metrics, thresholds: map<string, real>, k: nat)
    requires k < |m.urls|
    ensures |Checks(m, thresholds)| == 3 + |m.disks| + |m.urls|
    ensures IsUrlCheck(Checks(m, thresholds)[3 + |m.disks| + k], m.urls[k])
  {
    UrlCheckAt(m, thresholds, k);
    WrittenOut(m.urls[k]);
  }

  lemma UrlCheckAt(m: Metrics, thresholds: map<string, real>, k: nat)
    requires k < |m.urls|
    ensures |Checks(m, thresholds)| == 3 + |m.disks| + |m.urls|
    ensures Checks(m, thresholds)[3 + |m.disks| + k] == URLCheckOf(m.urls[k])
  {
    var disks, urls := DiskChecks(m.disks, Lookup(thresholds, "disk_pct")), URLChecks(m.urls);
    var host := Checks(m, thresholds)[..3];
    assert Checks(m, thresholds) == host + disks + urls;
    ThirdPart(host, disks, urls, k);
  }

  lemma ThirdPart(a: seq<Check>, b: seq<Check>, c: seq<Check>, k: nat)
    requires k < |c|
    ensures |a + b + c| == |a| + |b| + |c| && (a + b + c)[|a| + |b| + k] == c[k]
  {
  }

  lemma WrittenOut(u: URLStat)
    ensures IsUrlCheck(URLCheckOf(u), u)
  {
  }

  lemma Count(m: Metrics, thresholds: map<string, real>)
    ensures |Checks(m, thresholds)| == 3 + |m.disks| + |m.urls|
  {
  }

  lemma TheChecks(m: Metrics, thresholds: map<string, real>)
    ensures ChecksAre(Checks(m, thresholds), m, thresholds)
  {
    TheHostChecks(m, thresholds);
    forall k | 0 <= k < |m.disks|
      ensures IsDiskCheck(Checks(m, thresholds)[3 + k], m.disks[k], thresholds)
    {
      TheDiskCheck(m, thresholds, k);
    }
    forall k | 0 <= k < |m.urls|
      ensures IsUrlCheck(Checks(m, thresholds)[3 + |m.disks| + k], m.urls[k])
    {
      TheUrlCheck(m, thresholds, k);
    }
  }

  // ----- What is active afterwards ---------------------------------------------------------

  /** The kind is active exactly when the value has reached the configured threshold; without a
      positive one it keeps the alert it had. */
  ghost predicate FollowsReading(before: EngineState, after: EngineState, kind: string, key: string, value: real) {
    if key in before.thresholds && before.thresholds[key] > 0.0 then
      kind in after.active <==> value >= before.thresholds[key]
    else
      KeepsEntry(before, after, kind)
  }

  ghost predicate KeepsEntry(before: EngineState, after: EngineState, kind: string) {
    && (kind in after.active <==> kind in before.active)
    && (kind in after.active ==> after.active[kind] == before.active[kind])
  }

  lemma OnlyCheck(sys: System, checks: seq<Check>, env: Env, i: nat)
    requires EvaluateAll(sys, checks, env).ok && i < |checks|
    requires forall j :: 0 <= j < |checks| && j != i ==> checks[j].kind != checks[i].kind
    ensures var after := EvaluateAll(sys, checks, env).sys.engine;
            if checks[i].threshold > 0.0 then checks[i].kind in after.active <==> checks[i].value >= checks[i].threshold
            else KeepsEntry(sys.engine, after, checks[i].kind)
  {
    DecisionOfLast(checks, |checks|, i);
    LevelTriggered(sys, checks, |checks|, env, checks[i].kind);
  }

  lemma HostKindsDiffer(m: Metrics, thresholds: map<string, real>, i: nat)
    requires i < 3
    ensures var checks := Checks(m, thresholds);
            i < |checks| && forall j :: 0 <= j < |checks| && j != i ==> checks[j].kind != checks[i].kind
  {
    var checks := Checks(m, thresholds);
    assert |checks| >= 3;
    forall j | 0 <= j < |checks| && j != i
      ensures checks[j].kind != checks[i].kind
    {
      KindInitials(m, thresholds, i);
      KindInitials(m, thresholds, j);
    }
  }

  /** Whatever else the metrics hold, the three readings of the host. */
  lemma HostFollows(sys: System, m: Metrics, env: Env)
    requires Evaluate(sys, m, env).ok
    ensures var after := Evaluate(sys, m, env).sys.engine;
            && FollowsReading(sys.engine, after, "cpu_pct", "cpu_pct", m.cpu)
            && FollowsReading(sys.engine, after, "ram_pct", "ram_pct", m.ram)
            && FollowsReading(sys.engine, after, "swap_pct", "swap_pct", m.swap)
  {
    var checks := Checks(m, sys.engine.thresholds);
    TheHostChecks(m, sys.engine.thresholds);
    for i := 0 to 3
      invariant i > 0 ==> FollowsReading(sys.engine, Evaluate(sys, m, env).sys.engine, "cpu_pct", "cpu_pct", m.cpu)
      invariant i > 1 ==> FollowsReading(sys.engine, Evaluate(sys, m, env).sys.engine, "ram_pct", "ram_pct", m.ram)
      invariant i > 2 ==> FollowsReading(sys.engine, Evaluate(sys, m, env).sys.engine, "swap_pct", "swap_pct", m.swap)
    {
      HostKindsDiffer(m, sys.engine.thresholds, i);
      OnlyCheck(sys, checks, env, i);
    }
  }

  lemma DiskKindsApart(m: Metrics, thresholds: map<string, real>, k: nat, l: nat)
    requires k < |m.disks| && l < |m.disks| && m.disks[l].mountpoint != m.disks[k].mountpoint
    ensures |Checks(m, thresholds)| == 3 + |m.disks| + |m.urls|
    ensures Checks(m, thresholds)[3 + l].kind != Checks(m, thresholds)[3 + k].kind
  {
    TheDiskCheck(m, thresholds, k);
    TheDiskCheck(m, thresholds, l);
    if "disk_pct:" + m.disks[l].mountpoint == "disk_pct:" + m.disks[k].mountpoint {
      PrefixInjective("disk_pct:", m.disks[l].mountpoint, m.disks[k].mountpoint);
    }
  }

  lemma DiskKindOnce(m: Metrics, thresholds: map<string, real>, k: nat)
    requires k < |m.disks| && forall l :: 0 <= l < |m.disks| && l != k ==> m.disks[l].mountpoint != m.disks[k].mountpoint
    ensures var checks := Checks(m, thresholds);
            3 + k < |checks| && forall j :: 0 <= j < |checks| && j != 3 + k ==> checks[j].kind != checks[3 + k].kind
  {
    var checks := Checks(m, thresholds);
    Count(m, thresholds);
    forall j | 0 <= j < |checks| && j != 3 + k
      ensures checks[j].kind != checks[3 + k].kind
    {
      KindInitials(m, thresholds, 3 + k);
      KindInitials(m, thresholds, j);
      if 3 <= j < 3 + |m.disks| {
        DiskKindsApart(m, thresholds, k, j - 3);
      }
    }
  }

  /** A disk whose mountpoint is listed once. */
  lemma DiskFollows(sys: System, m: Metrics, env: Env, k: nat)
    requires Evaluate(sys, m, env).ok
    requires k < |m.disks| && forall l :: 0 <= l < |m.disks| && l != k ==> m.disks[l].mountpoint != m.disks[k].mountpoint
    ensures FollowsReading(sys.engine, Evaluate(sys, m, env).sys.engine,
                           "disk_pct:" + m.disks[k].mountpoint, "disk_pct", m.disks[k].percent)
  {
    TheDiskCheck(m, sys.engine.thresholds, k);
    DiskKindOnce(m, sys.engine.thresholds, k);
    DiskCheckDecides(sys, Checks(m, sys.engine.thresholds), env, m.disks[k], 3 + k);
  }

  lemma DiskCheckDecides(sys: System, checks: seq<Check>, env: Env, d: Disk, i: nat)
    requires EvaluateAll(sys, checks, env).ok && i < |checks| && IsDiskCheck(checks[i], d, sys.engine.thresholds)
    requires forall j :: 0 <= j < |checks| && j != i ==> checks[j].kind != checks[i].kind
    ensures FollowsReading(sys.engine, EvaluateAll(sys, checks, env).sys.engine, "disk_pct:" + d.mountpoint, "disk_pct", d.percent)
  {
    OnlyCheck(sys, checks, env, i);
  }

  lemma UrlKindsApart(m: Metrics, thresholds: map<string, real>, k: nat, l: nat)
    requires k < |m.urls| && l < |m.urls| && m.urls[l].id != m.urls[k].id
    ensures |Checks(m, thresholds)| == 3 + |m.disks| + |m.urls|
    ensures Checks(m, thresholds)[3 + |m.disks| + l].kind != Checks(m, thresholds)[3 + |m.disks| + k].kind
  {
    TheUrlCheck(m, thresholds, k);
    TheUrlCheck(m, thresholds, l);
    if UrlKind(m.urls[l].id) == UrlKind(m.urls[k].id) {
      UrlKindsDiffer(m.urls[l].id, m.urls[k].id);
    }
  }

  lemma InitialsDiffer(m: Metrics, thresholds: map<string, real>, i: nat, j: nat)
    requires i < 3 + |m.disks| <= j < |Checks(m, thresholds)|
    ensures Checks(m, thresholds)[i].kind != Checks(m, thresholds)[j].kind
  {
    KindInitials(m, thresholds, i);
    KindInitials(m, thresholds, j);
  }

  lemma UrlKindOnce(m: Metrics, thresholds: map<string, real>, k: nat)
    requires k < |m.urls| && forall l :: 0 <= l < |m.urls| && l != k ==> m.urls[l].id != m.urls[k].id
    ensures var checks, i := Checks(m, thresholds), 3 + |m.disks| + k;
            i < |checks| && forall j :: 0 <= j < |checks| && j != i ==> checks[j].kind != checks[i].kind
  {
    var checks, i := Checks(m, thresholds), 3 + |m.disks| + k;
    Count(m, thresholds);
    forall j | 0 <= j < |checks| && j != i
      ensures checks[j].kind != checks[i].kind
    {
      if 3 + |m.disks| <= j {
        UrlKindsApart(m, thresholds, k, j - 3 - |m.disks|);
      } else {
        InitialsDiffer(m, thresholds, j, i);
      }
    }
  }

  /** A url whose id is listed once is alerted exactly when it is not up. */
  lemma UrlFollows(sys: System, m: Metrics, env: Env, k: nat)
    requires Evaluate(sys, m, env).ok
    requires k < |m.urls| && forall l :: 0 <= l < |m.urls| && l != k ==> m.urls[l].id != m.urls[k].id
    ensures "url_down:" + Decimal.Signed(m.urls[k].id) in Evaluate(sys, m, env).sys.engine.active <==> !m.urls[k].up
  {
    TheUrlCheck(m, sys.engine.thresholds, k);
    UrlKindOnce(m, sys.engine.thresholds, k);
    UrlCheckDecides(sys, Checks(m, sys.engine.thresholds), env, m.urls[k], 3 + |m.disks| + k);
  }

  lemma UrlCheckDecides(sys: System, checks: seq<Check>, env: Env, u: URLStat, i: nat)
    requires EvaluateAll(sys, checks, env).ok && i < |checks| && IsUrlCheck(checks[i], u)
    requires forall j :: 0 <= j < |checks| && j != i ==> checks[j].kind != checks[i].kind
    ensures "url_down:" + Decimal.Signed(u.id) in EvaluateAll(sys, checks, env).sys.engine.active <==> !u.up
  {
    OnlyCheck(sys, checks, env, i);
  }

  /** The kinds the metrics speak of. */
  ghost predicate Mentions(m: Metrics, kind: string) {
    || kind == "cpu_pct" || kind == "ram_pct" || kind == "swap_pct"
    || (exists k :: 0 <= k < |m.disks| && kind == "disk_pct:" + m.disks[k].mountpoint)
    || (exists k :: 0 <= k < |m.urls| && kind == "url_down:" + Decimal.Signed(m.urls[k].id))
  }

  lemma CheckIsMentioned(m: Metrics, thresholds: map<string, real>, j: nat)
    requires j < |Checks(m, thresholds)|
    ensures Mentions(m, Checks(m, thresholds)[j].kind)
  {
    TheHostChecks(m, thresholds);
    if 3 <= j < 3 + |m.disks| {
      TheDiskCheck(m, thresholds, j - 3);
    } else if j >= 3 + |m.disks| {
      TheUrlCheck(m, thresholds, j - 3 - |m.disks|);
    }
  }

  /** Every other kind keeps its alert. */
  lemma OthersKeepEntries(sys: System, m: Metrics, env: Env, kind: string)
    requires Evaluate(sys, m, env).ok && !Mentions(m, kind)
    ensures KeepsEntry(sys.engine, Evaluate(sys, m, env).sys.engine, kind)
  {
    var checks := Checks(m, sys.engine.thresholds);
    forall j | 0 <= j < |checks|
      ensures checks[j].kind != kind
    {
      CheckIsMentioned(m, sys.engine.thresholds, j);
    }
    Undecided(checks, |checks|, kind);
    LevelTriggered(sys, checks, |checks|, env, kind);
  }

  // ----- What fires ------------------------------------------------------------------------

  /** The row left by a check that has reached its threshold. */
  ghost predicate RowFrom(row: Alert, c: Check, now: int) {
    && c.threshold > 0.0 && c.value >= c.threshold
    && row == Alert(c.kind, c.message, c.value, c.threshold, now, None, false)
  }

  lemma {:induction false} FiredFrom(sys: System, checks: seq<Check>, n: nat, env: Env, j: nat) returns (i: nat)
    requires n <= |checks| && j < |EvalPrefix(sys, checks, n, env).fired|
    ensures i < n && RowFrom(EvalPrefix(sys, checks, n, env).fired[j].row, checks[i], env.clock(i))
  {
    var before := EvalPrefix(sys, checks, n - 1, env);
    if j < |before.fired| {
      i := FiredFrom(sys, checks, n - 1, env, j);
    } else {
      i := n - 1;
    }
  }

  /** The row of an alert about a reading of the host, that of a disk, and that of a url. */
  ghost predicate HostRow(row: Alert, key: string, value: real, thresholds: map<string, real>, now: int) {
    && key in thresholds && value >= thresholds[key] > 0.0
    && row == Alert(key, Reading(key, value, thresholds[key]), value, thresholds[key], now, None, false)
  }

  ghost predicate DiskRow(row: Alert, d: Disk, thresholds: map<string, real>, now: int) {
    && "disk_pct" in thresholds && d.percent >= thresholds["disk_pct"] > 0.0
    && row == Alert("disk_pct:" + d.mountpoint, DiskReading(d.mountpoint, d.percent, thresholds["disk_pct"]),
                    d.percent, thresholds["disk_pct"], now, None, false)
  }

  ghost predicate UrlRow(row: Alert, u: URLStat, now: int) {
    && !u.up
    && row == Alert("url_down:" + Decimal.Signed(u.id), UrlDown(if u.labelText == "" then u.url else u.labelText),
                    1.0, 1.0, now, None, false)
  }

  ghost predicate RowOfMetrics(row: Alert, m: Metrics, thresholds: map<string, real>, env: Env) {
    || HostRow(row, "cpu_pct", m.cpu, thresholds, env.clock(0))
    || HostRow(row, "ram_pct", m.ram, thresholds, env.clock(1))
    || HostRow(row, "swap_pct", m.swap, thresholds, env.clock(2))
    || (exists k :: 0 <= k < |m.disks| && DiskRow(row, m.disks[k], thresholds, env.clock(3 + k)))
    || (exists k :: 0 <= k < |m.urls| && UrlRow(row, m.urls[k], env.clock(3 + |m.disks| + k)))
  }

  /** Every alert that fires, early return or not, holds the reading it is about, the threshold
      that reading has reached, and the time at which it was checked. */
  lemma FiredHoldReadings(sys: System, m: Metrics, env: Env, j: nat)
    requires j < |Evaluate(sys, m, env).fired|
    ensures RowOfMetrics(Evaluate(sys, m, env).fired[j].row, m, sys.engine.thresholds, env)
  {
    var checks := Checks(m, sys.engine.thresholds);
    var i := FiredFrom(sys, checks, |checks|, env, j);
    RowFromMetrics(Evaluate(sys, m, env).fired[j].row, m, sys.engine.thresholds, i, env);
  }

  lemma RowFromMetrics(row: Alert, m: Metrics, thresholds: map<string, real>, i: nat, env: Env)
    requires i < |Checks(m, thresholds)| && RowFrom(row, Checks(m, thresholds)[i], env.clock(i))
    ensures RowOfMetrics(row, m, thresholds, env)
  {
    var c := Checks(m, thresholds)[i];
    Count(m, thresholds);
    if i < 3 {
      TheHostChecks(m, thresholds);
      HostRowIs(row, c, if i == 0 then "cpu_pct" else if i == 1 then "ram_pct" else "swap_pct",
                if i == 0 then m.cpu else if i == 1 then m.ram else m.swap, thresholds, env.clock(i));
    } else if i < 3 + |m.disks| {
      TheDiskCheck(m, thresholds, i - 3);
      DiskRowIs(row, c, m.disks[i - 3], thresholds, env.clock(3 + (i - 3)));
    } else {
      var k := i - 3 - |m.disks|;
      TheUrlCheck(m, thresholds, k);
      UrlRowIs(row, c, m.urls[k], env.clock(3 + |m.disks| + k));
    }
  }

  lemma HostRowIs(row: Alert, c: Check, key: string, value: real, thresholds: map<string, real>, now: int)
    requires RowFrom(row, c, now) && IsHostCheck(c, key, value, thresholds)
    ensures HostRow(row, key, value, thresholds, now)
  {
  }

  lemma DiskRowIs(row: Alert, c: Check, d: Disk, thresholds: map<string, real>, now: int)
    requires RowFrom(row, c, now) && IsDiskCheck(c, d, thresholds)
    ensures DiskRow(row, d, thresholds, now)
  {
  }

  lemma UrlRowIs(row: Alert, c: Check, u: URLStat, now: int)
    requires RowFrom(row, c, now) && IsUrlCheck(c, u)
    ensures UrlRow(row, u, now)
  {
  }

  // ----- The early return ------------------------------------------------------------------

  /** The insertion of iteration i is attempted and fails. */
  ghost predicate InsertionFails(sys: System, checks: seq<Check>, i: nat, env: Env)
    requires i < |checks|
  {
    var p := EvalPrefix(sys, checks, i, env);
    && p.ok && checks[i].threshold > 0.0 && checks[i].value >= checks[i].threshold
    && checks[i].kind !in p.sys.engine.active && !env.insertOk(i)
  }

  ghost predicate SomeInsertionFails(sys: System, checks: seq<Check>, n: nat, env: Env)
    requires n <= |checks|
  {
    exists i :: 0 <= i < n && InsertionFails(sys, checks, i, env)
  }

  /** An evaluation fails if and only if some insertion does ... */
  lemma {:induction false} FailsIff(sys: System, checks: seq<Check>, n: nat, env: Env)
    requires n <= |checks|
    ensures !EvalPrefix(sys, checks, n, env).ok <==> SomeInsertionFails(sys, checks, n, env)
  {
    if n > 0 {
      FailsIff(sys, checks, n - 1, env);
      FailsOnceMore(sys, checks, n, env);
    }
  }

  lemma FailsOnceMore(sys: System, checks: seq<Check>, n: nat, env: Env)
    requires 0 < n <= |checks|
    ensures SomeInsertionFails(sys, checks, n, env)
       <==> SomeInsertionFails(sys, checks, n - 1, env) || InsertionFails(sys, checks, n - 1, env)
  {
  }

  /** ... and from there on it does nothing: what had fired by then is returned. */
  lemma {:induction false} FailureStops(sys: System, checks: seq<Check>, i: nat, n: nat, env: Env)
    requires i < n <= |checks| && InsertionFails(sys, checks, i, env)
    ensures EvalPrefix(sys, checks, n, env) == EvalPrefix(sys, checks, i, env).(ok := false)
    decreases n
  {
    if i < n - 1 {
      FailureStops(sys, checks, i, n - 1, env);
    }
  }

  // ----- The rows --------------------------------------------------------------------------

  /** The row is as it was, or resolved at the time of a check that found it cleared. */
  ghost predicate RowKept(before: Alert, after: Alert, checks: seq<Check>, n: nat, env: Env)
    requires n <= |checks|
  {
    after == before || ResolvedAt(before, after, checks, n, env)
  }

  ghost predicate ResolvedAt(before: Alert, after: Alert, checks: seq<Check>, n: nat, env: Env)
    requires n <= |checks|
  {
    exists i :: 0 <= i < n && ResolvedHere(before, after, checks[i], i, env)
  }

  ghost predicate ResolvedHere(before: Alert, after: Alert, c: Check, i: nat, env: Env) {
    && c.kind == before.kind && c.value < c.threshold && env.resolveOk(i)
    && before.resolvedAt == None && after == before.(resolvedAt := Some(env.clock(i)))
  }

  lemma StepKeepsRow(p: Progress, c: Check, i: nat, env: Env, id: nat)
    requires p.ok && WeakIndex(p.sys) && id in p.sys.tables.alerts.rows
    ensures var rows, rows' := p.sys.tables.alerts.rows, EvalStep(p, c, i, env).sys.tables.alerts.rows;
            id in rows' && (rows'[id] == rows[id] || ResolvedHere(rows[id], rows'[id], c, i, env))
  {
  }

  /** No row is lost or rewritten: one that was there is as it was, or has been resolved by the
      first check of its kind to find it cleared, at the time of that check. */
  lemma {:induction false} RowsAreKept(sys: System, checks: seq<Check>, n: nat, env: Env, id: nat)
    requires n <= |checks| && WeakIndex(sys) && id in sys.tables.alerts.rows
    ensures id in EvalPrefix(sys, checks, n, env).sys.tables.alerts.rows
    ensures RowKept(sys.tables.alerts.rows[id], EvalPrefix(sys, checks, n, env).sys.tables.alerts.rows[id], checks, n, env)
  {
    if n > 0 {
      RowsAreKept(sys, checks, n - 1, env, id);
      EveryIterationWeak(sys, checks, n - 1, env);
      var p := EvalPrefix(sys, checks, n - 1, env);
      if p.ok {
        StepKeepsRow(p, checks[n - 1], n - 1, env, id);
        KeptOnceMore(sys.tables.alerts.rows[id], p.sys.tables.alerts.rows[id],
                     EvalPrefix(sys, checks, n, env).sys.tables.alerts.rows[id], checks, n, env);
      } else {
        KeptOnceMore(sys.tables.alerts.rows[id], p.sys.tables.alerts.rows[id], p.sys.tables.alerts.rows[id], checks, n, env);
      }
    }
  }

  lemma KeptOnceMore(before: Alert, middle: Alert, after: Alert, checks: seq<Check>, n: nat, env: Env)
    requires 0 < n <= |checks| && RowKept(before, middle, checks, n - 1, env)
    requires after == middle || ResolvedHere(middle, after, checks[n - 1], n - 1, env)
    ensures RowKept(before, after, checks, n, env)
  {
  }

  /** The rows that are new are those of the alerts that fired, resolved since or not. */
  lemma {:induction false} NewRowsFired(sys: System, checks: seq<Check>, n: nat, env: Env, id: nat) returns (j: nat)
    requires n <= |checks| && WeakIndex(sys)
    requires id !in sys.tables.alerts.rows && id in EvalPrefix(sys, checks, n, env).sys.tables.alerts.rows
    ensures var p := EvalPrefix(sys, checks, n, env);
            && j < |p.fired| && p.fired[j].id == id
            && p.sys.tables.alerts.rows[id].(resolvedAt := None) == p.fired[j].row
  {
    var p := EvalPrefix(sys, checks, n - 1, env);
    EveryIterationWeak(sys, checks, n - 1, env);
    if id in p.sys.tables.alerts.rows {
      j := NewRowsFired(sys, checks, n - 1, env, id);
      if p.ok {
        StepKeepsRow(p, checks[n - 1], n - 1, env, id);
      }
    } else {
      j := |p.fired|;
    }
  }

  /** A reading below its threshold resolves the alert of its kind, if the update succeeds. */
  lemma ClearedIsResolved(sys: System, checks: seq<Check>, env: Env, i: nat)
    requires WeakIndex(sys) && EvaluateAll(sys, checks, env).ok && i < |checks|
    requires forall j :: 0 <= j < |checks| && j != i ==> checks[j].kind != checks[i].kind
    requires checks[i].value < checks[i].threshold && checks[i].threshold > 0.0
    requires checks[i].kind in sys.engine.active && env.resolveOk(i)
    ensures var id, rows := sys.engine.active[checks[i].kind], EvaluateAll(sys, checks, env).sys.tables.alerts.rows;
            id in rows && rows[id] == sys.tables.alerts.rows[id].(resolvedAt := Some(env.clock(i)))
  {
    StaysOk(sys, checks, i, env);
    ResolvedNow(sys, checks, env, i);
    ResolvedStays(sys, checks, i + 1, |checks|, env, sys.engine.active[checks[i].kind]);
  }

  lemma UntouchedSoFar(sys: System, checks: seq<Check>, env: Env, i: nat)
    requires WeakIndex(sys) && i < |checks| && EvalPrefix(sys, checks, i, env).ok
    requires forall j :: 0 <= j < i ==> checks[j].kind != checks[i].kind
    requires checks[i].kind in sys.engine.active
    ensures var id, p := sys.engine.active[checks[i].kind], EvalPrefix(sys, checks, i, env).sys;
            && checks[i].kind in p.engine.active && p.engine.active[checks[i].kind] == id
            && id in p.tables.alerts.rows && p.tables.alerts.rows[id] == sys.tables.alerts.rows[id]
  {
    Undecided(checks, i, checks[i].kind);
    LevelTriggered(sys, checks, i, env, checks[i].kind);
    RowsAreKept(sys, checks, i, env, sys.engine.active[checks[i].kind]);
  }

  lemma ResolvedNow(sys: System, checks: seq<Check>, env: Env, i: nat)
    requires WeakIndex(sys) && i < |checks| && EvalPrefix(sys, checks, i, env).ok
    requires forall j :: 0 <= j < i ==> checks[j].kind != checks[i].kind
    requires checks[i].value < checks[i].threshold && checks[i].threshold > 0.0
    requires checks[i].kind in sys.engine.active && env.resolveOk(i)
    ensures var id, rows := sys.engine.active[checks[i].kind], EvalPrefix(sys, checks, i + 1, env).sys.tables.alerts.rows;
            id in rows && rows[id] == sys.tables.alerts.rows[id].(resolvedAt := Some(env.clock(i)))
  {
    UntouchedSoFar(sys, checks, env, i);
    assert EvalPrefix(sys, checks, i + 1, env) == EvalStep(EvalPrefix(sys, checks, i, env), checks[i], i, env);
  }

  lemma {:induction false} StaysOk(sys: System, checks: seq<Check>, i: nat, env: Env)
    requires i <= |checks| && EvaluateAll(sys, checks, env).ok
    ensures EvalPrefix(sys, checks, i, env).ok
    decreases |checks| - i
  {
    if i < |checks| {
      StaysOk(sys, checks, i + 1, env);
    }
  }

  lemma {:induction false} ResolvedStays(sys: System, checks: seq<Check>, i: nat, n: nat, env: Env, id: nat)
    requires i <= n <= |checks| && WeakIndex(sys)
    requires id in EvalPrefix(sys, checks, i, env).sys.tables.alerts.rows
    requires EvalPrefix(sys, checks, i, env).sys.tables.alerts.rows[id].resolvedAt.Some?
    ensures id in EvalPrefix(sys, checks, n, env).sys.tables.alerts.rows
    ensures EvalPrefix(sys, checks, n, env).sys.tables.alerts.rows[id] == EvalPrefix(sys, checks, i, env).sys.tables.alerts.rows[id]
    decreases n
  {
    if i < n {
      ResolvedStays(sys, checks, i, n - 1, env, id);
      EveryIterationWeak(sys, checks, n - 1, env);
      var p := EvalPrefix(sys, checks, n - 1, env);
      if p.ok {
        StepKeepsRow(p, checks[n - 1], n - 1, env, id);
      }
    }
  }
}
