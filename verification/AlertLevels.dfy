/** An evaluation is level-triggered: what is active afterwards depends on the readings and
    thresholds alone, not on the order of the checks and not on failures to resolve. */
module AlertLevels {
  import opened Options
  import opened Database
  import opened Alerts
  import opened AlertIndex
  import opened AlertRuns

  ghost predicate DistinctKinds(checks: seq<Check>) {
    forall i, j :: 0 <= i < j < |checks| ==> checks[i].kind != checks[j].kind
  }

  ghost predicate DistinctDisks(m: Metrics) {
    forall i, j :: 0 <= i < j < |m.disks| ==> m.disks[i].mountpoint != m.disks[j].mountpoint
  }

  ghost predicate DistinctUrls(m: Metrics) {
    forall i, j :: 0 <= i < j < |m.urls| ==> m.urls[i].id != m.urls[j].id
  }

  ghost predicate DistinctMetrics(m: Metrics) {
    DistinctDisks(m) && DistinctUrls(m)
  }

  // ----- Kinds -----------------------------------------------------------------------------

  lemma PrefixInjective(prefix: string, a: string, b: string)
    requires prefix + a == prefix + b
    ensures a == b
  {
    assert (prefix + a)[|prefix|..] == a;
    assert (prefix + b)[|prefix|..] == b;
  }

  lemma KindInitials(m: Metrics, thresholds: map<string, real>, i: nat)
    requires i < |Checks(m, thresholds)|
    ensures var k := Checks(m, thresholds)[i].kind;
            k != "" && k[0] == (if i == 0 then 'c' else if i == 1 then 'r' else if i == 2 then 's'
                                else if i < 3 + |m.disks| then 'd' else 'u')
  {
  }

  lemma DiskKindsDiffer(d: Disk, d': Disk, threshold: real)
    requires DiskCheck(d, threshold).kind == DiskCheck(d', threshold).kind
    ensures d.mountpoint == d'.mountpoint
  {
    PrefixInjective("disk_pct:", d.mountpoint, d'.mountpoint);
  }

  lemma UrlKindsDiffer(id: int, id': int)
    requires UrlKind(id) == UrlKind(id')
    ensures id == id'
  {
    PrefixInjective("url_down:", Decimal.Signed(id), Decimal.Signed(id'));
    Decimal.SignedInjective(id, id');
  }

  /** Distinct mountpoints and distinct check ids give pairwise distinct kinds. */
  lemma DistinctMetricsDistinctKinds(m: Metrics, thresholds: map<string, real>)
    requires DistinctMetrics(m)
    ensures DistinctKinds(Checks(m, thresholds))
  {
    var checks := Checks(m, thresholds);
    forall i, j | 0 <= i < j < |checks|
      ensures checks[i].kind != checks[j].kind
    {
      KindsDiffer(m, thresholds, i, j);
    }
  }

  lemma DisksAndUrls(m: Metrics, thresholds: map<string, real>, i: nat)
    requires 3 <= i < |Checks(m, thresholds)|
    ensures i < 3 + |m.disks| ==> Checks(m, thresholds)[i] == DiskCheck(m.disks[i - 3], Lookup(thresholds, "disk_pct"))
    ensures i >= 3 + |m.disks| ==> i - 3 - |m.disks| < |m.urls|
                                   && Checks(m, thresholds)[i] == URLCheckOf(m.urls[i - 3 - |m.disks|])
  {
  }

  lemma KindsDiffer(m: Metrics, thresholds: map<string, real>, i: nat, j: nat)
    requires DistinctUrls(m) && i < j < |Checks(m, thresholds)|
    requires DistinctDisks(m) || !(3 <= i < 3 + |m.disks|)
    ensures Checks(m, thresholds)[i].kind != Checks(m, thresholds)[j].kind
  {
    KindInitials(m, thresholds, i);
    KindInitials(m, thresholds, j);
    if 3 <= i && j < 3 + |m.disks| {
      TwoDisks(m, thresholds, i, j);
    } else if 3 + |m.disks| <= i {
      TwoUrls(m, thresholds, i, j);
    }
  }

  lemma TwoDisks(m: Metrics, thresholds: map<string, real>, i: nat, j: nat)
    requires DistinctDisks(m) && 3 <= i < j < 3 + |m.disks| <= |Checks(m, thresholds)|
    ensures Checks(m, thresholds)[i].kind != Checks(m, thresholds)[j].kind
  {
    DisksAndUrls(m, thresholds, i);
    DisksAndUrls(m, thresholds, j);
    var d, d', threshold := m.disks[i - 3], m.disks[j - 3], Lookup(thresholds, "disk_pct");
    if DiskCheck(d, threshold).kind == DiskCheck(d', threshold).kind {
      DiskKindsDiffer(d, d', threshold);
    }
  }

  lemma TwoUrls(m: Metrics, thresholds: map<string, real>, i: nat, j: nat)
    requires DistinctUrls(m) && 3 + |m.disks| <= i < j < |Checks(m, thresholds)|
    ensures Checks(m, thresholds)[i].kind != Checks(m, thresholds)[j].kind
  {
    DisksAndUrls(m, thresholds, i);
    DisksAndUrls(m, thresholds, j);
    var u, v := m.urls[i - 3 - |m.disks|].id, m.urls[j - 3 - |m.disks|].id;
    if UrlKind(u) == UrlKind(v) {
      UrlKindsDiffer(u, v);
    }
  }

  // ----- Level triggering ------------------------------------------------------------------

  /** What the last check of a kind with a positive threshold says, if there is one. */
  function Decision(checks: seq<Check>, n: nat, k: string): Option<bool>
    requires n <= |checks|
  {
    if n == 0 then None
    else if checks[n - 1].kind == k && checks[n - 1].threshold > 0.0 then
      Some(checks[n - 1].value >= checks[n - 1].threshold)
    else Decision(checks, n - 1, k)
  }

  /** For any checks whatever: a decided kind is active as its last check says, and a kind that
      no check with a positive threshold mentions keeps its alert. */
  lemma {:induction false} LevelTriggered(sys: System, checks: seq<Check>, n: nat, env: Env, k: string)
    requires n <= |checks| && EvalPrefix(sys, checks, n, env).ok
    ensures var active := EvalPrefix(sys, checks, n, env).sys.engine.active;
            match Decision(checks, n, k)
            case Some(breached) => k in active <==> breached
            case None => (k in active <==> k in sys.engine.active) && (k in active ==> active[k] == sys.engine.active[k])
  {
    if n > 0 {
      LevelTriggered(sys, checks, n - 1, env, k);
    }
  }

  /** The check at i is the last of its kind among the first n. */
  ghost predicate LastOfKind(checks: seq<Check>, n: nat, i: nat)
    requires i < n <= |checks|
  {
    forall j :: i < j < n ==> checks[j].kind != checks[i].kind
  }

  lemma {:induction false} DecisionOfLast(checks: seq<Check>, n: nat, i: nat)
    requires i < n <= |checks| && LastOfKind(checks, n, i)
    requires forall j :: 0 <= j < i ==> checks[j].kind != checks[i].kind
    ensures Decision(checks, n, checks[i].kind)
         == if checks[i].threshold > 0.0 then Some(checks[i].value >= checks[i].threshold) else None
  {
    if i < n - 1 {
      DecisionOfLast(checks, n - 1, i);
    } else {
      Undecided(checks, i, checks[i].kind);
    }
  }

  lemma {:induction false} Undecided(checks: seq<Check>, n: nat, k: string)
    requires n <= |checks| && forall i :: 0 <= i < n ==> checks[i].kind != k
    ensures Decision(checks, n, k) == None
  {
    if n > 0 {
      Undecided(checks, n - 1, k);
    }
  }

  /** With no failed insertion, a kind that is checked once and with a positive threshold is
      active exactly when its value has reached the threshold. */
  lemma ActiveIffBreached(sys: System, checks: seq<Check>, env: Env, i: nat)
    requires EvaluateAll(sys, checks, env).ok && i < |checks| && checks[i].threshold > 0.0
    requires forall j :: 0 <= j < |checks| && j != i ==> checks[j].kind != checks[i].kind
    ensures checks[i].kind in EvaluateAll(sys, checks, env).sys.engine.active <==> checks[i].value >= checks[i].threshold
  {
    DecisionOfLast(checks, |checks|, i);
    LevelTriggered(sys, checks, |checks|, env, checks[i].kind);
  }

  // ----- What fires ------------------------------------------------------------------------

  /** The kinds that have reached their threshold and are not active yet, in check order. */
  function NewlyBreached(checks: seq<Check>, n: nat, active: map<string, nat>): seq<string>
    requires n <= |checks|
  {
    if n == 0 then []
    else NewlyBreached(checks, n - 1, active)
         + (if Breached(checks[n - 1]) && checks[n - 1].kind !in active then [checks[n - 1].kind] else [])
  }

  function Kinds(fired: seq<FiredAlert>): seq<string> {
    seq(|fired|, i requires 0 <= i < |fired| => fired[i].row.kind)
  }

  /** Exactly the newly breached kinds fire, in order. */
  lemma {:induction false} FiresNewlyBreached(sys: System, checks: seq<Check>, n: nat, env: Env)
    requires n <= |checks| && DistinctKinds(checks) && EvalPrefix(sys, checks, n, env).ok
    ensures Kinds(EvalPrefix(sys, checks, n, env).fired) == NewlyBreached(checks, n, sys.engine.active)
  {
    if n > 0 {
      FiresNewlyBreached(sys, checks, n - 1, env);
      Undecided(checks, n - 1, checks[n - 1].kind);
      LevelTriggered(sys, checks, n - 1, env, checks[n - 1].kind);
    }
  }

  ghost predicate CheckedOnce(checks: seq<Check>, k: string) {
    forall i, j :: 0 <= i < j < |checks| ==> checks[i].kind != k || checks[j].kind != k
  }

  /** Every fired alert whose kind is checked once is, when the evaluation returns (even early), an unresolved
      row of the table with the returned id, and the index names it. */
  lemma {:induction false} FiredArePersisted(sys: System, checks: seq<Check>, n: nat, env: Env, j: nat)
    requires n <= |checks| && WeakIndex(sys)
    requires j < |EvalPrefix(sys, checks, n, env).fired|
    requires CheckedOnce(checks, EvalPrefix(sys, checks, n, env).fired[j].row.kind)
    ensures var p := EvalPrefix(sys, checks, n, env);
            var f := p.fired[j];
            && f.id in p.sys.tables.alerts.rows && p.sys.tables.alerts.rows[f.id] == f.row && Open(f.row)
            && f.row.kind in p.sys.engine.active && p.sys.engine.active[f.row.kind] == f.id
            && (exists i :: 0 <= i < n && checks[i].kind == f.row.kind)
  {
    var before := EvalPrefix(sys, checks, n - 1, env);
    EveryIterationWeak(sys, checks, n - 1, env);
    if j < |before.fired| {
      FiredArePersisted(sys, checks, n - 1, env, j);
    } else {
      assert checks[n - 1].kind == EvalPrefix(sys, checks, n, env).fired[j].row.kind;
    }
  }

  predicate FiresAt(sys: System, checks: seq<Check>, i: nat, env: Env)
    requires i < |checks|
  {
    var p := EvalPrefix(sys, checks, i, env);
    p.ok && Breached(checks[i]) && checks[i].kind !in p.sys.engine.active && env.insertOk(i)
  }

  /** The id that the alert of check i gets when it fires. */
  function FiredId(sys: System, checks: seq<Check>, i: nat, env: Env): nat
    requires i < |checks|
  {
    EvalPrefix(sys, checks, i, env).sys.tables.alerts.lastId + 1
  }

  /** The evaluation comes to check j, which finds the kind of check i cleared. */
  predicate ClearsKind(sys: System, checks: seq<Check>, i: nat, j: nat, env: Env)
    requires i < j < |checks|
  {
    checks[j].kind == checks[i].kind && Cleared(checks[j]) && EvalPrefix(sys, checks, j, env).ok
  }

  /** A later check among the first n does. */
  ghost predicate Undone(sys: System, checks: seq<Check>, i: nat, n: nat, env: Env)
    requires i < n <= |checks|
  {
    exists j :: i < j < n && ClearsKind(sys, checks, i, j, env)
  }

  /** The first such check does, and its update succeeds. */
  ghost predicate ResolvedBy(sys: System, checks: seq<Check>, i: nat, j: nat, env: Env)
    requires i < j < |checks|
  {
    ClearsKind(sys, checks, i, j, env) && !Undone(sys, checks, i, j, env) && env.resolveOk(j)
  }

  ghost predicate SomeResolves(sys: System, checks: seq<Check>, i: nat, n: nat, env: Env)
    requires i < n <= |checks|
  {
    exists j :: i < j < n && ResolvedBy(sys, checks, i, j, env)
  }

  lemma OneMoreCheck(sys: System, checks: seq<Check>, i: nat, n: nat, env: Env)
    requires i < n < |checks|
    ensures Undone(sys, checks, i, n + 1, env) <==> Undone(sys, checks, i, n, env) || ClearsKind(sys, checks, i, n, env)
    ensures SomeResolves(sys, checks, i, n + 1, env)
       <==> SomeResolves(sys, checks, i, n, env) || ResolvedBy(sys, checks, i, n, env)
  {
  }

  /** One iteration and the alert `id` of kind k in the index. */
  lemma StepAndEntry(p: Progress, c: Check, i: nat, env: Env, k: string, id: nat)
    requires p.ok && id <= p.sys.tables.alerts.lastId
    ensures var before, sys := p.sys.engine.active, EvalStep(p, c, i, env).sys;
            var after := sys.engine.active;
            && id <= sys.tables.alerts.lastId
            && (k in before && before[k] == id && !(c.kind == k && Cleared(c)) ==> k in after && after[k] == id)
            && (c.kind == k && Cleared(c) ==> k !in after)
            && ((k in before ==> before[k] > id) ==> (k in after ==> after[k] > id))
  {
  }

  /** One iteration, taken or not, and the row `id` of kind k. */
  lemma ProgressAndRow(p: Progress, c: Check, i: nat, env: Env, k: string, id: nat, q: Progress)
    requires q == if p.ok then EvalStep(p, c, i, env) else p
    requires WeakIndex(p.sys) && id in p.sys.tables.alerts.rows && p.sys.tables.alerts.rows[id].kind == k
    ensures var rows, rows' := p.sys.tables.alerts.rows, q.sys.tables.alerts.rows;
            && id in rows' && rows'[id].kind == k
            && (Open(rows'[id]) <==>
                  Open(rows[id])
                  && !(p.ok && c.kind == k && Cleared(c) && k in p.sys.engine.active && p.sys.engine.active[k] == id
                       && env.resolveOk(i)))
  {
  }

  /** An alert that fires is still the active one of its kind after n checks if and only if no
      later check of its kind has found it cleared. (A mountpoint may be listed twice.) */
  lemma {:induction false} FiredStaysIff(sys: System, checks: seq<Check>, i: nat, n: nat, env: Env)
    requires i < n <= |checks| && FiresAt(sys, checks, i, env)
    ensures var id, p, k := FiredId(sys, checks, i, env), EvalPrefix(sys, checks, n, env), checks[i].kind;
            && id <= p.sys.tables.alerts.lastId
            && (!Undone(sys, checks, i, n, env) ==> k in p.sys.engine.active && p.sys.engine.active[k] == id)
            && (Undone(sys, checks, i, n, env) && k in p.sys.engine.active ==> p.sys.engine.active[k] > id)
    decreases n
  {
    if i < n - 1 {
      FiredStaysIff(sys, checks, i, n - 1, env);
      OneMoreCheck(sys, checks, i, n - 1, env);
      var p := EvalPrefix(sys, checks, n - 1, env);
      if p.ok {
        StepAndEntry(p, checks[n - 1], n - 1, env, checks[i].kind, FiredId(sys, checks, i, env));
      }
    }
  }

  lemma FiredRowIsOpen(sys: System, checks: seq<Check>, i: nat, env: Env)
    requires i < |checks| && FiresAt(sys, checks, i, env)
    ensures var id, rows := FiredId(sys, checks, i, env), EvalPrefix(sys, checks, i + 1, env).sys.tables.alerts.rows;
            id in rows && rows[id].kind == checks[i].kind && Open(rows[id])
  {
  }

  /** What iteration n does to the row. */
  lemma RowAfterOneMore(sys: System, checks: seq<Check>, i: nat, n: nat, env: Env)
    requires i < n < |checks| && FiresAt(sys, checks, i, env) && WeakIndex(sys)
    requires var id, rows := FiredId(sys, checks, i, env), EvalPrefix(sys, checks, n, env).sys.tables.alerts.rows;
             id in rows && rows[id].kind == checks[i].kind
    ensures var id := FiredId(sys, checks, i, env);
            var rows, rows' := EvalPrefix(sys, checks, n, env).sys.tables.alerts.rows,
                               EvalPrefix(sys, checks, n + 1, env).sys.tables.alerts.rows;
            && id in rows' && rows'[id].kind == checks[i].kind
            && (Open(rows'[id]) <==> Open(rows[id]) && !ResolvedBy(sys, checks, i, n, env))
  {
    FiredStaysIff(sys, checks, i, n, env);
    EveryIterationWeak(sys, checks, n, env);
    ProgressAndRow(EvalPrefix(sys, checks, n, env), checks[n], n, env, checks[i].kind, FiredId(sys, checks, i, env),
                   EvalPrefix(sys, checks, n + 1, env));
  }

  /** Its row is unresolved after n checks if and only if no later check of its kind has found
      it cleared, or the update of the first that has failed. */
  lemma {:induction false} FiredUnresolvedIff(sys: System, checks: seq<Check>, i: nat, n: nat, env: Env)
    requires i < n <= |checks| && FiresAt(sys, checks, i, env) && WeakIndex(sys)
    ensures var id, rows := FiredId(sys, checks, i, env), EvalPrefix(sys, checks, n, env).sys.tables.alerts.rows;
            && id in rows && rows[id].kind == checks[i].kind
            && (Open(rows[id]) <==> !SomeResolves(sys, checks, i, n, env))
    decreases n
  {
    if i < n - 1 {
      FiredUnresolvedIff(sys, checks, i, n - 1, env);
      RowAfterOneMore(sys, checks, i, n - 1, env);
      OneMoreCheck(sys, checks, i, n - 1, env);
    } else {
      FiredRowIsOpen(sys, checks, i, env);
    }
  }

  /** A mountpoint listed twice, once above and once below its threshold: the alert that fires
      is resolved before the evaluation returns it. */
  lemma TwiceListedMount(t: Tables, env: Env)
    requires t.alerts == Table(map[], 0) && t.thresholds == map["disk_pct" := 90.0]
    requires env.insertOk(3) && env.resolveOk(4)
    ensures var sys := System(t, EngineState(t.thresholds, map[]));
            var p := Evaluate(sys, Metrics(0.0, 0.0, 0.0, [Disk("/", 95.0), Disk("/", 10.0)], []), env);
            && p.ok && |p.fired| == 1 && p.fired[0].id == 1 && 1 in p.sys.tables.alerts.rows
            && !Open(p.sys.tables.alerts.rows[1]) && p.sys.engine.active == map[]
  {
    var sys := System(t, EngineState(t.thresholds, map[]));
    var m := Metrics(0.0, 0.0, 0.0, [Disk("/", 95.0), Disk("/", 10.0)], []);
    var checks := Checks(m, sys.engine.thresholds);
    assert |checks| == 5 && checks[3] == DiskCheck(m.disks[0], 90.0) && checks[4] == DiskCheck(m.disks[1], 90.0);
    assert EvalPrefix(sys, checks, 1, env) == EvalPrefix(sys, checks, 0, env);
    assert EvalPrefix(sys, checks, 2, env) == EvalPrefix(sys, checks, 1, env);
    assert EvalPrefix(sys, checks, 3, env) == EvalPrefix(sys, checks, 2, env);
    var p := EvalPrefix(sys, checks, 3, env);
    assert p == Progress(sys, [], [], true);
    assert EvalPrefix(sys, checks, 4, env) == Fire(p, checks[3], env.clock(3));
    assert EvalPrefix(sys, checks, 5, env) == Resolve(Fire(p, checks[3], env.clock(3)), checks[4].kind, true, env.clock(4));
  }

  // ----- Order and repetition --------------------------------------------------------------

  /** The kinds active after an evaluation do not depend on the order of the checks. */
  lemma OrderFree(sys: System, checks: seq<Check>, checks': seq<Check>, env: Env, env': Env)
    requires DistinctKinds(checks) && DistinctKinds(checks')
    requires forall c :: c in checks <==> c in checks'
    requires EvaluateAll(sys, checks, env).ok && EvaluateAll(sys, checks', env').ok
    ensures EvaluateAll(sys, checks, env).sys.engine.active.Keys == EvaluateAll(sys, checks', env').sys.engine.active.Keys
  {
    forall k
      ensures k in EvaluateAll(sys, checks, env).sys.engine.active <==> k in EvaluateAll(sys, checks', env').sys.engine.active
    {
      LevelTriggered(sys, checks, |checks|, env, k);
      LevelTriggered(sys, checks', |checks'|, env', k);
      SameDecision(checks, checks', k);
    }
  }

  lemma SameDecision(checks: seq<Check>, checks': seq<Check>, k: string)
    requires DistinctKinds(checks) && DistinctKinds(checks')
    requires forall c :: c in checks <==> c in checks'
    ensures Decision(checks, |checks|, k) == Decision(checks', |checks'|, k)
  {
    if i :| 0 <= i < |checks| && checks[i].kind == k {
      assert checks[i] in checks';
      var j :| 0 <= j < |checks'| && checks'[j] == checks[i];
      DecisionOfLast(checks, |checks|, i);
      DecisionOfLast(checks', |checks'|, j);
    } else {
      Undecided(checks, |checks|, k);
      forall j | 0 <= j < |checks'|
        ensures checks'[j].kind != k
      {
        assert checks'[j] in checks;
      }
      Undecided(checks', |checks'|, k);
    }
  }

  /** No check would fire or resolve anything. */
  ghost predicate Settled(sys: System, checks: seq<Check>) {
    forall i :: 0 <= i < |checks| ==>
      && (Breached(checks[i]) ==> checks[i].kind in sys.engine.active)
      && (Cleared(checks[i]) ==> checks[i].kind !in sys.engine.active)
  }

  lemma {:induction false} SettledDoesNothing(sys: System, checks: seq<Check>, n: nat, env: Env)
    requires n <= |checks| && Settled(sys, checks)
    ensures EvalPrefix(sys, checks, n, env) == Progress(sys, [], [], true)
  {
    if n > 0 {
      SettledDoesNothing(sys, checks, n - 1, env);
    }
  }

  /** A second evaluation of the same metrics fires nothing and changes nothing, whatever the
      database would do to it. */
  lemma RepeatDoesNothing(sys: System, m: Metrics, env: Env, env': Env)
    requires DistinctMetrics(m) && Evaluate(sys, m, env).ok
    ensures var after := Evaluate(sys, m, env).sys;
            Evaluate(after, m, env') == Progress(after, [], [], true)
  {
    var checks := Checks(m, sys.engine.thresholds);
    var after := Evaluate(sys, m, env).sys;
    DistinctMetricsDistinctKinds(m, sys.engine.thresholds);
    PrefixKeepsThresholds(sys, checks, |checks|, env);
    forall i | 0 <= i < |checks|
      ensures Breached(checks[i]) ==> checks[i].kind in after.engine.active
      ensures Cleared(checks[i]) ==> checks[i].kind !in after.engine.active
    {
      if checks[i].threshold > 0.0 {
        ActiveIffBreached(sys, checks, env, i);
      }
    }
    SettledDoesNothing(after, checks, |checks|, env');
  }

  // ----- Restarting after a lost resolve ---------------------------------------------------

  /** The queries that fail have nothing to give this engine. */
  predicate LosesNothing(e: EngineState, queries: Queries) {
    && (queries.thresholds || e.thresholds == map[])
    && (queries == Queries(true, true) || e.active == map[])
  }

  /** After an evaluation of a loaded system, early return included, a restart is invisible if
      and only if the queries that fail have nothing to find and, when none fails, no resolve
      the evaluation attempted has failed: a dropped error leaves a row that comes back. */
  lemma RestartInvisibleIff(sys: System, m: Metrics, env: Env, listing: seq<nat>, queries: Queries)
    requires Loaded(sys) && DistinctMetrics(m)
    requires IsActiveListing(Evaluate(sys, m, env).sys.tables.alerts.rows, listing)
    ensures var after, checks := Evaluate(sys, m, env).sys, Checks(m, sys.engine.thresholds);
            Load(after.tables, listing, queries) == after.engine
            <==> LosesNothing(after.engine, queries)
                 && (queries == Queries(true, true) ==> !SomeResolveLost(sys, checks, |checks|, env))
  {
    var after, checks := Evaluate(sys, m, env).sys, Checks(m, sys.engine.thresholds);
    EveryIterationExactIff(sys, checks, |checks|, env);
    PrefixKeepsThresholds(sys, checks, |checks|, env);
    if queries == Queries(true, true) {
      if SomeResolveLost(sys, checks, |checks|, env) {
        DistinctMetricsDistinctKinds(m, sys.engine.thresholds);
        var i :| 0 <= i < |checks| && LostAt(sys, checks, i, env);
        LostStaysOut(sys, checks, i, |checks|, env);
        LostRowStaysOpen(sys, checks, i, env);
        ReloadPicksOldest(after.tables, listing, EvalPrefix(sys, checks, i, env).sys.engine.active[checks[i].kind]);
      } else {
        ReloadChangesNothing(after, listing);
      }
    }
  }

  /** With distinct kinds, a kind that has been resolved is not active again in this evaluation. */
  lemma {:induction false} LostStaysOut(sys: System, checks: seq<Check>, i: nat, n: nat, env: Env)
    requires i < n <= |checks| && DistinctKinds(checks)
    requires LostAt(sys, checks, i, env)
    ensures checks[i].kind !in EvalPrefix(sys, checks, n, env).sys.engine.active
    decreases n
  {
    if i < n - 1 {
      LostStaysOut(sys, checks, i, n - 1, env);
    }
  }

  lemma {:induction false} OrphanStays(sys: System, checks: seq<Check>, i: nat, n: nat, env: Env, id: nat)
    requires i <= n <= |checks| && WeakIndex(sys)
    requires Orphan(EvalPrefix(sys, checks, i, env).sys, id)
    ensures Orphan(EvalPrefix(sys, checks, n, env).sys, id)
    ensures EvalPrefix(sys, checks, n, env).sys.tables.alerts.rows[id].kind
         == EvalPrefix(sys, checks, i, env).sys.tables.alerts.rows[id].kind
    decreases n
  {
    if i < n {
      OrphanStays(sys, checks, i, n - 1, env, id);
      EveryIterationWeak(sys, checks, n - 1, env);
      var p := EvalPrefix(sys, checks, n - 1, env);
      if p.ok {
        StepKeepsOrphan(p, checks[n - 1], n - 1, env, id);
      }
    }
  }

  lemma LostRowStaysOpen(sys: System, checks: seq<Check>, i: nat, env: Env)
    requires i < |checks| && WeakIndex(sys)
    requires LostAt(sys, checks, i, env)
    ensures var id, after := EvalPrefix(sys, checks, i, env).sys.engine.active[checks[i].kind],
                             EvaluateAll(sys, checks, env).sys;
            Orphan(after, id) && after.tables.alerts.rows[id].kind == checks[i].kind
  {
    EveryIterationWeak(sys, checks, i, env);
    var p := EvalPrefix(sys, checks, i, env);
    assert EvalPrefix(sys, checks, i + 1, env) == EvalStep(p, checks[i], i, env);
    OrphanStays(sys, checks, i + 1, |checks|, env, p.sys.engine.active[checks[i].kind]);
  }

  /** A concrete loss: one alert is active, the reading clears, the update fails. The engine
      forgets the alert, and a restart finds it again. */
  lemma LostResolveComesBack(row: Alert, t: Tables, env: Env)
    requires row.kind == "cpu_pct" && Open(row)
    requires t.alerts == Table(map[1 := row], 1) && t.thresholds == map["cpu_pct" := 90.0]
    requires !env.resolveOk(0)
    ensures var sys := System(t, EngineState(t.thresholds, map["cpu_pct" := 1]));
            var after := Evaluate(sys, Metrics(10.0, 0.0, 0.0, [], []), env).sys;
            && Loaded(sys)
            && IsActiveListing(after.tables.alerts.rows, [1])
            && after.engine.active == map[]
            && Reload(after.tables, [1]).active == map["cpu_pct" := 1]
  {
    var sys := System(t, EngineState(t.thresholds, map["cpu_pct" := 1]));
    var checks := Checks(Metrics(10.0, 0.0, 0.0, [], []), sys.engine.thresholds);
    assert |checks| == 3 && checks[0] == ReadingCheck("cpu_pct", 10.0, sys.engine.thresholds);
    var p := EvalPrefix(sys, checks, 0, env);
    assert EvalPrefix(sys, checks, 1, env) == Resolve(p, "cpu_pct", false, env.clock(0));
    assert EvalPrefix(sys, checks, 2, env) == EvalPrefix(sys, checks, 1, env);
    assert EvalPrefix(sys, checks, 3, env) == EvalPrefix(sys, checks, 1, env);
    var after := EvalPrefix(sys, checks, 3, env).sys;
    assert after.engine.active == map[];
    assert Loaded(sys);
    assert IsActiveListing(after.tables.alerts.rows, [1]);
    assert LoadActive(map[], after.tables.alerts.rows, [1][..0]) == map[];
  }
}
