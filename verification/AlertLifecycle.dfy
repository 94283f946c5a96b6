/** The life of each kind over whole runs: fire, resolve, fire, ... with matching ids, and ids
    that only grow. */
module AlertLifecycle {
  import opened Options
  import opened Alerts
  import opened AlertRuns

  /** The active alert of a kind, if there is one. */
  function ActiveId(sys: System, k: string): Option<nat> {
    if k in sys.engine.active then Some(sys.engine.active[k]) else None
  }

  /** Follows one kind through a history: the alert that is active afterwards. */
  function After(cur: Option<nat>, log: seq<Entry>, k: string): Option<nat>
    decreases |log|
  {
    if log == [] then cur
    else if log[0].kind != k then After(cur, log[1..], k)
    else After(if log[0].Fired? then Some(log[0].id) else None, log[1..], k)
  }

  /** The entries of a kind strictly alternate, and each resolve is of the alert just fired. */
  predicate Alternates(cur: Option<nat>, log: seq<Entry>, k: string)
    decreases |log|
  {
    log == [] ||
    if log[0].kind != k then Alternates(cur, log[1..], k)
    else if log[0].Fired? then cur.None? && Alternates(Some(log[0].id), log[1..], k)
    else cur == Some(log[0].id) && Alternates(None, log[1..], k)
  }

  function Fires(log: seq<Entry>, k: string): nat {
    if log == [] then 0 else (if log[0].Fired? && log[0].kind == k then 1 else 0) + Fires(log[1..], k)
  }

  function Resolves(log: seq<Entry>, k: string): nat {
    if log == [] then 0 else (if log[0].Resolved? && log[0].kind == k then 1 else 0) + Resolves(log[1..], k)
  }

  function One(cur: Option<nat>): nat {
    if cur.Some? then 1 else 0
  }

  /** Ids fired along the history exceed `low` and each other. */
  predicate Increasing(low: nat, log: seq<Entry>)
    decreases |log|
  {
    log == [] ||
    if log[0].Fired? then log[0].id > low && Increasing(log[0].id, log[1..]) else Increasing(low, log[1..])
  }

  function Top(low: nat, log: seq<Entry>): nat
    decreases |log|
  {
    if log == [] then low else Top(if log[0].Fired? then log[0].id else low, log[1..])
  }

  lemma {:induction false} HistoryAppend(cur: Option<nat>, a: seq<Entry>, b: seq<Entry>, k: string)
    ensures After(cur, a + b, k) == After(After(cur, a, k), b, k)
    ensures Alternates(cur, a + b, k) <==> Alternates(cur, a, k) && Alternates(After(cur, a, k), b, k)
    decreases |a|
  {
    if a == [] {
      assert a + b == b;
    } else {
      assert (a + b)[1..] == a[1..] + b;
      HistoryAppend(if a[0].kind != k then cur else if a[0].Fired? then Some(a[0].id) else None, a[1..], b, k);
    }
  }

  lemma {:induction false} IncreasingAppend(low: nat, a: seq<Entry>, b: seq<Entry>)
    ensures Top(low, a + b) == Top(Top(low, a), b)
    ensures Increasing(low, a + b) <==> Increasing(low, a) && Increasing(Top(low, a), b)
    decreases |a|
  {
    if a == [] {
      assert a + b == b;
    } else {
      assert (a + b)[1..] == a[1..] + b;
      IncreasingAppend(if a[0].Fired? then a[0].id else low, a[1..], b);
    }
  }

  /** Conservation: fires and resolves of an alternating kind differ by its activity. */
  lemma {:induction false} FiresMinusResolves(cur: Option<nat>, log: seq<Entry>, k: string)
    requires Alternates(cur, log, k)
    ensures One(cur) + Fires(log, k) == One(After(cur, log, k)) + Resolves(log, k)
    decreases |log|
  {
    if log != [] {
      FiresMinusResolves(if log[0].kind != k then cur else if log[0].Fired? then Some(log[0].id) else None, log[1..], k);
    }
  }

  lemma {:induction false} LaterIdsAreLarger(low: nat, log: seq<Entry>, i: nat, j: nat)
    requires Increasing(low, log) && i < j < |log| && log[i].Fired? && log[j].Fired?
    ensures log[i].id < log[j].id
    decreases |log|
  {
    if i > 0 {
      LaterIdsAreLarger(if log[0].Fired? then log[0].id else low, log[1..], i - 1, j - 1);
    } else {
      AboveLow(log[0].id, log[1..], j - 1);
    }
  }

  lemma {:induction false} AboveLow(low: nat, log: seq<Entry>, j: nat)
    requires Increasing(low, log) && j < |log| && log[j].Fired?
    ensures low < log[j].id
    decreases |log|
  {
    if j > 0 {
      AboveLow(if log[0].Fired? then log[0].id else low, log[1..], j - 1);
    }
  }

  // ----- One evaluation --------------------------------------------------------------------

  lemma AppendOne(cur: Option<nat>, log: seq<Entry>, e: Entry, k: string)
    ensures After(cur, log + [e], k)
         == if e.kind != k then After(cur, log, k) else if e.Fired? then Some(e.id) else None
    ensures Alternates(cur, log + [e], k)
       <==> Alternates(cur, log, k)
            && (e.kind == k ==> After(cur, log, k) == if e.Fired? then None else Some(e.id))
  {
    HistoryAppend(cur, log, [e], k);
  }

  lemma {:induction false} PrefixHistory(sys: System, checks: seq<Check>, n: nat, env: Env, k: string)
    requires n <= |checks|
    ensures var p := EvalPrefix(sys, checks, n, env);
            Alternates(ActiveId(sys, k), p.log, k) && After(ActiveId(sys, k), p.log, k) == ActiveId(p.sys, k)
  {
    if n > 0 {
      PrefixHistory(sys, checks, n - 1, env, k);
      var p, c := EvalPrefix(sys, checks, n - 1, env), checks[n - 1];
      if p.ok {
        AppendOne(ActiveId(sys, k), p.log, Fired(c.kind, p.sys.tables.alerts.lastId + 1), k);
        if c.kind in p.sys.engine.active {
          AppendOne(ActiveId(sys, k), p.log, Resolved(c.kind, p.sys.engine.active[c.kind]), k);
        }
      }
    }
  }

  lemma {:induction false} PrefixIds(sys: System, checks: seq<Check>, n: nat, env: Env)
    requires n <= |checks|
    ensures var p := EvalPrefix(sys, checks, n, env);
            && Increasing(sys.tables.alerts.lastId, p.log)
            && Top(sys.tables.alerts.lastId, p.log) == p.sys.tables.alerts.lastId
  {
    if n > 0 {
      PrefixIds(sys, checks, n - 1, env);
      var p, c := EvalPrefix(sys, checks, n - 1, env), checks[n - 1];
      if p.ok {
        var low := sys.tables.alerts.lastId;
        IncreasingAppend(low, p.log, [Fired(c.kind, p.sys.tables.alerts.lastId + 1)]);
        if c.kind in p.sys.engine.active {
          IncreasingAppend(low, p.log, [Resolved(c.kind, p.sys.engine.active[c.kind])]);
        }
      }
    }
  }

  // ----- Whole runs ------------------------------------------------------------------------

  lemma ExecHistory(sys: System, op: Op, k: string)
    requires Loaded(sys) && ValidOp(sys, op) && Faultless(sys, op)
    ensures var o := Exec(sys, op);
            Alternates(ActiveId(sys, k), o.log, k) && After(ActiveId(sys, k), o.log, k) == ActiveId(o.sys, k)
  {
    match op
    case DoEvaluate(m, env) =>
      var checks := Checks(m, sys.engine.thresholds);
      PrefixHistory(sys, checks, |checks|, env, k);
    case Restart(listing, queries) =>
      RestartTransparentIff(sys, listing, queries);
    case Crash(m, env, n, listing, queries) =>
      PrefixHistory(sys, Checks(m, sys.engine.thresholds), CrashLength(sys, m, n), env, k);
      CrashIsAReload(sys, m, env, n, listing, queries);
    case _ =>
  }

  lemma ExecIds(sys: System, op: Op)
    requires ValidOp(sys, op)
    ensures var o := Exec(sys, op);
            && Increasing(sys.tables.alerts.lastId, o.log)
            && Top(sys.tables.alerts.lastId, o.log) == o.sys.tables.alerts.lastId
  {
    match op
    case DoEvaluate(m, env) =>
      var checks := Checks(m, sys.engine.thresholds);
      PrefixIds(sys, checks, |checks|, env);
    case Crash(m, env, n, _, _) =>
      PrefixIds(sys, Checks(m, sys.engine.thresholds), CrashLength(sys, m, n), env);
    case _ =>
  }

  /** Over every faultless run with purges, restarts and crashes, each kind fires and resolves in strict
      alternation, every resolve is of the alert fired last, and the kind is active at the end
      exactly when it has one more fire than resolves (counting an alert active at the start). */
  lemma {:induction false} KindsAlternate(sys: System, ops: seq<Op>, k: string)
    requires Loaded(sys) && ValidRun(sys, ops) && FaultlessRun(sys, ops)
    ensures var o := Run(sys, ops);
            && Alternates(ActiveId(sys, k), o.log, k)
            && After(ActiveId(sys, k), o.log, k) == ActiveId(o.sys, k)
            && One(ActiveId(sys, k)) + Fires(o.log, k) == One(ActiveId(o.sys, k)) + Resolves(o.log, k)
    decreases |ops|
  {
    if ops != [] {
      var first := Exec(sys, ops[0]);
      ExecHistory(sys, ops[0], k);
      ExecLoadedIff(sys, ops[0]);
      KindsAlternate(first.sys, ops[1..], k);
      HistoryAppend(ActiveId(sys, k), first.log, Run(first.sys, ops[1..]).log, k);
      FiresMinusResolves(ActiveId(sys, k), Run(sys, ops).log, k);
    }
  }

  /** The ids of the alerts fired in a run strictly increase, whatever fails, is purged or
      crashes: an id is never used twice. */
  lemma {:induction false} FiredIdsIncrease(sys: System, ops: seq<Op>)
    requires ValidRun(sys, ops)
    ensures var o := Run(sys, ops);
            && Increasing(sys.tables.alerts.lastId, o.log)
            && Top(sys.tables.alerts.lastId, o.log) == o.sys.tables.alerts.lastId
            && (forall i, j :: 0 <= i < j < |o.log| && o.log[i].Fired? && o.log[j].Fired? ==> o.log[i].id < o.log[j].id)
    decreases |ops|
  {
    if ops != [] {
      var first := Exec(sys, ops[0]);
      ExecIds(sys, ops[0]);
      FiredIdsIncrease(first.sys, ops[1..]);
      IncreasingAppend(sys.tables.alerts.lastId, first.log, Run(first.sys, ops[1..]).log);
    }
    var log := Run(sys, ops).log;
    forall i, j | 0 <= i < j < |log| && log[i].Fired? && log[j].Fired?
      ensures log[i].id < log[j].id
    {
      LaterIdsAreLarger(sys.tables.alerts.lastId, log, i, j);
    }
  }
}
