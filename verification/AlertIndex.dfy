/** How the index of active alerts agrees with the table of alerts: at every iteration of an
    evaluation, after a crash, and after a reload. */
module AlertIndex {
  import opened Database
  import opened Alerts

  /** Every entry of the index names an unresolved row of its kind. */
  ghost predicate WeakIndex(sys: System) {
    var rows := sys.tables.alerts.rows;
    && sys.tables.alerts.Valid()
    && (forall k :: k in sys.engine.active ==>
          sys.engine.active[k] in rows && rows[sys.engine.active[k]].kind == k && Open(rows[sys.engine.active[k]]))
  }

  /** An unresolved row the index does not know. */
  ghost predicate Orphan(sys: System, id: nat) {
    var rows := sys.tables.alerts.rows;
    id in rows && Open(rows[id])
    && !(rows[id].kind in sys.engine.active && sys.engine.active[rows[id].kind] == id)
  }

  /** The index holds the unresolved rows and nothing else. */
  ghost predicate ExactIndex(sys: System) {
    WeakIndex(sys) && forall id :: id in sys.tables.alerts.rows ==> !Orphan(sys, id)
  }

  ghost predicate OnePerKind(rows: map<nat, Alert>) {
    forall i, j :: i in rows && j in rows && Open(rows[i]) && Open(rows[j]) && rows[i].kind == rows[j].kind ==> i == j
  }

  ghost function OpenPairs(rows: map<nat, Alert>): set<(string, nat)> {
    set id | id in rows && Open(rows[id]) :: (rows[id].kind, id)
  }

  /** An exact index is precisely the relation between kinds and unresolved rows, and that
      relation is a function. */
  lemma ExactMeansIndex(sys: System)
    requires WeakIndex(sys)
    ensures ExactIndex(sys) <==> sys.engine.active.Items == OpenPairs(sys.tables.alerts.rows)
    ensures ExactIndex(sys) ==> OnePerKind(sys.tables.alerts.rows)
  {
    var rows, active := sys.tables.alerts.rows, sys.engine.active;
    if ExactIndex(sys) {
      forall pair
        ensures pair in active.Items <==> pair in OpenPairs(rows)
      {
        if pair in OpenPairs(rows) {
          assert !Orphan(sys, pair.1);
          assert pair.0 in active && active[pair.0] == pair.1;
        }
        if pair in active.Items {
          assert pair.1 in rows && Open(rows[pair.1]) && rows[pair.1].kind == pair.0;
        }
      }
      forall i | i in rows && Open(rows[i])
        ensures rows[i].kind in active && active[rows[i].kind] == i
      {
        assert !Orphan(sys, i);
      }
    } else {
      var id :| id in rows && Orphan(sys, id);
      assert (rows[id].kind, id) in OpenPairs(rows);
      assert (rows[id].kind, id) !in active.Items;
    }
  }

  // ----- One evaluation --------------------------------------------------------------------

  lemma StepKeepsWeak(p: Progress, c: Check, i: nat, env: Env)
    requires p.ok && WeakIndex(p.sys)
    ensures WeakIndex(EvalStep(p, c, i, env).sys)
  {
  }

  lemma StepKeepsOrphan(p: Progress, c: Check, i: nat, env: Env, id: nat)
    requires p.ok && WeakIndex(p.sys) && Orphan(p.sys, id)
    ensures Orphan(EvalStep(p, c, i, env).sys, id)
    ensures EvalStep(p, c, i, env).sys.tables.alerts.rows[id].kind == p.sys.tables.alerts.rows[id].kind
  {
  }

  /** The step drops an alert from the index while its row stays unresolved. */
  predicate LosesResolve(p: Progress, c: Check, i: nat, env: Env) {
    p.ok && Cleared(c) && c.kind in p.sys.engine.active && !env.resolveOk(i)
  }

  lemma StepExactIff(p: Progress, c: Check, i: nat, env: Env)
    requires p.ok && ExactIndex(p.sys)
    ensures ExactIndex(EvalStep(p, c, i, env).sys) <==> !LosesResolve(p, c, i, env)
  {
    StepKeepsWeak(p, c, i, env);
    var q := EvalStep(p, c, i, env);
    if LosesResolve(p, c, i, env) {
      assert Orphan(q.sys, p.sys.engine.active[c.kind]);
    } else {
      forall id | id in q.sys.tables.alerts.rows
        ensures !Orphan(q.sys, id)
      {
        if id in p.sys.tables.alerts.rows {
          assert !Orphan(p.sys, id);
        }
      }
    }
  }

  /** Whatever fails, every iteration leaves an index whose entries are all right. */
  lemma {:induction false} EveryIterationWeak(sys: System, checks: seq<Check>, n: nat, env: Env)
    requires n <= |checks| && WeakIndex(sys)
    ensures WeakIndex(EvalPrefix(sys, checks, n, env).sys)
  {
    if n > 0 {
      EveryIterationWeak(sys, checks, n - 1, env);
      var p := EvalPrefix(sys, checks, n - 1, env);
      if p.ok {
        StepKeepsWeak(p, checks[n - 1], n - 1, env);
      }
    }
  }

  /** The i-th iteration of an evaluation drops an alert whose row stays unresolved. */
  predicate LostAt(sys: System, checks: seq<Check>, i: nat, env: Env)
    requires i < |checks|
  {
    LosesResolve(EvalPrefix(sys, checks, i, env), checks[i], i, env)
  }

  ghost predicate SomeResolveLost(sys: System, checks: seq<Check>, n: nat, env: Env)
    requires n <= |checks|
  {
    exists i :: 0 <= i < n && LostAt(sys, checks, i, env)
  }

  lemma LostSoFar(sys: System, checks: seq<Check>, n: nat, env: Env)
    requires 0 < n <= |checks|
    ensures SomeResolveLost(sys, checks, n, env)
       <==> SomeResolveLost(sys, checks, n - 1, env) || LostAt(sys, checks, n - 1, env)
  {
  }

  /** One iteration, taken or not, from an exact index or not. */
  lemma ProgressExactIff(p: Progress, c: Check, i: nat, env: Env, q: Progress)
    requires WeakIndex(p.sys) && q == if p.ok then EvalStep(p, c, i, env) else p
    ensures ExactIndex(q.sys) <==> ExactIndex(p.sys) && !LosesResolve(p, c, i, env)
  {
    if ExactIndex(p.sys) {
      if p.ok {
        StepExactIff(p, c, i, env);
      }
    } else {
      var id :| id in p.sys.tables.alerts.rows && Orphan(p.sys, id);
      if p.ok {
        StepKeepsOrphan(p, c, i, env, id);
      }
    }
  }

  lemma PrefixExactIff(sys: System, checks: seq<Check>, n: nat, env: Env)
    requires 0 < n <= |checks| && WeakIndex(sys)
    ensures ExactIndex(EvalPrefix(sys, checks, n, env).sys)
       <==> ExactIndex(EvalPrefix(sys, checks, n - 1, env).sys)
            && !LostAt(sys, checks, n - 1, env)
  {
    EveryIterationWeak(sys, checks, n - 1, env);
    ProgressExactIff(EvalPrefix(sys, checks, n - 1, env), checks[n - 1], n - 1, env, EvalPrefix(sys, checks, n, env));
  }

  /** At every iteration, and after the early return of a failed insertion, the index is
      exact if and only if no resolve attempted so far has failed. */
  lemma {:induction false} EveryIterationExactIff(sys: System, checks: seq<Check>, n: nat, env: Env)
    requires n <= |checks| && ExactIndex(sys)
    ensures ExactIndex(EvalPrefix(sys, checks, n, env).sys) <==> !SomeResolveLost(sys, checks, n, env)
  {
    if n > 0 {
      EveryIterationExactIff(sys, checks, n - 1, env);
      PrefixExactIff(sys, checks, n, env);
      LostSoFar(sys, checks, n, env);
    }
  }

  // ----- Reloading -------------------------------------------------------------------------

  predicate Within(rows: map<nat, Alert>, ids: seq<nat>) {
    forall i :: 0 <= i < |ids| ==> ids[i] in rows
  }

  /** An entry comes from a listed row of its kind. */
  lemma {:induction false} LoadActiveEntry(rows: map<nat, Alert>, ids: seq<nat>, k: string)
    requires Within(rows, ids) && k in LoadActive(map[], rows, ids)
    ensures var id := LoadActive(map[], rows, ids)[k];
            id in ids && rows[id].kind == k
  {
    var n := |ids| - 1;
    if rows[ids[n]].kind != k {
      LoadActiveEntry(rows, ids[..n], k);
    }
  }

  /** Each kind that is listed gets the id of its last listed row. */
  lemma {:induction false} LoadActiveCovers(rows: map<nat, Alert>, ids: seq<nat>, i: nat) returns (j: nat)
    requires Within(rows, ids) && i < |ids|
    ensures i <= j < |ids|
    ensures var k := rows[ids[i]].kind;
            k in LoadActive(map[], rows, ids) && LoadActive(map[], rows, ids)[k] == ids[j]
  {
    var n := |ids| - 1;
    if rows[ids[n]].kind == rows[ids[i]].kind {
      j := n;
    } else {
      assert ids[..n][i] == ids[i];
      j := LoadActiveCovers(rows, ids[..n], i);
    }
  }

  /** Over an engine that has entries already: a kind that is not listed keeps its entry ... */
  lemma {:induction false} LoadKeepsOthers(base: map<string, nat>, rows: map<nat, Alert>, ids: seq<nat>, k: string)
    requires Within(rows, ids) && forall i :: 0 <= i < |ids| ==> rows[ids[i]].kind != k
    ensures var active := LoadActive(base, rows, ids);
            (k in active <==> k in base) && (k in active ==> active[k] == base[k])
  {
    if ids != [] {
      LoadKeepsOthers(base, rows, ids[..|ids| - 1], k);
    }
  }

  /** ... and a kind that is listed gets the id of its last listed row. */
  lemma {:induction false} LoadsLast(base: map<string, nat>, rows: map<nat, Alert>, ids: seq<nat>, i: nat)
    requires Within(rows, ids) && i < |ids|
    requires forall j :: i < j < |ids| ==> rows[ids[j]].kind != rows[ids[i]].kind
    ensures var active, k := LoadActive(base, rows, ids), rows[ids[i]].kind;
            k in active && active[k] == ids[i]
  {
    var n := |ids| - 1;
    if i < n {
      assert ids[..n][i] == ids[i];
      LoadsLast(base, rows, ids[..n], i);
    }
  }

  /** When kinds have several unresolved rows, a reload indexes the oldest of each. */
  lemma ReloadPicksOldest(t: Tables, listing: seq<nat>, id: nat)
    requires IsActiveListing(t.alerts.rows, listing)
    requires id in t.alerts.rows && Open(t.alerts.rows[id])
    ensures var rows, active := t.alerts.rows, Reload(t, listing).active;
            var k := rows[id].kind;
            && k in active && active[k] in rows && Open(rows[active[k]]) && rows[active[k]].kind == k
            && rows[active[k]].firedAt <= rows[id].firedAt
  {
    var rows := t.alerts.rows;
    assert id in listing;
    var i :| 0 <= i < |listing| && listing[i] == id;
    var j := LoadActiveCovers(rows, listing, i);
    LoadActiveEntry(rows, listing, rows[id].kind);
    assert listing[j] in listing;
  }

  lemma ReloadEntry(t: Tables, listing: seq<nat>, k: string)
    requires IsActiveListing(t.alerts.rows, listing)
    requires k in Reload(t, listing).active
    ensures var id := Reload(t, listing).active[k];
            id in t.alerts.rows && Open(t.alerts.rows[id]) && t.alerts.rows[id].kind == k
  {
    LoadActiveEntry(t.alerts.rows, listing, k);
  }

  /** Over a table with one unresolved row per kind, a reload builds the exact index. */
  lemma ReloadIsExact(t: Tables, listing: seq<nat>)
    requires t.alerts.Valid() && OnePerKind(t.alerts.rows)
    requires IsActiveListing(t.alerts.rows, listing)
    ensures ExactIndex(System(t, Reload(t, listing)))
  {
    var sys := System(t, Reload(t, listing));
    forall k | k in sys.engine.active
      ensures sys.engine.active[k] in t.alerts.rows && t.alerts.rows[sys.engine.active[k]].kind == k
      ensures Open(t.alerts.rows[sys.engine.active[k]])
    {
      ReloadEntry(t, listing, k);
    }
    forall id | id in t.alerts.rows
      ensures !Orphan(sys, id)
    {
      if Open(t.alerts.rows[id]) {
        ReloadPicksOldest(t, listing, id);
      }
    }
  }

  /** Two exact indexes over one table are the same map. */
  lemma ExactIndexUnique(t: Tables, e: EngineState, e': EngineState)
    requires ExactIndex(System(t, e)) && ExactIndex(System(t, e'))
    ensures e.active == e'.active
  {
    forall k | k in e.active
      ensures k in e'.active && e'.active[k] == e.active[k]
    {
      assert !Orphan(System(t, e'), e.active[k]);
    }
    forall k | k in e'.active
      ensures k in e.active
    {
      assert !Orphan(System(t, e), e'.active[k]);
    }
  }
}
