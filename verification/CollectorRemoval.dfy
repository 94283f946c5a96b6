/** What becomes of the alert of a check that is deleted. Deleting a check says nothing to the
    engine, so only a tick that already holds a summary of the check can still resolve it. */
module CollectorRemoval {
  import opened Options
  import opened Database
  import opened Alerts
  import opened AlertIndex
  import opened Collector
  import O = CheckerOwnership

  // ----- Serialised runs of the whole program ----------------------------------------------

  ghost predicate SerialRun(w: World, actions: seq<Action>)
    decreases |actions|
  {
    actions == []
    || (Enabled(w, actions[0]) && (actions[0].OfChecker? ==> C.SerialStep(w.checker, actions[0].a))
        && SerialRun(Next(w, actions[0]), actions[1..]))
  }

  /** Nothing but the checker touches its maps, its calls and the table of checks. */
  lemma OwnFrame(s: C.State, t: Tables)
    requires O.Own(s) && t.urlChecks == s.core.tables.urlChecks
    ensures O.Own(s.(core := s.core.(tables := t)))
  {
    O.OwnSameCore(s, s.core.(tables := t));
  }

  lemma OwnInitial(t: Tables)
    requires O.ValidRows(t)
    ensures O.Own(C.Initial(t))
  {
  }

  lemma IterateKeepsChecks(w: World, env: Env)
    requires Enabled(w, Iterate(env))
    ensures IterateProgress(w, env).sys.tables.urlChecks == w.checker.core.tables.urlChecks
  {
  }

  lemma OwnNext(w: World, a: Action)
    requires O.Own(w.checker) && Enabled(w, a) && (a.OfChecker? ==> C.SerialStep(w.checker, a.a))
    ensures O.Own(Next(w, a).checker)
  {
    match a
    case OfChecker(ca) => O.StepOwn(w.checker, ca);
    case Restart(_, _) => OwnInitial(w.checker.core.tables);
    case Iterate(env) =>
      IterateKeepsChecks(w, env);
      OwnFrame(w.checker, Next(w, a).checker.core.tables);
    case _ => OwnFrame(w.checker, Next(w, a).checker.core.tables);
  }

  /** The check has been deleted: its id was handed out once and has no row any more. */
  ghost predicate Gone(w: World, id: nat) {
    O.Own(w.checker) && O.Removed(w.checker, id)
  }

  lemma GoneUnseen(w: World, id: nat)
    requires Gone(w, id)
    ensures id !in w.checker.core.summaries && id !in w.checker.core.checks
  {
    assert O.PlacedId(w.checker, id);
  }

  lemma GoneNext(w: World, a: Action, id: nat)
    requires Gone(w, id) && Enabled(w, a) && (a.OfChecker? ==> C.SerialStep(w.checker, a.a))
    ensures Gone(Next(w, a), id)
  {
    OwnNext(w, a);
    if a.OfChecker? {
      O.StepRemoved(w.checker, a.a, id);
    } else if a.Iterate? {
      IterateKeepsChecks(w, a.env);
    }
  }

  lemma {:induction false} OwnRun(w: World, actions: seq<Action>)
    requires O.Own(w.checker) && ValidRun(w, actions) && SerialRun(w, actions)
    ensures O.Own(Run(w, actions).checker)
    decreases |actions|
  {
    if actions != [] {
      OwnNext(w, actions[0]);
      OwnRun(Next(w, actions[0]), actions[1..]);
    }
  }

  /** When a delete returns in a serialised run of the program, its check is gone. */
  lemma DeletedIsGone(t: Tables, listing: seq<nat>, queries: Queries, actions: seq<Action>, call: nat)
    requires t.alerts.Valid() && IsActiveListing(t.alerts.rows, listing) && O.ValidRows(t)
    requires ValidRun(Boot(t, listing, queries), actions) && SerialRun(Boot(t, listing, queries), actions)
    requires C.Enabled(Run(Boot(t, listing, queries), actions).checker, C.RemoveRow(call, true))
    requires var s := Run(Boot(t, listing, queries), actions).checker;
             1 <= s.pending[call].id <= s.core.tables.urlChecks.lastId
    ensures var w := Run(Boot(t, listing, queries), actions);
            var w' := Next(w, OfChecker(C.RemoveRow(call, true)));
            Inv(w') && Gone(w', w.checker.pending[call].id)
  {
    var w := Run(Boot(t, listing, queries), actions);
    InvBoot(t, listing, queries);
    InvRun(Boot(t, listing, queries), actions);
    OwnInitial(t);
    OwnRun(Boot(t, listing, queries), actions);
    InvNext(w, OfChecker(C.RemoveRow(call, true)));
    OwnNext(w, OfChecker(C.RemoveRow(call, true)));
  }

  // ----- The alert of a deleted check ------------------------------------------------------

  /** The row is an unresolved alert about check id. */
  predicate RowOpen(w: World, id: nat, row: nat) {
    var rows := w.checker.core.tables.alerts.rows;
    row in rows && Open(rows[row]) && rows[row].kind == UrlKind(id)
  }

  predicate Indexed(w: World, id: nat, row: nat) {
    UrlKind(id) in w.engine.active && w.engine.active[UrlKind(id)] == row
  }

  predicate ClearsAt(checks: seq<Check>, k: nat, id: nat)
    requires k < |checks|
  {
    checks[k].kind == UrlKind(id) && Cleared(checks[k])
  }

  /** The tick in progress read a summary of the check that is not down, and its evaluation has
      not come to the check yet. */
  predicate WillClear(w: World, id: nat) {
    match w.phase
    case Snapped(tick) => id in tick.snapshot && !Down(tick.snapshot[id])
    case Evaluating(tick, i, _) =>
      && Collector.Within(tick)
      && exists k :: i <= k < |TickChecks(tick, w.engine.thresholds)| && ClearsAt(TickChecks(tick, w.engine.thresholds), k, id)
    case _ => false
  }

  lemma BeginKeepsFate(w: World, id: nat)
    requires Inv(w) && Enabled(w, BeginEvaluate)
    ensures WillClear(Next(w, BeginEvaluate), id) ==> WillClear(w, id)
  {
    var w' := Next(w, BeginEvaluate);
    var tick := w.phase.tick;
    if WillClear(w', id) {
      var checks := TickChecks(tick, w.engine.thresholds);
      var k :| 0 <= k < |checks| && ClearsAt(checks, k, id);
      KindComesFromSummary(tick, w.engine.thresholds, k, id);
    }
  }

  /** One iteration resolves the row only if it is the active one and its kind has cleared. */
  lemma StepKeepsRow(p: Progress, c: Check, i: nat, env: Env, k: string, row: nat)
    requires p.ok && WeakIndex(p.sys) && R.OpenOfKind(p.sys.tables.alerts.rows, row, k)
    requires !(c.kind == k && Cleared(c) && k in p.sys.engine.active && p.sys.engine.active[k] == row)
    ensures var sys := EvalStep(p, c, i, env).sys;
            && R.OpenOfKind(sys.tables.alerts.rows, row, k)
            && (k in sys.engine.active && sys.engine.active[k] == row ==>
                  k in p.sys.engine.active && p.sys.engine.active[k] == row)
            && (k in p.sys.engine.active && !(c.kind == k && Cleared(c)) ==> k in sys.engine.active)
  {
  }

  /** An iteration over another kind leaves the row active. */
  lemma StepKeepsActive(p: Progress, c: Check, i: nat, env: Env, k: string)
    requires p.ok && c.kind != k && k in p.sys.engine.active
    ensures var sys := EvalStep(p, c, i, env).sys;
            k in sys.engine.active && sys.engine.active[k] == p.sys.engine.active[k]
  {
  }

  lemma IterateKeepsFate(w: World, env: Env, id: nat)
    requires Inv(w) && Enabled(w, Iterate(env))
    ensures WillClear(Next(w, Iterate(env)), id) ==> WillClear(w, id)
  {
  }

  lemma IterateKeepsRow(w: World, env: Env, id: nat, row: nat)
    requires Inv(w) && Enabled(w, Iterate(env)) && RowOpen(w, id, row)
    requires !Doomed(w, id, row)
    ensures RowOpen(Next(w, Iterate(env)), id, row)
    ensures Indexed(Next(w, Iterate(env)), id, row) ==> Indexed(w, id, row)
    ensures !WillClear(w, id) && UrlKind(id) in w.engine.active ==> UrlKind(id) in Next(w, Iterate(env)).engine.active
  {
    var checks, i := TickChecks(w.phase.tick, w.engine.thresholds), w.phase.i;
    assert checks[i].kind == UrlKind(id) && Cleared(checks[i]) ==> ClearsAt(checks, i, id);
    StepKeepsRow(Progress(Sys(w), w.phase.fired, [], true), checks[i], i, env, UrlKind(id), row);
  }

  predicate CompleteLoad(a: Action) {
    a.Restart? ==> a.queries == Queries(true, true)
  }

  predicate Doomed(w: World, id: nat, row: nat) {
    WillClear(w, id) && Indexed(w, id, row)
  }

  lemma RestartKeepsRow(w: World, listing: seq<nat>, queries: Queries, id: nat, row: nat)
    requires RowOpen(w, id, row) && Enabled(w, Restart(listing, queries))
    ensures var w' := Next(w, Restart(listing, queries));
            RowOpen(w', id, row) && !WillClear(w', id)
            && (queries == Queries(true, true) ==> UrlKind(id) in w'.engine.active)
  {
    if queries == Queries(true, true) {
      ReloadPicksOldest(w.checker.core.tables, listing, row);
    }
  }

  /** The steps that neither evaluate nor start a process. */
  lemma OtherKeepsRow(w: World, a: Action, id: nat, row: nat)
    requires RowOpen(w, id, row) && Enabled(w, a) && !a.Iterate? && !a.Restart?
    ensures RowOpen(Next(w, a), id, row) && Next(w, a).engine.active == w.engine.active
  {
    if a.OfChecker? {
      CheckerKeepsAlerts(w.checker, a.a);
    }
  }

  lemma OtherKeepsFate(w: World, a: Action, id: nat)
    requires Inv(w) && Gone(w, id) && Enabled(w, a) && !a.Iterate? && !a.Restart?
    ensures WillClear(Next(w, a), id) ==> WillClear(w, id)
  {
    GoneUnseen(w, id);
    if a.BeginEvaluate? {
      BeginKeepsFate(w, id);
    }
  }

  /** The alert stays unresolved unless the tick in progress is to resolve it. */
  lemma RowStays(w: World, a: Action, id: nat, row: nat)
    requires Inv(w) && Gone(w, id) && RowOpen(w, id, row) && Enabled(w, a) && !Doomed(w, id, row)
    ensures RowOpen(Next(w, a), id, row) && !Doomed(Next(w, a), id, row)
    ensures WillClear(Next(w, a), id) ==> WillClear(w, id)
    ensures !WillClear(w, id) && UrlKind(id) in w.engine.active && CompleteLoad(a) ==>
              UrlKind(id) in Next(w, a).engine.active
  {
    match a
    case Iterate(env) =>
      IterateKeepsFate(w, env, id);
      IterateKeepsRow(w, env, id, row);
    case Restart(listing, queries) => RestartKeepsRow(w, listing, queries, id, row);
    case _ =>
      OtherKeepsRow(w, a, id, row);
      OtherKeepsFate(w, a, id);
  }

  ghost predicate CompleteLoads(actions: seq<Action>) {
    forall i :: 0 <= i < |actions| ==> CompleteLoad(actions[i])
  }

  lemma LoadsSplit(actions: seq<Action>)
    requires actions != []
    ensures CompleteLoads(actions) ==> CompleteLoad(actions[0]) && CompleteLoads(actions[1..])
  {
  }

  /** The alert of a deleted check outlives it: unless the tick in progress is to resolve it, it
      stays an unresolved row through every continuation, restarts and failed loads included;
      and while loads are complete, its kind stays active. */
  lemma {:induction false} AlertOutlivesCheck(w: World, actions: seq<Action>, id: nat, row: nat)
    requires Inv(w) && Gone(w, id) && RowOpen(w, id, row) && !Doomed(w, id, row)
    requires ValidRun(w, actions) && SerialRun(w, actions)
    ensures RowOpen(Run(w, actions), id, row)
    ensures !WillClear(w, id) && UrlKind(id) in w.engine.active && CompleteLoads(actions) ==>
              UrlKind(id) in Run(w, actions).engine.active
    decreases |actions|
  {
    if actions != [] {
      var a, rest := actions[0], actions[1..];
      RowStays(w, a, id, row);
      InvNext(w, a);
      GoneNext(w, a, id);
      AlertOutlivesCheck(Next(w, a), rest, id, row);
      LoadsSplit(actions);
    }
  }

  // ----- Exactly when it clears ------------------------------------------------------------

  const SMOOTH := Env(_ => true, _ => true, _ => 0)

  /** The iterations up to the check of id, and that one. */
  lemma {:induction false} ClearsInTime(w: World, id: nat, row: nat, k: nat) returns (actions: seq<Action>)
    requires Inv(w) && RowOpen(w, id, row) && Indexed(w, id, row) && w.phase.Evaluating?
    requires w.phase.i <= k < |TickChecks(w.phase.tick, w.engine.thresholds)|
    requires ClearsAt(TickChecks(w.phase.tick, w.engine.thresholds), k, id)
    ensures ValidRun(w, actions) && SerialRun(w, actions) && !RowOpen(Run(w, actions), id, row)
    decreases k - w.phase.i
  {
    var w' := Next(w, Iterate(SMOOTH));
    if w.phase.i == k {
      actions := [Iterate(SMOOTH)];
      assert actions[1..] == [];
      assert Run(w, actions) == Run(w', actions[1..]) == w';
    } else {
      NotYet(w, id, row, k);
      InvNext(w, Iterate(SMOOTH));
      var rest := ClearsInTime(w', id, row, k);
      actions := [Iterate(SMOOTH)] + rest;
      assert actions[1..] == rest;
    }
  }

  lemma OtherKind(w: World, id: nat, k: nat)
    requires Inv(w) && w.phase.Evaluating? && w.phase.i < k < |TickChecks(w.phase.tick, w.engine.thresholds)|
    requires ClearsAt(TickChecks(w.phase.tick, w.engine.thresholds), k, id)
    ensures TickChecks(w.phase.tick, w.engine.thresholds)[w.phase.i].kind != UrlKind(id)
  {
    if TickChecks(w.phase.tick, w.engine.thresholds)[w.phase.i].kind == UrlKind(id) {
      UrlSeenOnce(w.phase.tick, id);
      KindsApart(w.phase.tick, w.engine.thresholds, w.phase.i, k);
    }
  }

  /** A smooth iteration over another kind. */
  lemma SmoothStep(p: Progress, c: Check, i: nat, k: string, row: nat)
    requires p.ok && WeakIndex(p.sys) && R.OpenOfKind(p.sys.tables.alerts.rows, row, k) && c.kind != k
    requires k in p.sys.engine.active && p.sys.engine.active[k] == row
    ensures var q := EvalStep(p, c, i, SMOOTH);
            && q.ok && q.sys.engine.thresholds == p.sys.engine.thresholds
            && R.OpenOfKind(q.sys.tables.alerts.rows, row, k)
            && k in q.sys.engine.active && q.sys.engine.active[k] == row
  {
    StepKeepsRow(p, c, i, SMOOTH, k, row);
    StepKeepsActive(p, c, i, SMOOTH, k);
  }

  lemma NotYet(w: World, id: nat, row: nat, k: nat)
    requires Inv(w) && RowOpen(w, id, row) && Indexed(w, id, row) && w.phase.Evaluating?
    requires w.phase.i < k < |TickChecks(w.phase.tick, w.engine.thresholds)|
    requires ClearsAt(TickChecks(w.phase.tick, w.engine.thresholds), k, id)
    ensures var w' := Next(w, Iterate(SMOOTH));
            && RowOpen(w', id, row) && Indexed(w', id, row)
            && w'.phase.Evaluating? && w'.phase.tick == w.phase.tick && w'.phase.i == w.phase.i + 1
            && w'.engine.thresholds == w.engine.thresholds
  {
    OtherKind(w, id, k);
    SmoothStep(Progress(Sys(w), w.phase.fired, [], true), TickChecks(w.phase.tick, w.engine.thresholds)[w.phase.i],
               w.phase.i, UrlKind(id), row);
  }

  lemma ClearingRun(w: World, id: nat, row: nat) returns (actions: seq<Action>)
    requires Inv(w) && RowOpen(w, id, row) && Indexed(w, id, row) && WillClear(w, id)
    ensures ValidRun(w, actions) && SerialRun(w, actions) && !RowOpen(Run(w, actions), id, row)
  {
    if w.phase.Snapped? {
      var w' := Next(w, BeginEvaluate);
      var k := CheckOfSummary(w.phase.tick, w.engine.thresholds, id);
      InvNext(w, BeginEvaluate);
      var rest := ClearsInTime(w', id, row, k);
      actions := [BeginEvaluate] + rest;
      assert actions[1..] == rest;
    } else {
      var checks := TickChecks(w.phase.tick, w.engine.thresholds);
      var k :| w.phase.i <= k < |checks| && ClearsAt(checks, k, id);
      actions := ClearsInTime(w, id, row, k);
    }
  }

  /** From any moment after the delete, some continuation resolves the alert if and only if it
      is the active one of its kind and the tick in progress is to resolve it. */
  lemma AlertClearsIff(w: World, id: nat, row: nat)
    requires Inv(w) && Gone(w, id) && RowOpen(w, id, row)
    ensures (exists actions :: ValidRun(w, actions) && SerialRun(w, actions) && !RowOpen(Run(w, actions), id, row))
       <==> WillClear(w, id) && Indexed(w, id, row)
  {
    if Doomed(w, id, row) {
      var actions := ClearingRun(w, id, row);
    } else {
      forall actions | ValidRun(w, actions) && SerialRun(w, actions)
        ensures RowOpen(Run(w, actions), id, row)
      {
        AlertOutlivesCheck(w, actions, id, row);
      }
    }
  }

  // ----- A run in which it happens ---------------------------------------------------------

  /** `actions` is a serialised run from w0 to w. */
  ghost predicate Leads(w0: World, actions: seq<Action>, w: World) {
    ValidRun(w0, actions) && SerialRun(w0, actions) && Run(w0, actions) == w
  }

  lemma {:induction false} LeadsOn(w0: World, actions: seq<Action>, w: World, a: Action)
    requires Leads(w0, actions, w) && Enabled(w, a) && (a.OfChecker? ==> C.SerialStep(w.checker, a.a))
    ensures Leads(w0, actions + [a], Next(w, a))
    decreases |actions|
  {
    if actions == [] {
      assert [a][1..] == [];
      assert actions + [a] == [a];
    } else {
      assert (actions + [a])[1..] == actions[1..] + [a];
      LeadsOn(Next(w0, actions[0]), actions[1..], w, a);
    }
  }

  lemma CheckerStep(w0: World, actions: seq<Action>, w: World, ca: C.Action) returns (longer: seq<Action>, w': World)
    requires Leads(w0, actions, w) && C.Enabled(w.checker, ca) && C.SerialStep(w.checker, ca)
    ensures Leads(w0, longer, w') && w' == w.(checker := C.Next(w.checker, ca))
  {
    LeadsOn(w0, actions, w, OfChecker(ca));
    longer, w' := actions + [OfChecker(ca)], Next(w, OfChecker(ca));
  }

  const CHECK := URLCheck(1, "http://example.org", "", 60, 10, true)
  const FAILED := URLResult(1, 0, false, None, None, Some("no route"))

  /** Nothing has been alerted, no tick is in progress and no call either. */
  predicate Calm(w: World) {
    && w.phase.Idle? && w.engine == EngineState(SEEDED, map[]) && w.checker.core.tables.alerts == Table(map[], 0)
    && C.Up(w.checker) && w.checker.pending == map[]
  }

  predicate HasCheck(w: World) {
    w.checker.core.tables.urlChecks == Table(map[1 := CHECK], 1)
  }

  const START := Boot(EMPTY, [], Queries(true, true))

  /** The row of the check is in. */
  lemma Inserted() returns (actions: seq<Action>, w: World)
    ensures Leads(START, actions, w) && HasCheck(w)
    ensures w == START.(checker := w.checker)
    ensures w.checker.core == START.checker.core.(tables := InsertURLCheck(EMPTY, CHECK))
    ensures C.Up(w.checker) && w.checker.pending == map[0 := C.AddInserted(CHECK)]
  {
    actions, w := [], START;
    actions, w := CheckerStep(START, actions, w, C.BootList([]));
    actions, w := CheckerStep(START, actions, w, C.BeginAdd(CHECK));
  }

  predicate OneRoutine(w: World) {
    |w.checker.core.routines| == 1 && w.checker.core.routines[0].check == CHECK
  }

  /** Its goroutine runs. */
  lemma Started() returns (actions: seq<Action>, w: World)
    ensures Leads(START, actions, w) && Calm(w) && HasCheck(w) && OneRoutine(w)
    ensures w.checker.core.summaries == map[1 := C.NewSummary(CHECK, true)]
    ensures w.checker.core.routines[0].phase == C.Probing
  {
    actions, w := Inserted();
    actions, w := CheckerStep(START, actions, w, C.AddSummary(0));
    actions, w := CheckerStep(START, actions, w, C.AddStart(0));
    assert w.checker.pending == map[];
  }

  /** It finds the check down, inserts the result and reads the uptime. */
  lemma Recorded() returns (actions: seq<Action>, w: World)
    ensures Leads(START, actions, w) && Calm(w) && HasCheck(w) && OneRoutine(w)
    ensures w.checker.core.summaries == map[1 := C.NewSummary(CHECK, true)]
    ensures var g := w.checker.core.routines[0]; g.phase.Measured? && !g.phase.result.row.up
  {
    actions, w := Started();
    actions, w := CheckerStep(START, actions, w, C.Probe(0, FAILED));
    actions, w := CheckerStep(START, actions, w, C.Insert(0, true));
    actions, w := CheckerStep(START, actions, w, C.Measure(0, 0, true));
  }

  /** The result is stored, and the summary says the check is down. */
  lemma FoundDown() returns (actions: seq<Action>, w: World)
    ensures Leads(START, actions, w) && Calm(w) && HasCheck(w)
    ensures w.checker.core.summaries.Keys == {1} && w.checker.core.summaries[1].check == CHECK && Down(w.checker.core.summaries[1])
  {
    actions, w := Recorded();
    actions, w := CheckerStep(START, actions, w, C.Store(0));
  }

  const HOST := Host(0.0, 0.0, 0.0, [])

  /** What the tick reads. */
  predicate SeesDown(tick: Tick) {
    && tick.host == HOST && tick.order == [1] && tick.snapshot.Keys == {1}
    && tick.snapshot[1].check == CHECK && Down(tick.snapshot[1])
  }

  /** The first three checks read zero, the fourth is of the check. */
  lemma FourChecks(tick: Tick)
    requires SeesDown(tick)
    ensures Collector.Within(tick) && |TickChecks(tick, SEEDED)| == 4
    ensures forall i :: 0 <= i < 3 ==> TickChecks(tick, SEEDED)[i].value == 0.0 < TickChecks(tick, SEEDED)[i].threshold
    ensures TickChecks(tick, SEEDED)[3].kind == UrlKind(1) && Breached(TickChecks(tick, SEEDED)[3])
  {
  }

  /** The evaluation has come to check i without anything to do. */
  predicate QuietSoFar(w: World, tick: Tick, i: nat) {
    && SeesDown(tick) && w.phase == Evaluating(tick, i, []) && w.engine == EngineState(SEEDED, map[])
    && w.checker.core.tables.alerts == Table(map[], 0) && C.Up(w.checker) && w.checker.pending == map[] && HasCheck(w)
  }

  lemma QuietIteration(w: World, tick: Tick, i: nat)
    requires QuietSoFar(w, tick, i) && i < 3
    ensures Enabled(w, Iterate(SMOOTH)) && QuietSoFar(Next(w, Iterate(SMOOTH)), tick, i + 1)
  {
    FourChecks(tick);
  }

  /** The alert is out, and the tick goes on. */
  predicate AlertOut(w: World) {
    && RowOpen(w, 1, 1) && UrlKind(1) in w.engine.active
    && C.Up(w.checker) && w.checker.pending == map[] && HasCheck(w)
  }

  lemma FiringIteration(w: World, tick: Tick)
    requires QuietSoFar(w, tick, 3)
    ensures Enabled(w, Iterate(SMOOTH))
    ensures var w' := Next(w, Iterate(SMOOTH));
            AlertOut(w') && w'.phase.Evaluating? && w'.phase.tick == tick && w'.phase.i == 4 && |w'.phase.fired| == 1
            && w'.engine.thresholds == SEEDED
  {
    FourChecks(tick);
  }

  /** A tick reads the summary and begins its evaluation. */
  lemma Evaluated() returns (actions: seq<Action>, w: World, tick: Tick)
    ensures Leads(START, actions, w) && QuietSoFar(w, tick, 0)
  {
    actions, w := FoundDown();
    tick := Tick(HOST, w.checker.core.summaries, [1]);
    LeadsOn(START, actions, w, Snapshot(HOST, [1]));
    actions, w := actions + [Snapshot(HOST, [1])], Next(w, Snapshot(HOST, [1]));
    LeadsOn(START, actions, w, BeginEvaluate);
    actions, w := actions + [BeginEvaluate], Next(w, BeginEvaluate);
  }

  /** Its fourth check fires. */
  lemma Fired() returns (actions: seq<Action>, w: World)
    ensures Leads(START, actions, w) && AlertOut(w)
    ensures w.phase.Evaluating? && SeesDown(w.phase.tick) && w.phase.i == 4 && |w.phase.fired| == 1
    ensures w.engine.thresholds == SEEDED
  {
    var tick;
    actions, w, tick := Evaluated();
    for i := 0 to 3
      invariant Leads(START, actions, w) && QuietSoFar(w, tick, i)
    {
      QuietIteration(w, tick, i);
      LeadsOn(START, actions, w, Iterate(SMOOTH));
      actions, w := actions + [Iterate(SMOOTH)], Next(w, Iterate(SMOOTH));
    }
    FiringIteration(w, tick);
    LeadsOn(START, actions, w, Iterate(SMOOTH));
    actions, w := actions + [Iterate(SMOOTH)], Next(w, Iterate(SMOOTH));
  }

  /** The tick ends, and the alert has been broadcast. */
  lemma Alerted() returns (actions: seq<Action>, w: World)
    ensures Leads(START, actions, w) && AlertOut(w) && w.phase.Idle?
  {
    actions, w := Fired();
    FourChecks(w.phase.tick);
    LeadsOn(START, actions, w, EndEvaluate);
    actions, w := actions + [EndEvaluate], Next(w, EndEvaluate);
    LeadsOn(START, actions, w, BroadcastOne);
    actions, w := actions + [BroadcastOne], Next(w, BroadcastOne);
    LeadsOn(START, actions, w, EndTick);
    actions, w := actions + [EndTick], Next(w, EndTick);
  }

  /** The check is deleted. */
  lemma Deleted() returns (actions: seq<Action>, w: World)
    ensures Leads(START, actions, w) && w.phase.Idle? && RowOpen(w, 1, 1) && UrlKind(1) in w.engine.active
    ensures O.Removed(w.checker, 1)
  {
    actions, w := Alerted();
    var call := w.checker.nextCall;
    actions, w := CheckerStep(START, actions, w, C.RemoveStop(1));
    actions, w := CheckerStep(START, actions, w, C.RemoveSummary(call));
    actions, w := CheckerStep(START, actions, w, C.RemoveRow(call, true));
  }

  lemma LedIsSound(actions: seq<Action>, w: World)
    requires Leads(START, actions, w)
    ensures Inv(w) && O.Own(w.checker)
  {
    InvBoot(EMPTY, [], Queries(true, true));
    InvRun(START, actions);
    OwnInitial(EMPTY);
    OwnRun(START, actions);
  }

  /** From a new database: a check is created, found down, alerted and deleted, and whatever the
      program does from then on its alert is unresolved. */
  lemma DeletedCheckStaysAlerted() returns (actions: seq<Action>)
    ensures ValidRun(START, actions)
    ensures var w := Run(START, actions);
            && Gone(w, 1) && UrlKind(1) in w.engine.active
            && forall later :: ValidRun(w, later) && SerialRun(w, later) ==> RowOpen(Run(w, later), 1, 1)
  {
    var w;
    actions, w := Deleted();
    LedIsSound(actions, w);
    forall later | ValidRun(w, later) && SerialRun(w, later)
      ensures RowOpen(Run(w, later), 1, 1)
    {
      AlertOutlivesCheck(w, later, 1, 1);
    }
  }
}
