/** The in-memory history of a check against the results table. */
module CheckerHistory {
  import opened Options
  import opened Database
  import opened Checker
  import opened CheckerSafety
  import opened CheckerOwnership

  function ResultRows(c: Core): map<nat, URLResult> {
    c.tables.urlResults.rows
  }

  predicate Flying(p: Phase) {
    p.Inserted? || p.Measured?
  }

  /** Goroutine g has inserted a result of check `id` and not stored it yet. */
  predicate FlyingFor(c: Core, g: int, id: nat) {
    0 <= g < |c.routines| && c.routines[g].check.id == id && Flying(c.routines[g].phase)
  }

  predicate Backed(c: Core, result: Result, rowId: Option<nat>) {
    rowId.Some? && rowId.value in ResultRows(c) && ResultRows(c)[rowId.value] == result.row
  }

  ghost predicate InLog(log: seq<Stored>, r: nat) {
    exists i :: 0 <= i < |log| && log[i].rowId == Some(r)
  }

  ghost predicate InFlight(c: Core, id: nat, r: nat) {
    exists g :: FlyingFor(c, g, id) && c.routines[g].phase.rowId == Some(r)
  }

  /** The rows of a check are its stored results and those in flight, each once. */
  ghost predicate Agrees(c: Core, id: nat, log: seq<Stored>) {
    && (forall i :: 0 <= i < |log| ==> Backed(c, log[i].result, log[i].rowId))
    && (forall i, j :: 0 <= i < j < |log| ==> log[i].rowId != log[j].rowId)
    && (forall g :: FlyingFor(c, g, id) ==>
          Backed(c, c.routines[g].phase.result, c.routines[g].phase.rowId) && !InLog(log, c.routines[g].phase.rowId.value))
    && (forall g, h :: FlyingFor(c, g, id) && FlyingFor(c, h, id) && g != h ==>
          c.routines[g].phase.rowId != c.routines[h].phase.rowId)
    && (forall r :: r in ResultRows(c) && ResultRows(c)[r].checkId == id ==> InLog(log, r) || InFlight(c, id, r))
  }

  predicate Referenced(t: Tables, r: nat)
    requires r in t.urlResults.rows
  {
    t.urlResults.rows[r].checkId in t.urlChecks.rows
  }

  ghost predicate TableOk(c: Core) {
    c.tables.urlResults.Valid() && forall r :: r in c.tables.urlResults.rows ==> Referenced(c.tables, r)
  }

  ghost predicate HistoryInv(s: State) {
    && Own(s) && SummariesOk(s.core) && TableOk(s.core)
    && (forall id :: id in s.core.summaries && s.core.summaries[id].added ==> Agrees(s.core, id, s.core.summaries[id].log))
    && (forall p :: p in s.pending && s.pending[p].AddInserted? ==> Agrees(s.core, s.pending[p].check.id, []))
  }

  /** Serialised calls, every insertion of a result succeeds, and nothing is purged. */
  ghost predicate LosslessStep(s: State, a: Action) {
    SerialStep(s, a) && (a.Insert? ==> a.ok) && !a.PurgeResults?
  }

  ghost predicate LosslessRun(s: State, actions: seq<Action>)
    decreases |actions|
  {
    actions == []
    || (Enabled(s, actions[0]) && LosslessStep(s, actions[0]) && LosslessRun(Next(s, actions[0]), actions[1..]))
  }

  // ----- Steps -----------------------------------------------------------------------------

  /** Nothing the agreement of check `id` speaks of has changed. */
  ghost predicate SameFor(c: Core, c': Core, id: nat) {
    && (forall r :: r in ResultRows(c) && ResultRows(c)[r].checkId == id ==> r in ResultRows(c') && ResultRows(c')[r] == ResultRows(c)[r])
    && (forall r :: r in ResultRows(c') && ResultRows(c')[r].checkId == id ==> r in ResultRows(c) && ResultRows(c')[r] == ResultRows(c)[r])
    && (forall g :: FlyingFor(c, g, id) <==> FlyingFor(c', g, id))
    && (forall g :: FlyingFor(c, g, id) ==>
          c'.routines[g].phase.rowId == c.routines[g].phase.rowId && c'.routines[g].phase.result == c.routines[g].phase.result)
  }

  lemma FrameAgrees(c: Core, c': Core, id: nat, log: seq<Stored>)
    requires Agrees(c, id, log) && SameFor(c, c', id)
    requires forall i :: 0 <= i < |log| ==> ResultOf(id, log[i].result)
    requires forall g :: FlyingFor(c, g, id) ==> ResultOf(id, c.routines[g].phase.result)
    ensures Agrees(c', id, log)
  {
    forall r | r in ResultRows(c') && ResultRows(c')[r].checkId == id
      ensures InLog(log, r) || InFlight(c', id, r)
    {
      if !InLog(log, r) {
        var g :| FlyingFor(c, g, id) && c.routines[g].phase.rowId == Some(r);
        assert FlyingFor(c', g, id);
      }
    }
  }

  lemma FlyingResults(c: Core, id: nat)
    requires SummariesOk(c)
    ensures forall g :: FlyingFor(c, g, id) ==> ResultOf(id, c.routines[g].phase.result)
  {
    forall g | FlyingFor(c, g, id)
      ensures ResultOf(id, c.routines[g].phase.result)
    {
      assert PhaseOf(c.routines[g].check.id, c.routines[g].phase);
    }
  }

  lemma InsertAgrees(c: Core, g: nat, c': Core, id: nat, log: seq<Stored>)
    requires Agrees(c, id, log) && TableOk(c) && SummariesOk(c)
    requires g < |c.routines| && c.routines[g].phase.Probed?
    requires c.routines[g].check.id == id ==> id in Rows(c)
    requires forall i :: 0 <= i < |log| ==> ResultOf(id, log[i].result)
    requires var r := c.routines[g].phase.result;
             c' == if r.row.checkId in Rows(c)
                   then SetPhase(c, g, Inserted(r, Some(c.tables.urlResults.lastId + 1))).(tables := InsertURLResult(c.tables, r.row))
                   else SetPhase(c, g, Inserted(r, None))
    ensures Agrees(c', id, log)
  {
    var r := c.routines[g].phase.result;
    assert PhaseOf(c.routines[g].check.id, c.routines[g].phase);
    FlyingResults(c, id);
    if c.routines[g].check.id != id {
      assert r.row.checkId != id;
      FrameAgrees(c, c', id, log);
    } else {
      NewRowAgrees(c, g, c', id, log);
    }
  }

  lemma NewRowAgrees(c: Core, g: nat, c': Core, id: nat, log: seq<Stored>)
    requires Agrees(c, id, log) && c.tables.urlResults.Valid()
    requires g < |c.routines| && c.routines[g].phase.Probed? && c.routines[g].check.id == id
    requires var r := c.routines[g].phase.result;
             r.row.checkId == id && id in Rows(c) &&
             c' == SetPhase(c, g, Inserted(r, Some(c.tables.urlResults.lastId + 1))).(tables := InsertURLResult(c.tables, r.row))
    ensures Agrees(c', id, log)
  {
    var n := c.tables.urlResults.lastId + 1;
    assert forall h :: FlyingFor(c', h, id) <==> FlyingFor(c, h, id) || h == g;
    assert FlyingFor(c', g, id) && c'.routines[g].phase.rowId == Some(n);
    forall r | r in ResultRows(c') && ResultRows(c')[r].checkId == id
      ensures InLog(log, r) || InFlight(c', id, r)
    {
      if r != n && !InLog(log, r) {
        var h :| FlyingFor(c, h, id) && c.routines[h].phase.rowId == Some(r);
        assert FlyingFor(c', h, id);
      }
    }
  }

  lemma LandedAgrees(c: Core, g: nat, c': Core, id: nat, log: seq<Stored>)
    requires Agrees(c, id, log) && FlyingFor(c, g, id)
    requires c'.routines == c.routines[g := c.routines[g].(phase := Waiting)] && c'.tables == c.tables
    ensures Agrees(c', id, [Stored(c.routines[g].phase.result, c.routines[g].phase.rowId)] + log)
  {
    var entry := Stored(c.routines[g].phase.result, c.routines[g].phase.rowId);
    var log' := [entry] + log;
    assert forall h :: FlyingFor(c', h, id) <==> FlyingFor(c, h, id) && h != g;
    assert log'[0] == entry && log'[1..] == log;
    forall r: nat
      ensures InLog(log', r) <==> InLog(log, r) || entry.rowId == Some(r)
    {
      LogCons(entry, log, r);
    }
    forall i, j | 0 <= i < j < |log'|
      ensures log'[i].rowId != log'[j].rowId
    {
      assert log'[j] == log[j - 1];
      assert InLog(log, log[j - 1].rowId.value);
    }
    forall r | r in ResultRows(c') && ResultRows(c')[r].checkId == id
      ensures InLog(log', r) || InFlight(c', id, r)
    {
      if !InLog(log, r) {
        var h :| FlyingFor(c, h, id) && c.routines[h].phase.rowId == Some(r);
        if h != g {
          assert FlyingFor(c', h, id);
        }
      }
    }
  }

  lemma LogCons(entry: Stored, log: seq<Stored>, r: nat)
    ensures InLog([entry] + log, r) <==> InLog(log, r) || entry.rowId == Some(r)
  {
    var log' := [entry] + log;
    if i :| 0 <= i < |log| && log[i].rowId == Some(r) {
      assert log'[i + 1].rowId == Some(r);
    }
    assert log'[0] == entry;
  }

  lemma StoreAgrees(c: Core, g: nat, c': Core, id: nat)
    requires id in c.summaries && SummaryOk(id, c.summaries[id]) && Agrees(c, id, c.summaries[id].log)
    requires g < |c.routines| && c.routines[g].phase.Measured?
    requires forall h :: FlyingFor(c, h, id) ==> ResultOf(id, c.routines[h].phase.result)
    requires var ph := c.routines[g].phase;
             c' == SetPhase(StoreSection(c, c.routines[g].check.id, ph.result, ph.rowId, ph.uptime), g, Waiting)
    ensures id in c'.summaries && Agrees(c', id, c'.summaries[id].log)
  {
    if c.routines[g].check.id == id {
      LandedAgrees(c, g, c', id, c.summaries[id].log);
    } else {
      assert forall h :: FlyingFor(c', h, id) <==> FlyingFor(c, h, id);
      FrameAgrees(c, c', id, c.summaries[id].log);
    }
  }

  /** Steps of goroutines other than inserting and storing. */
  lemma QuietSameFor(c: Core, a: Action, id: nat)
    requires RoutineEnabled(c, a) && !a.Insert? && !a.Store?
    ensures SameFor(c, RoutineNext(c, a), id) && RoutineNext(c, a).summaries == c.summaries
  {
    var c' := RoutineNext(c, a);
    assert c'.routines == c.routines[a.g := c.routines[a.g].(phase := c'.routines[a.g].phase)];
  }

  lemma CallSameFor(s: State, a: Action, id: nat)
    requires Enabled(s, a) && !OfRoutine(a) && !a.PurgeResults?
    requires a.RemoveRow? ==> s.pending[a.call].id != id
    ensures SameFor(s.core, Next(s, a).core, id)
  {
    CallRows(s, a);
    CallRoutines(s, a);
  }

  /** A call changes results only by deleting those of its check. */
  lemma CallRows(s: State, a: Action)
    requires Enabled(s, a) && !OfRoutine(a) && !a.PurgeResults?
    ensures ResultRows(Next(s, a).core)
         == if a.RemoveRow? && a.ok then ResultRows(DeletedCheck(s.core, s.pending[a.call].id)) else ResultRows(s.core)
  {
  }

  function DeletedCheck(c: Core, id: nat): Core {
    c.(tables := DeleteURLCheck(c.tables, id))
  }

  /** A call changes the goroutines only by adding one. */
  lemma CallRoutines(s: State, a: Action)
    requires Enabled(s, a) && !OfRoutine(a)
    ensures |s.core.routines| <= |Next(s, a).core.routines| <= |s.core.routines| + 1
    ensures forall g :: 0 <= g < |s.core.routines| ==> Next(s, a).core.routines[g] == s.core.routines[g]
    ensures |Next(s, a).core.routines| > |s.core.routines| ==> Next(s, a).core.routines[|s.core.routines|].phase == Probing
  {
  }

  /** Summaries that are added are kept as they are, or are as they were before. */
  ghost predicate LogsKept(c: Core, c': Core, id: nat) {
    id in c'.summaries && c'.summaries[id].added ==>
      id in c.summaries && c.summaries[id].added && c'.summaries[id].log == c.summaries[id].log
  }

  lemma StartKeepsLogs(s: State, a: Action, id: nat)
    requires Enabled(s, a) && StartsOrStops(a)
    ensures LogsKept(s.core, Next(s, a).core, id)
  {
  }

  lemma OtherKeepsLogs(s: State, a: Action, id: nat)
    requires Enabled(s, a) && !StartsOrStops(a) && !OfRoutine(a) && !a.AddSummary?
    ensures LogsKept(s.core, Next(s, a).core, id)
  {
  }

  /** No call rewrites the log of a summary it keeps. */
  lemma CallKeepsLogs(s: State, a: Action, id: nat)
    requires Enabled(s, a) && !OfRoutine(a) && id in Next(s, a).core.summaries && Next(s, a).core.summaries[id].added
    ensures (id in s.core.summaries && s.core.summaries[id].added && Next(s, a).core.summaries[id].log == s.core.summaries[id].log)
         || (a.AddSummary? && s.pending[a.call].check.id == id && Next(s, a).core.summaries[id].log == [])
  {
    if StartsOrStops(a) {
      StartKeepsLogs(s, a, id);
    } else if !a.AddSummary? {
      OtherKeepsLogs(s, a, id);
    }
  }

  /** What the agreement of one summary rests on. */
  ghost predicate AgreesAt(c: Core, id: nat) {
    && id in c.summaries && c.summaries[id].added && id in Rows(c)
    && SummaryOk(id, c.summaries[id]) && Agrees(c, id, c.summaries[id].log)
    && (forall g :: FlyingFor(c, g, id) ==> ResultOf(id, c.routines[g].phase.result))
  }

  lemma HistoryMeansAgrees(s: State, id: nat)
    requires HistoryInv(s) && id in s.core.summaries && s.core.summaries[id].added
    ensures AgreesAt(s.core, id)
  {
    assert PlacedId(s, id);
    FlyingResults(s.core, id);
  }

  lemma CallHistory(s: State, a: Action, id: nat)
    requires HistoryInv(s) && Enabled(s, a) && LosslessStep(s, a) && !OfRoutine(a)
    requires id in Next(s, a).core.summaries && Next(s, a).core.summaries[id].added
    ensures Agrees(Next(s, a).core, id, Next(s, a).core.summaries[id].log)
  {
    CallKeepsLogs(s, a, id);
    if a.RemoveRow? {
      assert StageOk(s.core, s.pending[a.call]);
    }
    CallSameFor(s, a, id);
    FlyingResults(s.core, id);
    if id in s.core.summaries {
      assert SummaryOk(id, s.core.summaries[id]);
    }
    FrameAgrees(s.core, Next(s, a).core, id, Next(s, a).core.summaries[id].log);
  }

  lemma InsertHistory(c: Core, g: nat, id: nat)
    requires RoutineEnabled(c, Insert(g, true)) && AgreesAt(c, id) && TableOk(c) && SummariesOk(c)
    ensures RoutineNext(c, Insert(g, true)).summaries == c.summaries
    ensures Agrees(RoutineNext(c, Insert(g, true)), id, c.summaries[id].log)
  {
    InsertAgrees(c, g, RoutineNext(c, Insert(g, true)), id, c.summaries[id].log);
  }

  lemma StoreHistory(c: Core, g: nat, id: nat)
    requires RoutineEnabled(c, Store(g)) && AgreesAt(c, id)
    ensures id in RoutineNext(c, Store(g)).summaries
    ensures Agrees(RoutineNext(c, Store(g)), id, RoutineNext(c, Store(g)).summaries[id].log)
  {
    StoreAgrees(c, g, RoutineNext(c, Store(g)), id);
  }

  lemma QuietHistory(c: Core, a: Action, id: nat)
    requires RoutineEnabled(c, a) && AgreesAt(c, id) && !a.Insert? && !a.Store?
    ensures RoutineNext(c, a).summaries == c.summaries
    ensures Agrees(RoutineNext(c, a), id, c.summaries[id].log)
  {
    QuietSameFor(c, a, id);
    FrameAgrees(c, RoutineNext(c, a), id, c.summaries[id].log);
  }

  lemma RoutineHistory(c: Core, a: Action, id: nat)
    requires RoutineEnabled(c, a) && (a.Insert? ==> a.ok)
    requires AgreesAt(c, id) && TableOk(c) && SummariesOk(c)
    ensures id in RoutineNext(c, a).summaries
    ensures Agrees(RoutineNext(c, a), id, RoutineNext(c, a).summaries[id].log)
  {
    if a.Store? {
      StoreHistory(c, a.g, id);
    } else if a.Insert? {
      InsertHistory(c, a.g, id);
    } else {
      QuietHistory(c, a, id);
    }
  }

  lemma RoutineStepHistory(s: State, a: Action, id: nat)
    requires HistoryInv(s) && Enabled(s, a) && LosslessStep(s, a) && OfRoutine(a)
    requires id in Next(s, a).core.summaries && Next(s, a).core.summaries[id].added
    ensures Agrees(Next(s, a).core, id, Next(s, a).core.summaries[id].log)
  {
    RoutineKeepsAdded(s.core, a, id);
    HistoryMeansAgrees(s, id);
    RoutineHistory(s.core, a, id);
  }

  lemma RoutineKeepsAdded(c: Core, a: Action, id: nat)
    requires RoutineEnabled(c, a) && id in RoutineNext(c, a).summaries && RoutineNext(c, a).summaries[id].added
    ensures id in c.summaries && c.summaries[id].added
  {
  }

  /** A check whose row has just been inserted has no results and no goroutine. */
  ghost predicate NoTrace(c: Core, id: nat) {
    && (forall g :: 0 <= g < |c.routines| ==> c.routines[g].check.id != id)
    && (forall r :: r in c.tables.urlResults.rows ==> c.tables.urlResults.rows[r].checkId != id)
  }

  lemma NoTraceMeansAgrees(c: Core, id: nat)
    requires forall g :: 0 <= g < |c.routines| ==> c.routines[g].check.id != id
    ensures NoTrace(c, id) <==> Agrees(c, id, [])
  {
    assert forall g :: !FlyingFor(c, g, id);
    assert forall r :: !InFlight(c, id, r) && !InLog([], r);
    if Agrees(c, id, []) {
      forall r | r in ResultRows(c)
        ensures c.tables.urlResults.rows[r].checkId != id
      {
        assert !InLog([], r) && !InFlight(c, id, r);
      }
    }
  }

  lemma FreshHistory(s: State, a: Action, p: nat)
    requires HistoryInv(s) && Enabled(s, a) && LosslessStep(s, a)
    requires p in Next(s, a).pending && Next(s, a).pending[p].AddInserted?
    requires Own(Next(s, a))
    ensures Agrees(Next(s, a).core, Next(s, a).pending[p].check.id, [])
  {
    var s' := Next(s, a);
    var id := s'.pending[p].check.id;
    assert StageOk(s'.core, s'.pending[p]);
    PendingAdds(s, a, p);
    if a.BeginAdd? && id == s.core.tables.urlChecks.lastId + 1 {
      assert forall r :: r in s.core.tables.urlResults.rows ==> Referenced(s.core.tables, r);
    } else {
      assert StageOk(s.core, s.pending[p]);
      NoTraceMeansAgrees(s.core, id);
      NoForeignRows(s, a, id);
    }
    NoTraceMeansAgrees(s'.core, id);
  }

  lemma PendingAdds(s: State, a: Action, p: nat)
    requires Enabled(s, a) && p in Next(s, a).pending && Next(s, a).pending[p].AddInserted?
    ensures (a.BeginAdd? && Next(s, a).pending[p].check.id == s.core.tables.urlChecks.lastId + 1
              && Next(s, a).core.tables.urlResults == s.core.tables.urlResults)
         || (p in s.pending && s.pending[p] == Next(s, a).pending[p])
  {
  }

  lemma NoForeignInsert(c: Core, a: Action, id: nat)
    requires RoutineEnabled(c, a) && a.Insert? && SummariesOk(c) && NoTrace(c, id)
    ensures forall r :: r in ResultRows(RoutineNext(c, a)) ==> ResultRows(RoutineNext(c, a))[r].checkId != id
  {
    assert PhaseOf(c.routines[a.g].check.id, c.routines[a.g].phase);
  }

  lemma NoForeignRows(s: State, a: Action, id: nat)
    requires Enabled(s, a) && !a.PurgeResults? && SummariesOk(s.core) && NoTrace(s.core, id)
    ensures forall r :: r in ResultRows(Next(s, a).core) ==> ResultRows(Next(s, a).core)[r].checkId != id
  {
    if a.Insert? {
      NoForeignInsert(s.core, a, id);
    } else if OfRoutine(a) {
      RoutineTables(s.core, a);
    } else {
      CallRows(s, a);
    }
  }

  lemma RoutineTables(c: Core, a: Action)
    requires RoutineEnabled(c, a) && !a.Insert?
    ensures RoutineNext(c, a).tables == c.tables
  {
  }

  lemma TablesKeep(c: Core, ch: URLCheck, id: nat, r: URLResult)
    requires TableOk(c)
    ensures TableOk(c.(tables := InsertURLCheck(c.tables, ch)))
    ensures TableOk(c.(tables := UpdateURLCheck(c.tables, ch)))
    ensures TableOk(c.(tables := DeleteURLCheck(c.tables, id)))
    ensures TableOk(c.(tables := InsertURLResult(c.tables, r)))
  {
  }

  lemma CallTables(s: State, a: Action)
    requires Enabled(s, a) && !OfRoutine(a) && !a.BeginAdd? && !a.BeginUpdate? && !a.RemoveRow? && !a.PurgeResults?
    ensures Next(s, a).core.tables == s.core.tables
  {
  }

  lemma RoutineTable(c: Core, a: Action)
    requires TableOk(c) && RoutineEnabled(c, a)
    ensures TableOk(RoutineNext(c, a))
  {
    if a.Insert? {
      TablesKeep(c, URLCheck(0, "", "", 0, 0, false), 0, c.routines[a.g].phase.result.row);
    } else {
      RoutineTables(c, a);
    }
  }

  lemma StepTable(s: State, a: Action)
    requires TableOk(s.core) && Enabled(s, a) && !a.PurgeResults?
    ensures TableOk(Next(s, a).core)
  {
    var noResult := URLResult(0, 0, false, None, None, None);
    if OfRoutine(a) {
      RoutineTable(s.core, a);
    } else if a.BeginAdd? || a.BeginUpdate? {
      TablesKeep(s.core, a.check, 0, noResult);
    } else if a.RemoveRow? {
      TablesKeep(s.core, URLCheck(0, "", "", 0, 0, false), s.pending[a.call].id, noResult);
    } else {
      CallTables(s, a);
    }
  }

  lemma StepHistory(s: State, a: Action)
    requires HistoryInv(s) && Enabled(s, a) && LosslessStep(s, a)
    ensures HistoryInv(Next(s, a))
  {
    var s' := Next(s, a);
    StepOwn(s, a);
    SummariesNext(s, a);
    StepTable(s, a);
    forall id | id in s'.core.summaries && s'.core.summaries[id].added
      ensures Agrees(s'.core, id, s'.core.summaries[id].log)
    {
      if OfRoutine(a) {
        RoutineStepHistory(s, a, id);
      } else {
        CallHistory(s, a, id);
      }
    }
    forall p | p in s'.pending && s'.pending[p].AddInserted?
      ensures Agrees(s'.core, s'.pending[p].check.id, [])
    {
      FreshHistory(s, a, p);
    }
  }

  lemma {:induction false} HistoryRun(s: State, actions: seq<Action>)
    requires HistoryInv(s) && ValidRun(s, actions) && LosslessRun(s, actions)
    ensures HistoryInv(Run(s, actions))
    decreases |actions|
  {
    if actions != [] {
      StepHistory(s, actions[0]);
      HistoryRun(Next(s, actions[0]), actions[1..]);
    }
  }

  // ----- The agreement ---------------------------------------------------------------------

  /** Stored results were checked at strictly increasing times (the log is newest first). */
  predicate Descending(log: seq<Stored>) {
    forall i, j :: 0 <= i < j < |log| ==> log[i].result.row.checkedAt > log[j].result.row.checkedAt
  }

  /** The i-th row of any answer is the i-th stored result. */
  lemma {:induction false} AnswerIsLog(c: Core, id: nat, log: seq<Stored>, ids: seq<nat>, i: nat)
    requires Agrees(c, id, log) && Descending(log)
    requires forall g :: !FlyingFor(c, g, id)
    requires forall k :: 0 <= k < |log| ==> ResultOf(id, log[k].result)
    requires IsHistory(c.tables, id, HISTORY_LENGTH, ids) && i < |ids|
    ensures i < |log| && log[i].rowId == Some(ids[i])
    decreases i
  {
    var rows := ResultRows(c);
    assert InLog(log, ids[i]);
    var m :| 0 <= m < |log| && log[m].rowId == Some(ids[i]);
    if m < i {
      AnswerIsLog(c, id, log, ids, m);
    } else if m > i {
      var r := log[i].rowId.value;
      assert Backed(c, log[i].result, log[i].rowId) && Backed(c, log[m].result, log[m].rowId);
      assert rows[r].checkId == id && rows[r].checkedAt > rows[ids[i]].checkedAt;
      if r in ids {
        var k :| 0 <= k < |ids| && ids[k] == r;
        if k < i {
          AnswerIsLog(c, id, log, ids, k);
        }
      }
    }
  }

  lemma AnswerLength(c: Core, id: nat, log: seq<Stored>, ids: seq<nat>)
    requires Agrees(c, id, log) && Descending(log)
    requires forall g :: !FlyingFor(c, g, id)
    requires forall k :: 0 <= k < |log| ==> ResultOf(id, log[k].result)
    requires IsHistory(c.tables, id, HISTORY_LENGTH, ids)
    ensures |ids| == |Newest(Results(log))|
  {
    var n := |ids|;
    if n > 0 {
      AnswerIsLog(c, id, log, ids, n - 1);
    }
    if n < |log| && n < HISTORY_LENGTH {
      var r := log[n].rowId.value;
      assert Backed(c, log[n].result, log[n].rowId);
      assert r in ids;
      var k :| 0 <= k < n && ids[k] == r;
      AnswerIsLog(c, id, log, ids, k);
    }
  }

  /** For a check created in this run, with calls serialised, insertions succeeding and nothing
      purged: whenever none of its results is between insertion and store and its stored
      results have increasing times, its in-memory history is what URLResultHistory(id, 20)
      answers, row by row. */
  lemma HistoryAgreesWithTable(t: Tables, actions: seq<Action>, id: nat, ids: seq<nat>)
    requires ValidRows(t) && TableOk(Initial(t).core)
    requires ValidRun(Initial(t), actions) && LosslessRun(Initial(t), actions)
    requires var c := Run(Initial(t), actions).core;
             && id in c.summaries && c.summaries[id].added
             && Descending(c.summaries[id].log)
             && (forall g :: !FlyingFor(c, g, id))
             && IsHistory(c.tables, id, HISTORY_LENGTH, ids)
    ensures var c := Run(Initial(t), actions).core;
            var history := c.summaries[id].history;
            && |ids| == |history|
            && (forall i :: 0 <= i < |ids| ==> ResultRows(c)[ids[i]] == history[i].row)
  {
    HistoryRun(Initial(t), actions);
    HistoryMeansAgrees(Run(Initial(t), actions), id);
    AnswerIsHistory(Run(Initial(t), actions).core, id, ids);
  }

  lemma AnswerIsHistory(c: Core, id: nat, ids: seq<nat>)
    requires id in c.summaries && SummaryOk(id, c.summaries[id])
    requires Agrees(c, id, c.summaries[id].log) && Descending(c.summaries[id].log)
    requires forall g :: !FlyingFor(c, g, id)
    requires IsHistory(c.tables, id, HISTORY_LENGTH, ids)
    ensures var history := c.summaries[id].history;
            && |ids| == |history|
            && (forall i :: 0 <= i < |ids| ==> ResultRows(c)[ids[i]] == history[i].row)
  {
    var log := c.summaries[id].log;
    AnswerLength(c, id, log, ids);
    forall i | 0 <= i < |ids|
      ensures ResultRows(c)[ids[i]] == c.summaries[id].history[i].row
    {
      AnswerIsLog(c, id, log, ids, i);
      assert Backed(c, log[i].result, log[i].rowId);
    }
  }
}
