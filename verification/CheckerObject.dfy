/** The checker as the program has it: an object whose two maps its methods update, above a
    database handle. Each method is the sequence of sections of module Checker it runs
    through when nothing interleaves. */
module CheckerObject {
  import opened Options
  import opened Database
  import opened Checker
  import opened CheckerSafety
  import Storage

  /** Add once the row is in. */
  function AddSections(c: Core, ch: URLCheck): Core {
    if ch.enabled then StartSection(PutSummary(c, ch), ch) else PutSummary(c, ch)
  }

  /** Update once the row is written. */
  function UpdateSections(c: Core, ch: URLCheck): Core {
    var stopped := SetSummaryCheck(StopSection(c, ch.id), ch);
    if ch.enabled then StartSection(stopped, ch) else stopped
  }

  function RemoveSections(c: Core, id: nat, ok: bool): Core {
    var forgotten := DropSummary(StopSection(c, id), id);
    if ok then forgotten.(tables := DeleteURLCheck(forgotten.tables, id)) else forgotten
  }

  function StartAll(c: Core, rows: seq<URLCheck>): Core {
    if rows == [] then c
    else
      var k := |rows| - 1;
      var before := StartAll(c, rows[..k]);
      if rows[k].enabled then StartSection(before, rows[k]) else before
  }

  /** Starting gives exactly the enabled rows an entry and a summary, beside those that had one:
      a disabled check has no summary after a restart. */
  lemma {:induction false} StartedAre(c: Core, rows: seq<URLCheck>, id: nat)
    ensures id in StartAll(c, rows).checks
       <==> id in c.checks || exists i :: 0 <= i < |rows| && rows[i].enabled && rows[i].id == id
    ensures id in StartAll(c, rows).summaries
       <==> id in c.summaries || exists i :: 0 <= i < |rows| && rows[i].enabled && rows[i].id == id
  {
    if rows != [] {
      var k := |rows| - 1;
      StartedAre(c, rows[..k], id);
      if i :| 0 <= i < |rows| && rows[i].enabled && rows[i].id == id {
        assert i < k ==> rows[..k][i] == rows[i];
      }
    }
  }

  /** What was there before is left alone ... */
  lemma {:induction false} StartedKeeps(c: Core, rows: seq<URLCheck>, id: nat)
    ensures id in c.summaries ==> id in StartAll(c, rows).summaries && StartAll(c, rows).summaries[id] == c.summaries[id]
    ensures id in c.checks && (forall j :: 0 <= j < |rows| ==> rows[j].id != id) ==>
              id in StartAll(c, rows).checks && StartAll(c, rows).checks[id] == c.checks[id]
  {
    if rows != [] {
      StartedKeeps(c, rows[..|rows| - 1], id);
    }
  }

  /** ... and what is new is what its row says. */
  lemma {:induction false} StartedHold(c: Core, rows: seq<URLCheck>, i: nat)
    requires i < |rows| && rows[i].enabled && forall j, k :: 0 <= j < k < |rows| ==> rows[j].id != rows[k].id
    ensures var after, id := StartAll(c, rows), rows[i].id;
            && id in after.checks && after.checks[id].check == rows[i] && id in after.summaries
            && after.summaries[id] == if id in c.summaries then c.summaries[id] else Summary(rows[i], None, 0.0, [], [], false)
  {
    var k := |rows| - 1;
    if i < k {
      StartedHold(c, rows[..k], i);
      assert rows[..k][i] == rows[i] && rows[i].id != rows[k].id;
    } else {
      StartedAre(c, rows[..k], rows[k].id);
      StartedKeeps(c, rows[..k], rows[k].id);
    }
  }

  /** A create call that nothing interrupts is a run of the protocol. */
  lemma AddIsARun(s: State, ch: URLCheck) returns (actions: seq<Action>)
    requires Enabled(s, BeginAdd(ch)) && s.nextCall !in s.pending
    ensures ValidRun(s, actions)
    ensures Run(s, actions).core
         == AddSections(s.core.(tables := InsertURLCheck(s.core.tables, ch)), ch.(id := s.core.tables.urlChecks.lastId + 1))
    ensures Run(s, actions).pending == s.pending
  {
    var p := s.nextCall;
    OneMore(s, [], BeginAdd(ch));
    OneMore(s, [BeginAdd(ch)], AddSummary(p));
    actions := [BeginAdd(ch), AddSummary(p)];
    assert [BeginAdd(ch)] + [AddSummary(p)] == actions;
    if ch.enabled {
      OneMore(s, actions, AddStart(p));
      actions := actions + [AddStart(p)];
    }
  }

  /** So is an update ... */
  lemma UpdateIsARun(s: State, ch: URLCheck) returns (actions: seq<Action>)
    requires Enabled(s, BeginUpdate(ch)) && s.nextCall !in s.pending
    ensures ValidRun(s, actions)
    ensures Run(s, actions).core == UpdateSections(s.core.(tables := UpdateURLCheck(s.core.tables, ch)), ch)
    ensures Run(s, actions).pending == s.pending
  {
    var p := s.nextCall;
    actions := StoppedForUpdate(s, ch);
    OneMore(s, actions, UpdateSummary(p));
    actions := actions + [UpdateSummary(p)];
    if ch.enabled {
      OneMore(s, actions, UpdateStart(p));
      actions := actions + [UpdateStart(p)];
    }
  }

  lemma StoppedForUpdate(s: State, ch: URLCheck) returns (actions: seq<Action>)
    requires Enabled(s, BeginUpdate(ch)) && s.nextCall !in s.pending
    ensures ValidRun(s, actions)
    ensures Run(s, actions).core == StopSection(s.core.(tables := UpdateURLCheck(s.core.tables, ch)), ch.id)
    ensures Run(s, actions).pending == s.pending[s.nextCall := UpdateStopped(ch)]
  {
    OneMore(s, [], BeginUpdate(ch));
    OneMore(s, [BeginUpdate(ch)], UpdateStop(s.nextCall));
    actions := [BeginUpdate(ch)] + [UpdateStop(s.nextCall)];
  }

  /** ... and a delete. */
  lemma RemoveIsARun(s: State, id: nat, ok: bool) returns (actions: seq<Action>)
    requires Enabled(s, RemoveStop(id)) && s.nextCall !in s.pending
    ensures ValidRun(s, actions)
    ensures Run(s, actions).core == RemoveSections(s.core, id, ok)
    ensures Run(s, actions).pending == s.pending
  {
    var p := s.nextCall;
    OneMore(s, [], RemoveStop(id));
    OneMore(s, [RemoveStop(id)], RemoveSummary(p));
    actions := [RemoveStop(id)] + [RemoveSummary(p)];
    OneMore(s, actions, RemoveRow(p, ok));
    actions := actions + [RemoveRow(p, ok)];
  }

  /** The insertion of a result, which takes place if the statement succeeds and the check is
      still there. */
  function WithResult(c: Core, row: URLResult, ok: bool): Core {
    if ok && row.checkId in c.tables.urlChecks.rows then c.(tables := InsertURLResult(c.tables, row)) else c
  }

  function NewRowId(c: Core, row: URLResult, ok: bool): Option<nat> {
    if ok && row.checkId in c.tables.urlChecks.rows then Some(c.tables.urlResults.lastId + 1) else None
  }

  function StoredAndWaiting(c: Core, g: nat, result: Result, rowId: Option<nat>, uptime: real): Core
    requires g < |c.routines|
  {
    SetPhase(StoreSection(c, c.routines[g].check.id, result, rowId, uptime), g, Waiting)
  }

  /** One whole probe by goroutine g. */
  function ProbeSections(c: Core, g: nat, outcome: URLResult, insertOk: bool, now: int, uptimeOk: bool): Core
    requires g < |c.routines|
  {
    var ch := c.routines[g].check;
    var result := Result(outcome.(checkId := ch.id), ch.url, ch.labelText);
    var recorded := WithResult(c, result.row, insertOk);
    StoredAndWaiting(recorded, g, result, NewRowId(c, result.row, insertOk),
                     if uptimeOk then URLUptime(recorded.tables, ch.id, now - DAY) else 0.0)
  }

  /** The core after a goroutine's steps, if each may be taken. */
  ghost predicate Follows(c: Core, steps: seq<Action>, last: Core)
    decreases |steps|
  {
    if steps == [] then c == last
    else RoutineEnabled(c, steps[0]) && Follows(RoutineNext(c, steps[0]), steps[1..], last)
  }

  lemma FirstStep(c: Core, a: Action, rest: seq<Action>, last: Core)
    requires RoutineEnabled(c, a) && Follows(RoutineNext(c, a), rest, last)
    ensures Follows(c, [a] + rest, last)
  {
    assert ([a] + rest)[1..] == rest;
  }

  lemma {:induction false} StepsAreARun(s: State, steps: seq<Action>, last: Core)
    requires Follows(s.core, steps, last)
    ensures ValidRun(s, steps) && Run(s, steps) == s.(core := last)
    decreases |steps|
  {
    if steps != [] {
      StepsAreARun(Next(s, steps[0]), steps[1..], last);
    }
  }

  /** The first half of a probe, up to the insertion of its result. */
  lemma HalfProbe(c: Core, g: nat, outcome: URLResult, insertOk: bool) returns (half: Core, result: Result, rowId: Option<nat>)
    requires g < |c.routines| && c.routines[g].phase == Probing
    ensures RoutineEnabled(c, Probe(g, outcome))
    ensures RoutineEnabled(RoutineNext(c, Probe(g, outcome)), Insert(g, insertOk))
    ensures half == RoutineNext(RoutineNext(c, Probe(g, outcome)), Insert(g, insertOk))
    ensures var ch := c.routines[g].check;
            && result == Result(outcome.(checkId := ch.id), ch.url, ch.labelText)
            && rowId == NewRowId(c, result.row, insertOk)
            && half == SetPhase(c, g, Inserted(result, rowId)).(tables := WithResult(c, result.row, insertOk).tables)
  {
    var probed := RoutineNext(c, Probe(g, outcome));
    half := RoutineNext(probed, Insert(g, insertOk));
    result := probed.routines[g].phase.result;
    rowId := half.routines[g].phase.rowId;
    assert half.routines == SetPhase(c, g, Inserted(result, rowId)).routines;
  }

  /** The second half: the uptime and the guarded store. */
  lemma RestOfProbe(half: Core, g: nat, now: int, uptimeOk: bool)
    requires g < |half.routines| && half.routines[g].phase.Inserted?
    ensures RoutineEnabled(half, Measure(g, now, uptimeOk))
    ensures RoutineEnabled(RoutineNext(half, Measure(g, now, uptimeOk)), Action.Store(g))
    ensures RoutineNext(RoutineNext(half, Measure(g, now, uptimeOk)), Action.Store(g))
         == StoredAndWaiting(half, g, half.routines[g].phase.result, half.routines[g].phase.rowId,
                             if uptimeOk then URLUptime(half.tables, half.routines[g].check.id, now - DAY) else 0.0)
  {
    var measured := RoutineNext(half, Measure(g, now, uptimeOk));
    assert RoutineNext(measured, Action.Store(g)).routines == SetPhase(half, g, Waiting).routines;
  }

  /** A probe that nothing interrupts is a run of the protocol: probe, insert, measure, store. */
  lemma ProbeIsARun(s: State, g: nat, outcome: URLResult, insertOk: bool, now: int, uptimeOk: bool)
      returns (actions: seq<Action>)
    requires g < |s.core.routines| && s.core.routines[g].phase == Probing
    ensures ValidRun(s, actions)
    ensures Run(s, actions) == s.(core := ProbeSections(s.core, g, outcome, insertOk, now, uptimeOk))
  {
    actions := ProbeFollows(s.core, g, outcome, insertOk, now, uptimeOk);
    StepsAreARun(s, actions, ProbeSections(s.core, g, outcome, insertOk, now, uptimeOk));
  }

  lemma PhaseReplaced(c: Core, g: nat, phase: Phase, tables: Tables, result: Result, rowId: Option<nat>, uptime: real)
    requires g < |c.routines|
    ensures StoredAndWaiting(SetPhase(c, g, phase).(tables := tables), g, result, rowId, uptime)
         == StoredAndWaiting(c.(tables := tables), g, result, rowId, uptime)
  {
    assert StoredAndWaiting(SetPhase(c, g, phase).(tables := tables), g, result, rowId, uptime).routines
        == StoredAndWaiting(c.(tables := tables), g, result, rowId, uptime).routines;
  }

  lemma ProbeFollows(c: Core, g: nat, outcome: URLResult, insertOk: bool, now: int, uptimeOk: bool)
      returns (actions: seq<Action>)
    requires g < |c.routines| && c.routines[g].phase == Probing
    ensures Follows(c, actions, ProbeSections(c, g, outcome, insertOk, now, uptimeOk))
  {
    var half, result, rowId := HalfProbe(c, g, outcome, insertOk);
    RestOfProbe(half, g, now, uptimeOk);
    PhaseReplaced(c, g, Inserted(result, rowId), half.tables, result, rowId,
                  if uptimeOk then URLUptime(half.tables, c.routines[g].check.id, now - DAY) else 0.0);
    var measured := RoutineNext(half, Measure(g, now, uptimeOk));
    var last := ProbeSections(c, g, outcome, insertOk, now, uptimeOk);
    actions := [];
    FirstStep(measured, Action.Store(g), actions, last);
    actions := [Action.Store(g)] + actions;
    FirstStep(half, Measure(g, now, uptimeOk), actions, last);
    actions := [Measure(g, now, uptimeOk)] + actions;
    FirstStep(RoutineNext(c, Probe(g, outcome)), Insert(g, insertOk), actions, last);
    actions := [Insert(g, insertOk)] + actions;
    FirstStep(c, Probe(g, outcome), actions, last);
    actions := [Probe(g, outcome)] + actions;
  }

  function RowsInOrder(t: Tables, order: seq<nat>): seq<URLCheck>
    requires forall i :: 0 <= i < |order| ==> order[i] in t.urlChecks.rows
  {
    seq(|order|, i requires 0 <= i < |order| => t.urlChecks.rows[order[i]])
  }

  lemma {:induction false} StartFirst(c: Core, first: URLCheck, rest: seq<URLCheck>)
    ensures StartAll(c, [first] + rest) == StartAll(if first.enabled then StartSection(c, first) else c, rest)
    decreases |rest|
  {
    var rows := [first] + rest;
    if rest == [] {
      assert rows[..0] == [] && rows[0] == first;
    } else {
      var k := |rest| - 1;
      assert rows[..|rows| - 1] == [first] + rest[..k];
      StartFirst(c, first, rest[..k]);
    }
  }

  /** Start skips the rows that are not enabled. */
  lemma {:induction false} StartSkips(c: Core, t: Tables, order: seq<nat>)
    requires forall i :: 0 <= i < |order| ==> order[i] in t.urlChecks.rows
    ensures StartAll(c, EnabledRows(t, order)) == StartAll(c, RowsInOrder(t, order))
    ensures forall i :: 0 <= i < |EnabledRows(t, order)| ==> EnabledRows(t, order)[i].enabled
    decreases |order|
  {
    if order != [] {
      var row, rest := t.urlChecks.rows[order[0]], order[1..];
      assert RowsInOrder(t, order) == [row] + RowsInOrder(t, rest);
      StartFirst(c, row, RowsInOrder(t, rest));
      StartFirst(c, row, EnabledRows(t, rest));
      StartSkips(if row.enabled then StartSection(c, row) else c, t, rest);
      assert !row.enabled ==> EnabledRows(t, order) == EnabledRows(t, rest);
    }
  }

  lemma {:induction false} BootEach(s: State) returns (actions: seq<Action>)
    requires s.listed && forall i :: 0 <= i < |s.todo| ==> s.todo[i].enabled
    ensures ValidRun(s, actions) && Run(s, actions) == s.(core := StartAll(s.core, s.todo), todo := [])
    decreases |s.todo|
  {
    if s.todo == [] {
      actions := [];
    } else {
      var next := Next(s, BootOne);
      var rest := BootEach(next);
      StartFirst(s.core, s.todo[0], s.todo[1..]);
      assert s.todo == [s.todo[0]] + s.todo[1..];
      actions := [BootOne] + rest;
      assert actions[1..] == rest;
    }
  }

  /** Start, uninterrupted, is a run of the protocol. */
  lemma StartIsARun(t: Tables, order: seq<nat>) returns (actions: seq<Action>)
    requires IsRowListing(t, order) && forall i :: 0 <= i < |order| ==> order[i] in t.urlChecks.rows
    ensures ValidRun(Initial(t), actions) && Up(Run(Initial(t), actions))
    ensures Run(Initial(t), actions).core == StartAll(Initial(t).core, RowsInOrder(t, order))
  {
    var s := Next(Initial(t), BootList(order));
    StartSkips(s.core, t, order);
    var rest := BootEach(s);
    actions := [BootList(order)] + rest;
    assert actions[1..] == rest;
  }

  /** What wakes runCheck's select. */
  datatype Wake = Ticker | StopClosed | ContextDone

  /** What a turn of runCheck's select leaves, if it is woken. */
  function AfterTurn(c: Core, g: nat, wake: Wake, outcome: URLResult, insertOk: bool, now: int, uptimeOk: bool): Core
    requires g < |c.routines|
  {
    if wake == Ticker then ProbeSections(c, g, outcome, insertOk, now, uptimeOk) else SetPhase(c, g, Exited)
  }

  lemma ResultThenPhase(c: Core, g: nat, phase: Phase, row: URLResult, ok: bool)
    requires g < |c.routines|
    ensures WithResult(c, row, ok) == c.(tables := WithResult(c, row, ok).tables)
    ensures WithResult(SetPhase(c, g, phase), row, ok) == SetPhase(c, g, phase).(tables := WithResult(c, row, ok).tables)
    ensures NewRowId(SetPhase(c, g, phase), row, ok) == NewRowId(c, row, ok)
  {
  }

  lemma PhaseForgotten(c: Core, g: nat, phase: Phase, outcome: URLResult, insertOk: bool, now: int, uptimeOk: bool)
    requires g < |c.routines|
    ensures ProbeSections(SetPhase(c, g, phase), g, outcome, insertOk, now, uptimeOk)
         == ProbeSections(c, g, outcome, insertOk, now, uptimeOk)
  {
    var row := outcome.(checkId := c.routines[g].check.id);
    var tables := WithResult(c, row, insertOk).tables;
    ResultThenPhase(c, g, phase, row, insertOk);
    PhaseReplaced(c, g, phase, tables, Result(row, c.routines[g].check.url, c.routines[g].check.labelText),
                  NewRowId(c, row, insertOk), if uptimeOk then URLUptime(tables, row.checkId, now - DAY) else 0.0);
  }

  lemma TickerFollows(c: Core, g: nat, outcome: URLResult, insertOk: bool, now: int, uptimeOk: bool)
      returns (actions: seq<Action>)
    requires g < |c.routines| && c.routines[g].phase == Waiting
    ensures Follows(c, actions, ProbeSections(c, g, outcome, insertOk, now, uptimeOk))
  {
    var rest := ProbeFollows(SetPhase(c, g, Probing), g, outcome, insertOk, now, uptimeOk);
    PhaseForgotten(c, g, Probing, outcome, insertOk, now, uptimeOk);
    FirstStep(c, Tick(g), rest, ProbeSections(c, g, outcome, insertOk, now, uptimeOk));
    actions := [Tick(g)] + rest;
  }

  lemma ExitFollows(c: Core, g: nat, a: Action)
    requires (a == Quit(g) || a == Cancel(g)) && RoutineEnabled(c, a)
    ensures Follows(c, [a], SetPhase(c, g, Exited))
  {
    FirstStep(c, a, [], SetPhase(c, g, Exited));
    assert [a] + [] == [a];
  }

  /** A turn of runCheck's select is a run of the protocol. */
  lemma TurnIsARun(s: State, g: nat, wake: Wake, outcome: URLResult, insertOk: bool, now: int, uptimeOk: bool)
      returns (actions: seq<Action>)
    requires g < |s.core.routines| && s.core.routines[g].phase == Waiting
    requires wake == StopClosed ==> g !in s.core.open
    ensures ValidRun(s, actions)
    ensures Run(s, actions) == s.(core := AfterTurn(s.core, g, wake, outcome, insertOk, now, uptimeOk))
  {
    match wake {
      case Ticker => actions := TickerFollows(s.core, g, outcome, insertOk, now, uptimeOk);
      case StopClosed =>
        actions := [Quit(g)];
        ExitFollows(s.core, g, Quit(g));
      case ContextDone =>
        actions := [Cancel(g)];
        ExitFollows(s.core, g, Cancel(g));
    }
    StepsAreARun(s, actions, AfterTurn(s.core, g, wake, outcome, insertOk, now, uptimeOk));
  }

  /** An update writes the row if there is one, closes the channel of the entry if there is one,
      and starts the check afresh if it is enabled. A summary that is there shows the new check
      and keeps its last result, uptime and history; every other one is as it was. */
  ghost predicate UpdateEffect(c: Core, c': Core, ch: URLCheck) {
    var stop, rows := |c.routines|, c.tables.urlChecks.rows;
    && c'.tables == (if ch.id in rows then c.tables.(urlChecks := c.tables.urlChecks.(rows := rows[ch.id := ch])) else c.tables)
    && c'.summaries == (if ch.id in c.summaries then
                          var s := c.summaries[ch.id];
                          c.summaries[ch.id := Summary(ch, s.last, s.uptime, s.history, s.log, s.added)]
                        else if ch.enabled then c.summaries[ch.id := Summary(ch, None, 0.0, [], [], false)]
                        else c.summaries)
    && c'.checks == (if ch.enabled then c.checks[ch.id := CheckState(ch, stop)] else c.checks - {ch.id})
    && c'.open == (if ch.id in c.checks then c.open - {c.checks[ch.id].stop} else c.open) + (if ch.enabled then {stop} else {})
    && c'.routines == c.routines + (if ch.enabled then [Routine(ch, Probing)] else [])
  }

  lemma UpdateChanges(c: Core, ch: URLCheck)
    ensures UpdateEffect(c, UpdateSections(c.(tables := UpdateURLCheck(c.tables, ch)), ch), ch)
  {
  }

  /** A result goes to the head of its check's history, which keeps the newest twenty, and
      nothing else changes; it is dropped when the summary is gone. */
  ghost predicate Recorded(before: map<nat, Summary>, after: map<nat, Summary>, id: nat, result: Result, rowId: Option<nat>, uptime: real) {
    if id !in before then after == before
    else
      var s := before[id];
      after == before[id := Summary(s.check, Some(result), uptime,
                                    if |s.history| < 20 then [result] + s.history else [result] + s.history[..19],
                                    [Stored(result, rowId)] + s.log, s.added)]
  }

  lemma FirstTwenty(r: Result, history: seq<Result>)
    ensures Newest([r] + history) == if |history| < 20 then [r] + history else [r] + history[..19]
  {
  }

  lemma StoreRecords(c: Core, id: nat, result: Result, rowId: Option<nat>, uptime: real)
    ensures var c' := StoreSection(c, id, result, rowId, uptime);
            Recorded(c.summaries, c'.summaries, id, result, rowId, uptime) && c' == c.(summaries := c'.summaries)
  {
    if id in c.summaries {
      FirstTwenty(result, c.summaries[id].history);
    }
  }

  /** A probe inserts its result if the statement succeeds and the check is still there, reads
      the uptime of the last day (zero when it cannot), records both, and goes on to wait. */
  ghost predicate ProbeEffect(c: Core, c': Core, g: nat, outcome: URLResult, insertOk: bool, now: int, uptimeOk: bool)
    requires g < |c.routines|
  {
    var ch, results := c.routines[g].check, c.tables.urlResults;
    var row, rowId := outcome.(checkId := ch.id), results.lastId + 1;
    var inserted := insertOk && ch.id in c.tables.urlChecks.rows;
    && c'.tables == (if inserted then c.tables.(urlResults := Table(results.rows[rowId := row], rowId)) else c.tables)
    && Recorded(c.summaries, c'.summaries, ch.id, Result(row, ch.url, ch.labelText),
                if inserted then Some(rowId) else None,
                if uptimeOk then URLUptime(c'.tables, ch.id, now - 86400) else 0.0)
    && c'.routines == c.routines[g := Routine(ch, Waiting)]
    && c'.checks == c.checks && c'.open == c.open
  }

  lemma ProbeRecords(c: Core, g: nat, outcome: URLResult, insertOk: bool, now: int, uptimeOk: bool)
    requires g < |c.routines|
    ensures ProbeEffect(c, ProbeSections(c, g, outcome, insertOk, now, uptimeOk), g, outcome, insertOk, now, uptimeOk)
  {
    var ch := c.routines[g].check;
    var result := Result(outcome.(checkId := ch.id), ch.url, ch.labelText);
    var recorded := WithResult(c, result.row, insertOk);
    StoreRecords(recorded, ch.id, result, NewRowId(c, result.row, insertOk),
                 if uptimeOk then URLUptime(recorded.tables, ch.id, now - DAY) else 0.0);
  }

  class Monitor {
    const db: Storage.DB
    var checks: map<nat, CheckState>
    var summaries: map<nat, Summary>
    var open: set<nat>
    var routines: seq<Routine>

    constructor (db: Storage.DB)
      ensures this.db == db && View() == Initial(db.tables).core && ChannelsOk(View())
    {
      this.db := db;
      checks, summaries, open, routines := map[], map[], {}, [];
    }

    function View(): Core
      reads this, db
    {
      Core(db.tables, checks, summaries, open, routines, false)
    }

    method StartCheck(ch: URLCheck)
      requires ChannelsOk(View())
      modifies this
      ensures View() == StartSection(old(View()), ch) && ChannelsOk(View())
      ensures checks == old(checks)[ch.id := CheckState(ch, |old(routines)|)]
      ensures summaries == if ch.id in old(summaries) then old(summaries)
                           else old(summaries)[ch.id := Summary(ch, None, 0.0, [], [], false)]
      ensures open == old(open) + {|old(routines)|} && routines == old(routines) + [Routine(ch, Probing)]
    {
      StartChannels(View(), ch);
      var stop := |routines|;
      checks := checks[ch.id := CheckState(ch, stop)];
      if ch.id !in summaries {
        summaries := summaries[ch.id := NewSummary(ch, false)];
      }
      open := open + {stop};
      routines := routines + [Routine(ch, Probing)];
    }

    method StopCheck(id: nat)
      requires ChannelsOk(View())
      modifies this
      ensures View() == StopSection(old(View()), id) && ChannelsOk(View())
      ensures checks == old(checks) - {id} && summaries == old(summaries) && routines == old(routines)
      ensures open == if id in old(checks) then old(open) - {old(checks)[id].stop} else old(open)
    {
      StopChannels(View(), id);
      if id in checks {
        open := open - {checks[id].stop};
        checks := checks - {id};
      }
    }

    /** `rows` is the answer of ListURLChecks, which fails unless `ok`. */
    method Start(rows: seq<URLCheck>, ok: bool)
      requires ChannelsOk(View())
      modifies this
      ensures View() == (if ok then StartAll(old(View()), rows) else old(View())) && ChannelsOk(View())
    {
      if !ok {
        return;
      }
      for i := 0 to |rows|
        invariant View() == StartAll(old(View()), rows[..i]) && ChannelsOk(View())
      {
        assert rows[..i + 1][..i] == rows[..i];
        if rows[i].enabled {
          StartCheck(rows[i]);
        }
      }
      assert rows[..|rows|] == rows;
    }

    method Add(ch: URLCheck, ok: bool) returns (created: Option<URLCheck>)
      requires ChannelsOk(View())
      modifies this, db
      ensures ChannelsOk(View())
      ensures created.Some? <==> ok && !UrlTaken(old(db.tables), ch.url, 0)
      ensures created.None? ==> View() == old(View())
      ensures created.Some? ==>
                && created.value == ch.(id := old(db.tables).urlChecks.lastId + 1)
                && View() == AddSections(old(View()).(tables := InsertURLCheck(old(db.tables), ch)), created.value)
                && db.tables.urlChecks.rows == old(db.tables).urlChecks.rows[created.value.id := created.value]
                && summaries == old(summaries)[created.value.id := Summary(created.value, None, 0.0, [], [], true)]
                && checks == (if ch.enabled then old(checks)[created.value.id := CheckState(created.value, |old(routines)|)]
                              else old(checks))
                && routines == old(routines) + (if ch.enabled then [Routine(created.value, Probing)] else [])
    {
      var id := db.InsertURLCheck(ch, ok);
      if id == None {
        return None;
      }
      var ch' := ch.(id := id.value);
      summaries := summaries[id.value := NewSummary(ch', true)];
      if ch'.enabled {
        StartCheck(ch');
      }
      return Some(ch');
    }

    method Update(ch: URLCheck, ok: bool) returns (done: bool)
      requires ChannelsOk(View())
      modifies this, db
      ensures ChannelsOk(View())
      ensures done == (ok && !UpdateClashes(old(db.tables), ch))
      ensures View() == if done then UpdateSections(old(View()).(tables := UpdateURLCheck(old(db.tables), ch)), ch)
                        else old(View())
      ensures done ==> UpdateEffect(old(View()), View(), ch)
    {
      done := db.UpdateURLCheck(ch, ok);
      if !done {
        return;
      }
      StopCheck(ch.id);
      if ch.id in summaries {
        summaries := summaries[ch.id := summaries[ch.id].(check := ch)];
      }
      if ch.enabled {
        StartCheck(ch);
      }
      UpdateChanges(old(View()), ch);
    }

    method Remove(id: nat, ok: bool)
      requires ChannelsOk(View())
      modifies this, db
      ensures ChannelsOk(View()) && View() == RemoveSections(old(View()), id, ok)
      ensures checks == old(checks) - {id} && summaries == old(summaries) - {id} && routines == old(routines)
      ensures open == if id in old(checks) then old(open) - {old(checks)[id].stop} else old(open)
      ensures db.tables.urlChecks.rows == old(db.tables).urlChecks.rows - (if ok then {id} else {})
    {
      StopCheck(id);
      summaries := summaries - {id};
      db.DeleteURLCheck(id, ok);
    }

    /** The guarded store: a check that is gone is not brought back. */
    method Store(id: nat, result: Result, rowId: Option<nat>, uptime: real)
      requires ChannelsOk(View()) && SummariesOk(View()) && ResultOf(id, result)
      modifies this
      ensures View() == StoreSection(old(View()), id, result, rowId, uptime)
      ensures ChannelsOk(View()) && SummariesOk(View())
      ensures Recorded(old(summaries), summaries, id, result, rowId, uptime)
    {
      ghost var before := View();
      StoreRecords(before, id, result, rowId, uptime);
      if id in summaries {
        var s := summaries[id];
        StoreKeepsSummary(id, s, result, rowId, uptime);
        var history := [result] + s.history;
        if |history| > HISTORY_LENGTH {
          history := history[..HISTORY_LENGTH];
        }
        summaries := summaries[id :=
          s.(last := Some(result), uptime := uptime, history := history, log := [Stored(result, rowId)] + s.log)];
      }
      FrameChannels(before, View());
    }

    /** One probe by goroutine g, from its outcome to its store. */
    method DoAndStore(g: nat, outcome: URLResult, insertOk: bool, now: int, uptimeOk: bool)
      requires g < |routines| && ChannelsOk(View()) && SummariesOk(View())
      modifies this, db
      ensures ChannelsOk(View()) && SummariesOk(View())
      ensures View() == ProbeSections(old(View()), g, outcome, insertOk, now, uptimeOk)
      ensures ProbeEffect(old(View()), View(), g, outcome, insertOk, now, uptimeOk)
    {
      var ch := routines[g].check;
      var result := Result(outcome.(checkId := ch.id), ch.url, ch.labelText);
      var rowId := InsertResult(result.row, insertOk);
      var uptime := if uptimeOk then URLUptime(db.tables, ch.id, now - DAY) else 0.0;
      StoreAndWait(g, result, rowId, uptime);
      ProbeRecords(old(View()), g, outcome, insertOk, now, uptimeOk);
    }

    method InsertResult(row: URLResult, ok: bool) returns (rowId: Option<nat>)
      requires ChannelsOk(View()) && SummariesOk(View())
      modifies db
      ensures ChannelsOk(View()) && SummariesOk(View())
      ensures View() == WithResult(old(View()), row, ok) && rowId == NewRowId(old(View()), row, ok)
    {
      ghost var before := View();
      rowId := db.InsertURLResult(row, ok);
      FrameChannels(before, View());
    }

    method StoreAndWait(g: nat, result: Result, rowId: Option<nat>, uptime: real)
      requires g < |routines| && ChannelsOk(View()) && SummariesOk(View()) && ResultOf(routines[g].check.id, result)
      modifies this
      ensures ChannelsOk(View()) && SummariesOk(View())
      ensures View() == StoredAndWaiting(old(View()), g, result, rowId, uptime)
    {
      Store(routines[g].check.id, result, rowId, uptime);
      Enter(g, Waiting);
    }

    /** Goroutine g goes on to another place of runCheck. */
    method Enter(g: nat, phase: Phase)
      requires g < |routines| && ChannelsOk(View()) && SummariesOk(View()) && PhaseOf(routines[g].check.id, phase)
      modifies this
      ensures ChannelsOk(View()) && SummariesOk(View())
      ensures View() == SetPhase(old(View()), g, phase)
      ensures summaries == old(summaries)
      ensures routines == old(routines)[g := Routine(old(routines)[g].check, phase)]
    {
      ghost var before := View();
      PhaseSummaries(before, g, phase);
      routines := routines[g := routines[g].(phase := phase)];
      FrameChannels(before, View());
    }

    /** One turn of runCheck's select; a stop channel that is open does not wake it. */
    method CheckTurn(g: nat, wake: Wake, outcome: URLResult, insertOk: bool, now: int, uptimeOk: bool)
      requires g < |routines| && routines[g].phase == Waiting && ChannelsOk(View()) && SummariesOk(View())
      modifies this, db
      ensures ChannelsOk(View()) && SummariesOk(View())
      ensures View() == if wake == StopClosed && g in old(open) then old(View())
                        else AfterTurn(old(View()), g, wake, outcome, insertOk, now, uptimeOk)
      ensures wake == Ticker ==> ProbeEffect(old(View()), View(), g, outcome, insertOk, now, uptimeOk)
      ensures wake != Ticker ==>
                && db.tables == old(db.tables) && summaries == old(summaries)
                && routines == if wake == StopClosed && g in old(open) then old(routines)
                               else old(routines)[g := Routine(old(routines)[g].check, Exited)]
    {
      match wake
      case Ticker => DoAndStore(g, outcome, insertOk, now, uptimeOk);
      case StopClosed =>
        if g !in open {
          Enter(g, Exited);
        }
      case ContextDone => Enter(g, Exited);
    }

    /** A snapshot: every summary once, in the order the map happens to be walked. */
    method Summaries() returns (out: seq<Summary>, ghost order: seq<nat>)
      ensures |out| == |order| == |summaries|
      ensures forall id :: id in summaries ==> summaries[id] in out
      ensures forall i :: 0 <= i < |out| ==> order[i] in summaries && out[i] == summaries[order[i]]
      ensures forall i, j :: 0 <= i < j < |order| ==> order[i] != order[j]
      ensures forall id :: id in summaries ==> id in order
    {
      out, order := [], [];
      var todo := summaries.Keys;
      while todo != {}
        invariant todo <= summaries.Keys && |out| == |order| && |out| + |todo| == |summaries.Keys|
        invariant forall id :: id in summaries ==> id in todo || summaries[id] in out
        invariant forall i :: 0 <= i < |out| ==> order[i] in summaries && order[i] !in todo && out[i] == summaries[order[i]]
        invariant forall i, j :: 0 <= i < j < |order| ==> order[i] != order[j]
        invariant forall id :: id in summaries ==> id in todo || id in order
        decreases |todo|
      {
        var id :| id in todo;
        todo := todo - {id};
        out, order := out + [summaries[id]], order + [id];
      }
    }
  }
}
