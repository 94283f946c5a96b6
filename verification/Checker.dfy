/** The URL checker of internal/urlcheck/checker.go as a protocol. One action is one critical
    section, one database statement or one probe; goroutines, start-up and any number of
    create/update/delete calls interleave. */
module Checker {
  import opened Options
  import opened Database

  const HISTORY_LENGTH := 20

  /** A probe's outcome, with the address and name it was made under. */
  datatype Result = Result(row: URLResult, url: string, labelText: string)

  /** A result as it was stored, with the key of its row if its insertion succeeded. */
  datatype Stored = Stored(result: Result, rowId: Option<nat>)

  /** `log` records every result stored since the summary was made, newest first, and `added`
      whether the check was created in this run. */
  datatype Summary = Summary(
    check: URLCheck, last: Option<Result>, uptime: real, history: seq<Result>, log: seq<Stored>, added: bool)

  /** The channel of the k-th goroutine is number k. */
  datatype CheckState = CheckState(check: URLCheck, stop: nat)

  datatype Phase =
    | Probing
    | Probed(result: Result)
    | Inserted(result: Result, rowId: Option<nat>)
    | Measured(result: Result, rowId: Option<nat>, uptime: real)
    | Waiting
    | Exited

  datatype Routine = Routine(check: URLCheck, phase: Phase)

  /** The tables, the two maps under the lock, the open stop channels, and the goroutines. */
  datatype Core = Core(
    tables: Tables,
    checks: map<nat, CheckState>,
    summaries: map<nat, Summary>,
    open: set<nat>,
    routines: seq<Routine>,
    doubleClosed: bool)

  // ----- The critical sections -------------------------------------------------------------

  function NewSummary(ch: URLCheck, added: bool): Summary {
    Summary(ch, None, 0.0, [], [], added)
  }

  /** startCheck: a fresh stop channel, an entry, a summary if there is none, a goroutine. */
  function StartSection(c: Core, ch: URLCheck): Core {
    var stop := |c.routines|;
    c.(checks := c.checks[ch.id := CheckState(ch, stop)],
       summaries := if ch.id in c.summaries then c.summaries else c.summaries[ch.id := NewSummary(ch, false)],
       open := c.open + {stop},
       routines := c.routines + [Routine(ch, Probing)])
  }

  /** stopCheck: closes the channel of the entry, if there is one, and drops the entry. */
  function StopSection(c: Core, id: nat): Core {
    if id in c.checks then
      var stop := c.checks[id].stop;
      c.(checks := c.checks - {id}, open := c.open - {stop}, doubleClosed := c.doubleClosed || stop !in c.open)
    else c
  }

  function PutSummary(c: Core, ch: URLCheck): Core {
    c.(summaries := c.summaries[ch.id := NewSummary(ch, true)])
  }

  function SetSummaryCheck(c: Core, ch: URLCheck): Core {
    if ch.id in c.summaries then c.(summaries := c.summaries[ch.id := c.summaries[ch.id].(check := ch)]) else c
  }

  function DropSummary(c: Core, id: nat): Core {
    c.(summaries := c.summaries - {id})
  }

  function Newest(history: seq<Result>): seq<Result> {
    if |history| > HISTORY_LENGTH then history[..HISTORY_LENGTH] else history
  }

  /** The guarded store of doAndStore. */
  function StoreSection(c: Core, id: nat, result: Result, rowId: Option<nat>, uptime: real): Core {
    if id in c.summaries then
      var s := c.summaries[id];
      c.(summaries := c.summaries[id :=
           s.(last := Some(result), uptime := uptime, history := Newest([result] + s.history),
              log := [Stored(result, rowId)] + s.log)])
    else c
  }

  function SetPhase(c: Core, g: nat, phase: Phase): Core
    requires g < |c.routines|
  {
    c.(routines := c.routines[g := c.routines[g].(phase := phase)])
  }

  // ----- The calls in progress -------------------------------------------------------------

  /** How far a create, update or delete call has come. */
  datatype Pending =
    | AddInserted(check: URLCheck)   // the row is in; next its summary
    | AddReady(check: URLCheck)      // next startCheck
    | UpdateWritten(check: URLCheck) // the row is written; next stopCheck
    | UpdateStopped(check: URLCheck) // next the summary
    | UpdateReady(check: URLCheck)   // next startCheck
    | RemoveStopped(id: nat)         // next the summary
    | RemoveForgotten(id: nat)       // next the row

  function Target(p: Pending): nat {
    match p
    case AddInserted(ch) => ch.id
    case AddReady(ch) => ch.id
    case UpdateWritten(ch) => ch.id
    case UpdateStopped(ch) => ch.id
    case UpdateReady(ch) => ch.id
    case RemoveStopped(id) => id
    case RemoveForgotten(id) => id
  }

  /** `todo` are the enabled rows Start has still to start; calls arrive once it is done. When
      Start could not list the rows (`unread`), the program goes on without them. */
  datatype State = State(
    core: Core, pending: map<nat, Pending>, nextCall: nat, listed: bool, unread: bool, todo: seq<URLCheck>)

  datatype Action =
    | BootList(order: seq<nat>)
    | BootFail
    | BootOne
    | BeginAdd(check: URLCheck)
    | AddSummary(call: nat)
    | AddStart(call: nat)
    | BeginUpdate(check: URLCheck)
    | UpdateStop(call: nat)
    | UpdateSummary(call: nat)
    | UpdateStart(call: nat)
    | RemoveStop(id: nat)
    | RemoveSummary(call: nat)
    | RemoveRow(call: nat, ok: bool)
    | Probe(g: nat, outcome: URLResult)
    | Insert(g: nat, ok: bool)
    | Measure(g: nat, now: int, ok: bool)
    | Store(g: nat)
    | Tick(g: nat)
    | Quit(g: nat)
    | Cancel(g: nat)
    | PurgeResults(now: int)

  ghost predicate IsRowListing(t: Tables, order: seq<nat>) {
    && (forall id :: id in order <==> id in t.urlChecks.rows)
    && (forall i, j :: 0 <= i < j < |order| ==> order[i] != order[j])
  }

  function EnabledRows(t: Tables, order: seq<nat>): seq<URLCheck>
    requires forall i :: 0 <= i < |order| ==> order[i] in t.urlChecks.rows
  {
    if order == [] then []
    else (if t.urlChecks.rows[order[0]].enabled then [t.urlChecks.rows[order[0]]] else []) + EnabledRows(t, order[1..])
  }

  // ----- The goroutines --------------------------------------------------------------------

  predicate OfRoutine(a: Action) {
    a.Probe? || a.Insert? || a.Measure? || a.Store? || a.Tick? || a.Quit? || a.Cancel?
  }

  predicate RoutineEnabled(c: Core, a: Action) {
    && OfRoutine(a) && a.g < |c.routines|
    && match a
       case Probe(g, _) => c.routines[g].phase.Probing?
       case Insert(g, _) => c.routines[g].phase.Probed?
       case Measure(g, _, _) => c.routines[g].phase.Inserted?
       case Store(g) => c.routines[g].phase.Measured?
       case Quit(g) => c.routines[g].phase.Waiting? && g !in c.open
       case _ => c.routines[a.g].phase.Waiting?
  }

  function RoutineNext(c: Core, a: Action): Core
    requires RoutineEnabled(c, a)
  {
    match a
    case Probe(g, outcome) =>
      var ch := c.routines[g].check;
      SetPhase(c, g, Probed(Result(outcome.(checkId := ch.id), ch.url, ch.labelText)))
    case Insert(g, ok) =>
      var r := c.routines[g].phase.result;
      if ok && r.row.checkId in c.tables.urlChecks.rows then
        SetPhase(c, g, Inserted(r, Some(c.tables.urlResults.lastId + 1))).(tables := InsertURLResult(c.tables, r.row))
      else
        SetPhase(c, g, Inserted(r, None))
    case Measure(g, now, ok) =>
      var ph := c.routines[g].phase;
      SetPhase(c, g, Measured(ph.result, ph.rowId, if ok then URLUptime(c.tables, c.routines[g].check.id, now - DAY) else 0.0))
    case Store(g) =>
      var ph := c.routines[g].phase;
      SetPhase(StoreSection(c, c.routines[g].check.id, ph.result, ph.rowId, ph.uptime), g, Waiting)
    case Tick(g) => SetPhase(c, g, Probing)
    case Quit(g) => SetPhase(c, g, Exited)
    case Cancel(g) => SetPhase(c, g, Exited)
  }

  // ----- The protocol ----------------------------------------------------------------------

  predicate Up(s: State) {
    s.listed && s.todo == []
  }

  ghost predicate Enabled(s: State, a: Action) {
    match a
    case BootList(order) => !s.listed && IsRowListing(s.core.tables, order)
    case BootFail => !s.listed
    case BootOne => s.listed && s.todo != []
    case BeginAdd(ch) => Up(s) && !UrlTaken(s.core.tables, ch.url, 0)
    case AddSummary(p) => p in s.pending && s.pending[p].AddInserted?
    case AddStart(p) => p in s.pending && s.pending[p].AddReady?
    case BeginUpdate(ch) => Up(s) && !UpdateClashes(s.core.tables, ch)
    case UpdateStop(p) => p in s.pending && s.pending[p].UpdateWritten?
    case UpdateSummary(p) => p in s.pending && s.pending[p].UpdateStopped?
    case UpdateStart(p) => p in s.pending && s.pending[p].UpdateReady?
    case RemoveStop(_) => Up(s)
    case RemoveSummary(p) => p in s.pending && s.pending[p].RemoveStopped?
    case RemoveRow(p, _) => p in s.pending && s.pending[p].RemoveForgotten?
    case PurgeResults(_) => true
    case _ => RoutineEnabled(s.core, a)
  }

  function Begin(s: State, core: Core, p: Pending): State {
    s.(core := core, pending := s.pending[s.nextCall := p], nextCall := s.nextCall + 1)
  }

  function Advance(s: State, core: Core, call: nat, p: Pending): State {
    s.(core := core, pending := s.pending[call := p])
  }

  function Return(s: State, core: Core, call: nat): State {
    s.(core := core, pending := s.pending - {call})
  }

  function AddBegun(s: State, ch: URLCheck): State {
    var id := s.core.tables.urlChecks.lastId + 1;
    Begin(s, s.core.(tables := InsertURLCheck(s.core.tables, ch)), AddInserted(ch.(id := id)))
  }

  function SummaryAdded(s: State, p: nat): State
    requires p in s.pending && s.pending[p].AddInserted?
  {
    var ch := s.pending[p].check;
    if ch.enabled then Advance(s, PutSummary(s.core, ch), p, AddReady(ch)) else Return(s, PutSummary(s.core, ch), p)
  }

  function UpdateBegun(s: State, ch: URLCheck): State {
    Begin(s, s.core.(tables := UpdateURLCheck(s.core.tables, ch)), UpdateWritten(ch))
  }

  function SummaryUpdated(s: State, p: nat): State
    requires p in s.pending && s.pending[p].UpdateStopped?
  {
    var ch := s.pending[p].check;
    var core := SetSummaryCheck(s.core, ch);
    if ch.enabled then Advance(s, core, p, UpdateReady(ch)) else Return(s, core, p)
  }

  ghost function Next(s: State, a: Action): State
    requires Enabled(s, a)
  {
    var c := s.core;
    match a
    case BootList(order) => s.(listed := true, todo := EnabledRows(c.tables, order))
    case BootFail => s.(listed := true, unread := true)
    case BootOne => s.(core := StartSection(c, s.todo[0]), todo := s.todo[1..])
    case BeginAdd(ch) => AddBegun(s, ch)
    case AddSummary(p) => SummaryAdded(s, p)
    case AddStart(p) => Return(s, StartSection(c, s.pending[p].check), p)
    case BeginUpdate(ch) => UpdateBegun(s, ch)
    case UpdateStop(p) => Advance(s, StopSection(c, s.pending[p].check.id), p, UpdateStopped(s.pending[p].check))
    case UpdateSummary(p) => SummaryUpdated(s, p)
    case UpdateStart(p) => Return(s, StartSection(c, s.pending[p].check), p)
    case RemoveStop(id) => Begin(s, StopSection(c, id), RemoveStopped(id))
    case RemoveSummary(p) => Advance(s, DropSummary(c, s.pending[p].id), p, RemoveForgotten(s.pending[p].id))
    case RemoveRow(p, ok) =>
      Return(s, if ok then c.(tables := DeleteURLCheck(c.tables, s.pending[p].id)) else c, p)
    case PurgeResults(now) => s.(core := c.(tables := Purge(c.tables, now, 1)))
    case _ => s.(core := RoutineNext(c, a))
  }

  ghost predicate ValidRun(s: State, actions: seq<Action>)
    decreases |actions|
  {
    actions == [] || (Enabled(s, actions[0]) && ValidRun(Next(s, actions[0]), actions[1..]))
  }

  ghost function Run(s: State, actions: seq<Action>): State
    requires ValidRun(s, actions)
    decreases |actions|
  {
    if actions == [] then s else Run(Next(s, actions[0]), actions[1..])
  }

  /** A new process over existing tables. */
  function Initial(t: Tables): State {
    State(Core(t, map[], map[], {}, [], false), map[], 0, false, false, [])
  }

  // ----- Calls on one id serialised --------------------------------------------------------

  ghost predicate Busy(s: State, id: nat) {
    exists p :: p in s.pending && Target(s.pending[p]) == id
  }

  /** No call begins on an id that another call is still working on; an update is of a row
      that exists; and the database call of a delete succeeds. */
  ghost predicate SerialStep(s: State, a: Action) {
    match a
    case BeginAdd(_) => !Busy(s, s.core.tables.urlChecks.lastId + 1)
    case BeginUpdate(ch) => !Busy(s, ch.id) && ch.id in s.core.tables.urlChecks.rows
    case RemoveStop(id) => !Busy(s, id)
    case RemoveRow(_, ok) => ok
    case _ => true
  }

  ghost predicate SerialRun(s: State, actions: seq<Action>)
    decreases |actions|
  {
    actions == []
    || (Enabled(s, actions[0]) && SerialStep(s, actions[0]) && SerialRun(Next(s, actions[0]), actions[1..]))
  }
}
