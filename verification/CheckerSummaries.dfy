/** With calls on the same id serialised: a summary shows the row of its check, and every check
    that runs has one. */
module CheckerSummaries {
  import opened Database
  import opened Checker
  import opened CheckerOwnership

  ghost predicate ShowsRow(s: State, id: nat) {
    var c := s.core;
    && (id in c.checks ==> id in c.summaries)
    && (id in c.summaries && !Busy(s, id) ==> id in Rows(c) && c.summaries[id].check == Rows(c)[id])
  }

  /** Between the summary and the start of a call. */
  ghost predicate StageShows(c: Core, p: Pending) {
    p.AddReady? || p.UpdateReady? ==> p.check.id in c.summaries ==> c.summaries[p.check.id].check == p.check
  }

  ghost predicate Shown(s: State) {
    && Own(s)
    && (forall id :: ShowsRow(s, id))
    && (forall p :: p in s.pending ==> StageShows(s.core, s.pending[p]))
  }

  /** The summaries show the same checks, except for check t. */
  ghost predicate SummariesOff(c: Core, c': Core, t: nat) {
    forall id :: id != t ==>
      (id in c.summaries <==> id in c'.summaries) && (id in c.summaries ==> c'.summaries[id].check == c.summaries[id].check)
  }

  lemma LocalShown(s: State, s': State, t: nat)
    requires Shown(s) && Own(s')
    requires AgreeOff(s.core, s'.core, t) && CallsAgreeOff(s, s', t) && SummariesOff(s.core, s'.core, t)
    requires ShowsRow(s', t)
    requires forall p :: p in s'.pending && Target(s'.pending[p]) == t ==> StageShows(s'.core, s'.pending[p])
    ensures Shown(s')
  {
    forall id
      ensures ShowsRow(s', id)
    {
      if id != t {
        assert ShowsRow(s, id);
        BusyOff(s, s', t, id);
      }
    }
    forall p | p in s'.pending
      ensures StageShows(s'.core, s'.pending[p])
    {
      if Target(s'.pending[p]) != t {
        assert StageShows(s.core, s.pending[p]);
      }
    }
  }

  lemma SameShown(s: State, s': State)
    requires Shown(s) && Own(s') && s'.pending == s.pending
    requires Rows(s'.core) == Rows(s.core) && s'.core.summaries.Keys == s.core.summaries.Keys
    requires s'.core.checks.Keys == s.core.checks.Keys
    requires forall id :: id in s.core.summaries ==> s'.core.summaries[id].check == s.core.summaries[id].check
    ensures Shown(s')
  {
    forall id
      ensures ShowsRow(s', id)
    {
      assert ShowsRow(s, id);
      assert Busy(s, id) <==> Busy(s', id);
    }
    forall p | p in s'.pending
      ensures StageShows(s'.core, s'.pending[p])
    {
      assert StageShows(s.core, s.pending[p]);
    }
  }

  // ----- Calls -----------------------------------------------------------------------------

  lemma ShownBeginAdd(s: State, ch: URLCheck)
    requires Shown(s) && Up(s) && Own(AddBegun(s, ch)) && !Busy(s, s.core.tables.urlChecks.lastId + 1)
    ensures Shown(AddBegun(s, ch))
  {
    var s', t := AddBegun(s, ch), s.core.tables.urlChecks.lastId + 1;
    InsertedRow(s, ch);
    BegunPlaced(s, ch);
    BeginCalls(s, s'.core, AddInserted(ch.(id := t)));
    LocalShown(s, s', t);
  }

  lemma ShownAddSummary(s: State, p: nat)
    requires Shown(s) && p in s.pending && s.pending[p].AddInserted? && Own(SummaryAdded(s, p))
    ensures Shown(SummaryAdded(s, p))
  {
    var s', ch := SummaryAdded(s, p), s.pending[p].check;
    assert StageOk(s.core, s.pending[p]);
    if ch.enabled {
      AdvanceCalls(s, s'.core, p, AddReady(ch));
    } else {
      ReturnCalls(s, s'.core, p);
    }
    LocalShown(s, s', ch.id);
  }

  lemma ShownStart(s: State, p: nat)
    requires Shown(s) && p in s.pending && (s.pending[p].AddReady? || s.pending[p].UpdateReady?)
    requires Own(Return(s, StartSection(s.core, s.pending[p].check), p))
    ensures Shown(Return(s, StartSection(s.core, s.pending[p].check), p))
  {
    var ch := s.pending[p].check;
    var c' := StartSection(s.core, ch);
    assert StageOk(s.core, s.pending[p]) && StageShows(s.core, s.pending[p]);
    StartedCheck(s.core, ch);
    ReturnCalls(s, c', p);
    LocalShown(s, Return(s, c', p), ch.id);
  }

  lemma ShownBeginUpdate(s: State, ch: URLCheck)
    requires Shown(s) && Up(s) && !Busy(s, ch.id) && ch.id in Rows(s.core) && Own(UpdateBegun(s, ch))
    ensures Shown(UpdateBegun(s, ch))
  {
    var s' := UpdateBegun(s, ch);
    BeginCalls(s, s'.core, UpdateWritten(ch));
    assert ShowsRow(s, ch.id);
    LocalShown(s, s', ch.id);
  }

  lemma ShownUpdateStop(s: State, p: nat)
    requires Shown(s) && p in s.pending && s.pending[p].UpdateWritten?
    requires Own(Advance(s, StopSection(s.core, s.pending[p].check.id), p, UpdateStopped(s.pending[p].check)))
    ensures Shown(Advance(s, StopSection(s.core, s.pending[p].check.id), p, UpdateStopped(s.pending[p].check)))
  {
    var ch := s.pending[p].check;
    var s' := Advance(s, StopSection(s.core, ch.id), p, UpdateStopped(ch));
    AdvanceCalls(s, s'.core, p, UpdateStopped(ch));
    StoppedCheck(s.core, ch.id);
    LocalShown(s, s', ch.id);
  }

  lemma ShownUpdateSummary(s: State, p: nat)
    requires Shown(s) && p in s.pending && s.pending[p].UpdateStopped? && Own(SummaryUpdated(s, p))
    ensures Shown(SummaryUpdated(s, p))
  {
    var s', ch := SummaryUpdated(s, p), s.pending[p].check;
    assert StageOk(s.core, s.pending[p]);
    RefreshedCheck(s.core, ch);
    if ch.enabled {
      AdvanceCalls(s, s'.core, p, UpdateReady(ch));
    } else {
      ReturnCalls(s, s'.core, p);
    }
    LocalShown(s, s', ch.id);
  }

  lemma ShownRemoveStop(s: State, id: nat)
    requires Shown(s) && Up(s) && !Busy(s, id) && Own(Begin(s, StopSection(s.core, id), RemoveStopped(id)))
    ensures Shown(Begin(s, StopSection(s.core, id), RemoveStopped(id)))
  {
    var s' := Begin(s, StopSection(s.core, id), RemoveStopped(id));
    BeginCalls(s, s'.core, RemoveStopped(id));
    StoppedCheck(s.core, id);
    LocalShown(s, s', id);
  }

  lemma ShownRemoveSummary(s: State, p: nat)
    requires Shown(s) && p in s.pending && s.pending[p].RemoveStopped?
    requires Own(Advance(s, DropSummary(s.core, s.pending[p].id), p, RemoveForgotten(s.pending[p].id)))
    ensures Shown(Advance(s, DropSummary(s.core, s.pending[p].id), p, RemoveForgotten(s.pending[p].id)))
  {
    var id := s.pending[p].id;
    var s' := Advance(s, DropSummary(s.core, id), p, RemoveForgotten(id));
    assert StageOk(s.core, s.pending[p]);
    AdvanceCalls(s, s'.core, p, RemoveForgotten(id));
    LocalShown(s, s', id);
  }

  lemma ShownRemoveRow(s: State, p: nat)
    requires Shown(s) && p in s.pending && s.pending[p].RemoveForgotten?
    requires Own(Return(s, s.core.(tables := DeleteURLCheck(s.core.tables, s.pending[p].id)), p))
    ensures Shown(Return(s, s.core.(tables := DeleteURLCheck(s.core.tables, s.pending[p].id)), p))
  {
    var id := s.pending[p].id;
    var s' := Return(s, s.core.(tables := DeleteURLCheck(s.core.tables, id)), p);
    assert StageOk(s.core, s.pending[p]);
    ReturnCalls(s, s'.core, p);
    LocalShown(s, s', id);
  }

  lemma ShownCall(s: State, a: Action)
    requires Shown(s) && Enabled(s, a) && SerialStep(s, a) && Own(Next(s, a))
    requires !OfRoutine(a) && !a.PurgeResults? && !a.BootList? && !a.BootFail? && !a.BootOne?
    ensures Shown(Next(s, a))
  {
    match a
    case BeginAdd(ch) => ShownBeginAdd(s, ch);
    case AddSummary(p) => ShownAddSummary(s, p);
    case AddStart(p) => ShownStart(s, p);
    case BeginUpdate(ch) => ShownBeginUpdate(s, ch);
    case UpdateStop(p) => ShownUpdateStop(s, p);
    case UpdateSummary(p) => ShownUpdateSummary(s, p);
    case UpdateStart(p) => ShownStart(s, p);
    case RemoveStop(id) => ShownRemoveStop(s, id);
    case RemoveSummary(p) => ShownRemoveSummary(s, p);
    case RemoveRow(p, _) => ShownRemoveRow(s, p);
  }

  // ----- Everything else -------------------------------------------------------------------

  lemma ShownBootOne(s: State)
    requires Shown(s) && s.listed && s.todo != []
    requires Own(s.(core := StartSection(s.core, s.todo[0]), todo := s.todo[1..]))
    ensures Shown(s.(core := StartSection(s.core, s.todo[0]), todo := s.todo[1..]))
  {
    var ch := s.todo[0];
    var s' := s.(core := StartSection(s.core, ch), todo := s.todo[1..]);
    assert ShowsRow(s, ch.id);
    StartedCheck(s.core, ch);
    LocalShown(s, s', ch.id);
  }

  lemma RoutineKeepsChecks(c: Core, a: Action)
    requires RoutineEnabled(c, a)
    ensures RoutineNext(c, a).checks == c.checks
    ensures RoutineNext(c, a).summaries.Keys == c.summaries.Keys
    ensures forall id :: id in c.summaries ==> RoutineNext(c, a).summaries[id].check == c.summaries[id].check
  {
  }

  lemma ShownRoutine(s: State, a: Action)
    requires Shown(s) && RoutineEnabled(s.core, a) && Own(s.(core := RoutineNext(s.core, a)))
    ensures Shown(s.(core := RoutineNext(s.core, a)))
  {
    RoutineKeepsRows(s.core, a);
    RoutineKeepsChecks(s.core, a);
    SameShown(s, s.(core := RoutineNext(s.core, a)));
  }

  lemma ShownStill(s: State, s': State)
    requires Shown(s) && Own(s') && s'.pending == s.pending
    requires s'.core.(tables := s.core.tables) == s.core && s'.core.tables.urlChecks == s.core.tables.urlChecks
    ensures Shown(s')
  {
    SameShown(s, s');
  }

  lemma ShownOther(s: State, a: Action)
    requires Shown(s) && Enabled(s, a) && Own(Next(s, a))
    requires OfRoutine(a) || a.PurgeResults? || a.BootList? || a.BootFail? || a.BootOne?
    ensures Shown(Next(s, a))
  {
    if OfRoutine(a) {
      ShownRoutine(s, a);
    } else if a.BootOne? {
      ShownBootOne(s);
    } else {
      ShownStill(s, Next(s, a));
    }
  }

  lemma StepShown(s: State, a: Action)
    requires Shown(s) && Enabled(s, a) && SerialStep(s, a)
    ensures Shown(Next(s, a))
  {
    StepOwn(s, a);
    if OfRoutine(a) || a.PurgeResults? || a.BootList? || a.BootFail? || a.BootOne? {
      ShownOther(s, a);
    } else {
      ShownCall(s, a);
    }
  }

  lemma {:induction false} ShownRun(s: State, actions: seq<Action>)
    requires Shown(s) && SerialRun(s, actions)
    ensures ValidRun(s, actions) && Shown(Run(s, actions))
    decreases |actions|
  {
    if actions != [] {
      StepShown(s, actions[0]);
      ShownRun(Next(s, actions[0]), actions[1..]);
    }
  }

  lemma ShownInitial(t: Tables)
    requires ValidRows(t)
    ensures Shown(Initial(t))
  {
    assert forall id :: PlacedId(Initial(t), id);
    assert forall id :: ShowsRow(Initial(t), id);
  }

  /** In every serialised interleaving: a check that runs has a summary, and a summary of a check
      no call works on shows the row of the table, with its url, its name and its settings, so
      an update is seen as soon as it returns. */
  lemma SummariesShowRows(t: Tables, actions: seq<Action>, id: nat)
    requires ValidRows(t) && SerialRun(Initial(t), actions)
    ensures ValidRun(Initial(t), actions)
    ensures var s := Run(Initial(t), actions);
            && (id in s.core.checks ==> id in s.core.summaries)
            && (id in s.core.summaries && !Busy(s, id) ==>
                  && id in s.core.tables.urlChecks.rows
                  && s.core.summaries[id].check == s.core.tables.urlChecks.rows[id])
  {
    ShownInitial(t);
    ShownRun(Initial(t), actions);
    assert ShowsRow(Run(Initial(t), actions), id);
  }
}
