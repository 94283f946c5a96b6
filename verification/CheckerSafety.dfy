/** What every interleaving keeps, calls on the same id included: stop channels, ids, and the
    history cache. */
module CheckerSafety {
  import opened Options
  import opened Database
  import opened Checker

  /** Every entry has a stop channel of its own, and it is open. */
  ghost predicate ChannelsOk(c: Core) {
    && !c.doubleClosed
    && (forall id :: id in c.checks ==> c.checks[id].stop in c.open && c.checks[id].check.id == id)
    && (forall i, j :: i in c.checks && j in c.checks && i != j ==> c.checks[i].stop != c.checks[j].stop)
    && (forall g :: g in c.open ==> g < |c.routines|)
    && (forall id :: id in c.checks ==> c.routines[c.checks[id].stop].check == c.checks[id].check)
  }

  predicate ResultOf(id: nat, r: Result) {
    r.row.checkId == id
  }

  predicate PhaseOf(id: nat, phase: Phase) {
    match phase
    case Probed(r) => ResultOf(id, r)
    case Inserted(r, _) => ResultOf(id, r)
    case Measured(r, _, _) => ResultOf(id, r)
    case _ => true
  }

  function Results(log: seq<Stored>): seq<Result> {
    seq(|log|, i requires 0 <= i < |log| => log[i].result)
  }

  /** The cache is the newest part of the log, and its head is the last result. */
  ghost predicate SummaryOk(id: nat, s: Summary) {
    && s.check.id == id
    && s.history == Newest(Results(s.log))
    && s.last == (if s.log == [] then None else Some(s.log[0].result))
    && (forall i :: 0 <= i < |s.log| ==> ResultOf(id, s.log[i].result))
  }

  ghost predicate SummariesOk(c: Core) {
    && (forall id :: id in c.summaries ==> SummaryOk(id, c.summaries[id]))
    && (forall g :: 0 <= g < |c.routines| ==> PhaseOf(c.routines[g].check.id, c.routines[g].phase))
  }

  lemma NewestOfNewest(r: Result, log: seq<Result>)
    ensures Newest([r] + Newest(log)) == Newest([r] + log)
  {
  }

  lemma StoreKeepsSummary(id: nat, s: Summary, r: Result, rowId: Option<nat>, uptime: real)
    requires SummaryOk(id, s) && ResultOf(id, r)
    ensures SummaryOk(id, s.(last := Some(r), uptime := uptime, history := Newest([r] + s.history),
                             log := [Stored(r, rowId)] + s.log))
  {
    NewestOfNewest(r, Results(s.log));
    assert Results([Stored(r, rowId)] + s.log) == [r] + Results(s.log);
  }

  lemma StartChannels(c: Core, ch: URLCheck)
    requires ChannelsOk(c)
    ensures ChannelsOk(StartSection(c, ch))
  {
  }

  lemma StopChannels(c: Core, id: nat)
    requires ChannelsOk(c)
    ensures ChannelsOk(StopSection(c, id))
  {
  }

  ghost predicate SameChannels(c: Core, c': Core) {
    && c'.checks == c.checks && c'.open == c.open && c'.doubleClosed == c.doubleClosed
    && |c'.routines| == |c.routines|
    && (forall g :: 0 <= g < |c.routines| ==> c'.routines[g].check == c.routines[g].check)
  }

  lemma FrameChannels(c: Core, c': Core)
    requires ChannelsOk(c) && SameChannels(c, c')
    ensures ChannelsOk(c')
  {
  }

  predicate StartsOrStops(a: Action) {
    a.BootOne? || a.AddStart? || a.UpdateStart? || a.UpdateStop? || a.RemoveStop?
  }

  /** Only starting and stopping touch entries and channels; only goroutine steps touch
      goroutines. */
  lemma CallsKeepChannels(s: State, a: Action)
    requires Enabled(s, a) && !StartsOrStops(a) && !OfRoutine(a)
    ensures SameChannels(s.core, Next(s, a).core)
    ensures Next(s, a).core.routines == s.core.routines
  {
  }

  lemma RoutineChannels(c: Core, a: Action)
    requires RoutineEnabled(c, a)
    ensures SameChannels(c, RoutineNext(c, a))
  {
    var c' := RoutineNext(c, a);
    assert c'.routines == c.routines[a.g := c.routines[a.g].(phase := c'.routines[a.g].phase)];
  }

  lemma OthersKeepChannels(s: State, a: Action)
    requires Enabled(s, a) && !StartsOrStops(a)
    ensures SameChannels(s.core, Next(s, a).core)
  {
    if OfRoutine(a) {
      RoutineChannels(s.core, a);
    } else {
      CallsKeepChannels(s, a);
    }
  }

  lemma StartOrStopChannels(s: State, a: Action)
    requires ChannelsOk(s.core) && Enabled(s, a) && StartsOrStops(a)
    ensures ChannelsOk(Next(s, a).core)
  {
    match a
    case BootOne => StartChannels(s.core, s.todo[0]);
    case AddStart(p) => StartChannels(s.core, s.pending[p].check);
    case UpdateStart(p) => StartChannels(s.core, s.pending[p].check);
    case UpdateStop(p) => StopChannels(s.core, s.pending[p].check.id);
    case RemoveStop(id) => StopChannels(s.core, id);
  }

  lemma ChannelsNext(s: State, a: Action)
    requires ChannelsOk(s.core) && Enabled(s, a)
    ensures ChannelsOk(Next(s, a).core)
  {
    if StartsOrStops(a) {
      StartOrStopChannels(s, a);
    } else {
      OthersKeepChannels(s, a);
      FrameChannels(s.core, Next(s, a).core);
    }
  }

  lemma StartSummaries(c: Core, ch: URLCheck)
    requires SummariesOk(c)
    ensures SummariesOk(StartSection(c, ch))
  {
    assert SummaryOk(ch.id, NewSummary(ch, false));
  }

  lemma CallSummaries(c: Core, ch: URLCheck, id: nat)
    requires SummariesOk(c)
    ensures SummariesOk(PutSummary(c, ch))
    ensures SummariesOk(SetSummaryCheck(c, ch))
    ensures SummariesOk(DropSummary(c, id))
    ensures SummariesOk(StopSection(c, id))
  {
    assert SummaryOk(ch.id, NewSummary(ch, true));
  }

  lemma PhaseSummaries(c: Core, g: nat, phase: Phase)
    requires SummariesOk(c) && g < |c.routines| && PhaseOf(c.routines[g].check.id, phase)
    ensures SummariesOk(SetPhase(c, g, phase))
  {
  }

  lemma StoreSummaries(c: Core, g: nat)
    requires SummariesOk(c) && g < |c.routines| && c.routines[g].phase.Measured?
    ensures var ph := c.routines[g].phase;
            SummariesOk(StoreSection(c, c.routines[g].check.id, ph.result, ph.rowId, ph.uptime))
  {
    var id, ph := c.routines[g].check.id, c.routines[g].phase;
    assert PhaseOf(id, ph);
    if id in c.summaries {
      StoreKeepsSummary(id, c.summaries[id], ph.result, ph.rowId, ph.uptime);
    }
  }

  lemma RoutineSummaries(c: Core, a: Action)
    requires SummariesOk(c) && RoutineEnabled(c, a)
    ensures SummariesOk(RoutineNext(c, a))
  {
    var g := a.g;
    assert PhaseOf(c.routines[g].check.id, c.routines[g].phase);
    if a.Store? {
      StoreSummaries(c, g);
      var ph := c.routines[g].phase;
      PhaseSummaries(StoreSection(c, c.routines[g].check.id, ph.result, ph.rowId, ph.uptime), g, Waiting);
    } else {
      PhaseSummaries(c, g, RoutineNext(c, a).routines[g].phase);
    }
  }

  lemma StartingSummaries(s: State, a: Action)
    requires SummariesOk(s.core) && Enabled(s, a) && StartsOrStops(a)
    ensures SummariesOk(Next(s, a).core)
  {
    var none := URLCheck(0, "", "", 0, 0, false);
    match a
    case BootOne => StartSummaries(s.core, s.todo[0]);
    case AddStart(p) => StartSummaries(s.core, s.pending[p].check);
    case UpdateStart(p) => StartSummaries(s.core, s.pending[p].check);
    case UpdateStop(p) => CallSummaries(s.core, none, s.pending[p].check.id);
    case RemoveStop(id) => CallSummaries(s.core, none, id);
  }

  lemma OtherSummaries(s: State, a: Action)
    requires SummariesOk(s.core) && Enabled(s, a) && !StartsOrStops(a) && !OfRoutine(a)
    ensures SummariesOk(Next(s, a).core)
  {
    if a.AddSummary? || a.UpdateSummary? {
      CallSummaries(s.core, s.pending[a.call].check, 0);
    } else if a.RemoveSummary? {
      CallSummaries(s.core, URLCheck(0, "", "", 0, 0, false), s.pending[a.call].id);
    }
  }

  lemma SummariesNext(s: State, a: Action)
    requires SummariesOk(s.core) && Enabled(s, a)
    ensures SummariesOk(Next(s, a).core)
  {
    if OfRoutine(a) {
      RoutineSummaries(s.core, a);
    } else if StartsOrStops(a) {
      StartingSummaries(s, a);
    } else {
      OtherSummaries(s, a);
    }
  }

  lemma {:induction false} SafeRun(s: State, actions: seq<Action>)
    requires ChannelsOk(s.core) && SummariesOk(s.core) && ValidRun(s, actions)
    ensures ChannelsOk(Run(s, actions).core) && SummariesOk(Run(s, actions).core)
    decreases |actions|
  {
    if actions != [] {
      ChannelsNext(s, actions[0]);
      SummariesNext(s, actions[0]);
      SafeRun(Next(s, actions[0]), actions[1..]);
    }
  }

  /** Extending a run by one step. */
  lemma OneMore(s: State, actions: seq<Action>, a: Action)
    requires ValidRun(s, actions) && Enabled(Run(s, actions), a)
    ensures ValidRun(s, actions + [a]) && Run(s, actions + [a]) == Next(Run(s, actions), a)
    decreases |actions|
  {
    if actions != [] {
      OneMore(Next(s, actions[0]), actions[1..], a);
      assert (actions + [a])[1..] == actions[1..] + [a];
    } else {
      assert ([] + [a])[1..] == [];
    }
  }

  /** In every interleaving whatever, no stop channel is closed twice, every entry of `checks`
      has an open one that no other entry shares, every result in a summary is of its own
      check, and each history is the newest twenty of all results stored since its summary
      was made, newest first, with the last result at its head. */
  lemma EveryInterleavingIsSafe(t: Tables, actions: seq<Action>)
    requires ValidRun(Initial(t), actions)
    ensures var c := Run(Initial(t), actions).core;
            && !c.doubleClosed
            && (forall id :: id in c.checks ==> c.checks[id].stop in c.open && c.checks[id].check.id == id)
            && (forall i, j :: i in c.checks && j in c.checks && i != j ==> c.checks[i].stop != c.checks[j].stop)
            && (forall id :: id in c.summaries ==> SummaryOk(id, c.summaries[id]))
  {
    SafeRun(Initial(t), actions);
  }
}
