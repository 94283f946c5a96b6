/** What calls that overlap on one id can do, and exactly when they do it: leave a goroutine
    nobody can stop, and bring a deleted check back. */
module CheckerOverlap {
  import opened Database
  import opened Checker
  import opened CheckerSafety
  import opened CheckerOwnership

  // ----- Channels that nobody can close ----------------------------------------------------

  /** A channel that is open although no entry has it: nothing can close it any more. */
  predicate Leaked(c: Core, stop: nat) {
    stop in c.open && forall id :: id in c.checks ==> c.checks[id].stop != stop
  }

  ghost predicate SomeLeak(c: Core) {
    exists stop: nat :: Leaked(c, stop)
  }

  /** Two updates of one check, with the calls interleaved step by step. */
  lemma BothReady(s: State, ch: URLCheck, q: nat) returns (actions: seq<Action>)
    requires Enabled(s, BeginUpdate(ch)) && ch.enabled && s.nextCall !in s.pending && q == s.nextCall + 1 && q !in s.pending
    ensures ValidRun(s, actions)
    ensures var s' := Run(s, actions);
            && s.nextCall in s'.pending && s'.pending[s.nextCall] == UpdateReady(ch)
            && q in s'.pending && s'.pending[q] == UpdateReady(ch)
  {
    var p := s.nextCall;
    OneMore(s, [], BeginUpdate(ch));
    actions := [] + [BeginUpdate(ch)];
    OneMore(s, actions, BeginUpdate(ch));
    actions := actions + [BeginUpdate(ch)];
    OneMore(s, actions, UpdateStop(p));
    actions := actions + [UpdateStop(p)];
    OneMore(s, actions, UpdateStop(q));
    actions := actions + [UpdateStop(q)];
    OneMore(s, actions, UpdateSummary(p));
    actions := actions + [UpdateSummary(p)];
    OneMore(s, actions, UpdateSummary(q));
    actions := actions + [UpdateSummary(q)];
  }

  lemma SecondStartLeaks(s: State, p: nat, q: nat)
    requires ChannelsOk(s.core) && p != q && p in s.pending && q in s.pending
    requires s.pending[p].UpdateReady? && s.pending[q] == s.pending[p]
    ensures Enabled(s, UpdateStart(p)) && Enabled(Next(s, UpdateStart(p)), UpdateStart(q))
    ensures Leaked(Next(Next(s, UpdateStart(p)), UpdateStart(q)).core, |s.core.routines|)
  {
  }

  /** Serialising matters: wherever an update that enables a check may begin, two of them at
      once can leave a channel open with no entry. */
  lemma ConcurrentUpdatesLeak(s: State, ch: URLCheck) returns (actions: seq<Action>, stop: nat)
    requires ChannelsOk(s.core) && SummariesOk(s.core) && CallsOk(s)
    requires Enabled(s, BeginUpdate(ch)) && ch.enabled
    ensures ValidRun(s, actions) && Leaked(Run(s, actions).core, stop)
  {
    var p, q := s.nextCall, s.nextCall + 1;
    actions := BothReady(s, ch, q);
    SafeRun(s, actions);
    var ready := Run(s, actions);
    stop := |ready.core.routines|;
    SecondStartLeaks(ready, p, q);
    OneMore(s, actions, UpdateStart(p));
    actions := actions + [UpdateStart(p)];
    OneMore(s, actions, UpdateStart(q));
    actions := actions + [UpdateStart(q)];
  }

  /** startCheck puts a new entry over an entry that is there. */
  predicate Overwrites(s: State, a: Action) {
    match a
    case BootOne => s.todo != [] && s.todo[0].id in s.core.checks
    case AddStart(p) => p in s.pending && s.pending[p].AddReady? && s.pending[p].check.id in s.core.checks
    case UpdateStart(p) => p in s.pending && s.pending[p].UpdateReady? && s.pending[p].check.id in s.core.checks
    case _ => false
  }

  ghost predicate SomeOverwrite(s: State, actions: seq<Action>)
    decreases |actions|
  {
    actions != [] && Enabled(s, actions[0])
    && (Overwrites(s, actions[0]) || SomeOverwrite(Next(s, actions[0]), actions[1..]))
  }

  lemma OverwriteLeaks(s: State, a: Action) returns (stop: nat)
    requires ChannelsOk(s.core) && Enabled(s, a) && Overwrites(s, a)
    ensures Leaked(Next(s, a).core, stop)
  {
    match a
    case BootOne => stop := s.core.checks[s.todo[0].id].stop;
    case AddStart(p) => stop := s.core.checks[s.pending[p].check.id].stop;
    case UpdateStart(p) => stop := s.core.checks[s.pending[p].check.id].stop;
  }

  lemma StartKeepsLeak(c: Core, ch: URLCheck, stop: nat)
    requires ChannelsOk(c) && Leaked(c, stop)
    ensures Leaked(StartSection(c, ch), stop)
  {
  }

  lemma LeakStays(s: State, a: Action, stop: nat)
    requires ChannelsOk(s.core) && Enabled(s, a) && Leaked(s.core, stop)
    ensures Leaked(Next(s, a).core, stop)
  {
    match a
    case BootOne => StartKeepsLeak(s.core, s.todo[0], stop);
    case AddStart(p) => StartKeepsLeak(s.core, s.pending[p].check, stop);
    case UpdateStart(p) => StartKeepsLeak(s.core, s.pending[p].check, stop);
    case UpdateStop(_) =>
    case RemoveStop(_) =>
    case _ => OthersKeepChannels(s, a);
  }

  lemma StartOrStopOpen(s: State, a: Action)
    requires ChannelsOk(s.core) && OpenOk(s.core) && Enabled(s, a) && !Overwrites(s, a) && StartsOrStops(a)
    ensures OpenOk(Next(s, a).core)
  {
    match a
    case BootOne => StartOpen(s.core, s.todo[0]);
    case AddStart(p) => StartOpen(s.core, s.pending[p].check);
    case UpdateStart(p) => StartOpen(s.core, s.pending[p].check);
    case UpdateStop(p) => StopOpen(s.core, s.pending[p].check.id);
    case RemoveStop(id) => StopOpen(s.core, id);
  }

  lemma FrameOpen(c: Core, c': Core)
    requires OpenOk(c) && SameChannels(c, c')
    ensures OpenOk(c')
  {
  }

  lemma OpenStays(s: State, a: Action)
    requires ChannelsOk(s.core) && OpenOk(s.core) && Enabled(s, a) && !Overwrites(s, a)
    ensures OpenOk(Next(s, a).core)
  {
    if StartsOrStops(a) {
      StartOrStopOpen(s, a);
    } else {
      OthersKeepChannels(s, a);
      FrameOpen(s.core, Next(s, a).core);
    }
  }

  lemma {:induction false} LeakedRun(s: State, actions: seq<Action>, stop: nat)
    requires ChannelsOk(s.core) && ValidRun(s, actions) && Leaked(s.core, stop)
    ensures Leaked(Run(s, actions).core, stop)
    decreases |actions|
  {
    if actions != [] {
      LeakStays(s, actions[0], stop);
      ChannelsNext(s, actions[0]);
      LeakedRun(Next(s, actions[0]), actions[1..], stop);
    }
  }

  lemma OpenMeansNoLeak(c: Core)
    requires OpenOk(c)
    ensures !SomeLeak(c)
  {
    forall stop: nat
      ensures !Leaked(c, stop)
    {
      if stop in c.open {
        var id := c.routines[stop].check.id;
        assert id in c.checks && c.checks[id].stop == stop;
      }
    }
  }

  lemma {:induction false} LeaksFrom(s: State, actions: seq<Action>)
    requires ChannelsOk(s.core) && OpenOk(s.core) && ValidRun(s, actions)
    ensures SomeLeak(Run(s, actions).core) <==> SomeOverwrite(s, actions)
    decreases |actions|
  {
    if actions == [] {
      OpenMeansNoLeak(s.core);
    } else {
      var a := actions[0];
      ChannelsNext(s, a);
      if Overwrites(s, a) {
        var stop := OverwriteLeaks(s, a);
        LeakedRun(Next(s, a), actions[1..], stop);
        assert Leaked(Run(s, actions).core, stop);
      } else {
        OpenStays(s, a);
        LeaksFrom(Next(s, a), actions[1..]);
      }
    }
  }

  /** At the end of a run some channel is open that nothing can close if and only if some
      startCheck of the run found its id already in `checks`. */
  lemma LeakIff(t: Tables, actions: seq<Action>)
    requires ValidRun(Initial(t), actions)
    ensures SomeLeak(Run(Initial(t), actions).core) <==> SomeOverwrite(Initial(t), actions)
  {
    LeaksFrom(Initial(t), actions);
  }

  // ----- Deleted checks that come back -----------------------------------------------------

  predicate Present(c: Core, id: nat) {
    id in c.checks || id in c.summaries
  }

  ghost predicate EverPresent(s: State, actions: seq<Action>, id: nat)
    decreases |actions|
  {
    Present(s.core, id)
    || (actions != [] && Enabled(s, actions[0]) && EverPresent(Next(s, actions[0]), actions[1..], id))
  }

  lemma {:induction false} RowStaysGone(s: State, actions: seq<Action>, id: nat)
    requires ValidRun(s, actions) && Removed(s, id)
    ensures Removed(Run(s, actions), id)
    decreases |actions|
  {
    if actions != [] {
      StepRemoved(s, actions[0], id);
      RowStaysGone(Next(s, actions[0]), actions[1..], id);
    }
  }

  /** The call has an entry or a summary of id still to write. */
  predicate StillWrites(p: Pending, id: nat) {
    match p
    case AddInserted(ch) => ch.id == id
    case AddReady(ch) => ch.id == id
    case UpdateWritten(ch) => ch.id == id && ch.enabled
    case UpdateStopped(ch) => ch.id == id && ch.enabled
    case UpdateReady(ch) => ch.id == id
    case _ => false
  }

  predicate SomeStillWrites(s: State, id: nat) {
    exists p :: p in s.pending && StillWrites(s.pending[p], id)
  }

  /** The request reads the row before it calls Update. `read` are the ids whose row some request
      has read already without having called Update yet. */
  ghost predicate ReadsFirst(s: State, actions: seq<Action>, read: set<nat>)
    decreases |actions|
  {
    actions == []
    || (Enabled(s, actions[0])
        && (actions[0].BeginUpdate? ==> actions[0].check.id in Rows(s.core) || actions[0].check.id in read)
        && ReadsFirst(Next(s, actions[0]), actions[1..], read))
  }

  /** No call works on bringing the id back. */
  predicate Forgotten(s: State, id: nat) {
    Up(s) && !Present(s.core, id) && !SomeStillWrites(s, id)
  }

  lemma RoutineKeepsForgotten(c: Core, a: Action, id: nat)
    requires RoutineEnabled(c, a)
    ensures Present(RoutineNext(c, a), id) <==> Present(c, id)
  {
  }

  lemma BeginKeepsForgotten(s: State, core: Core, p: Pending, id: nat)
    requires Forgotten(s, id) && !Present(core, id) && !StillWrites(p, id)
    ensures Forgotten(Begin(s, core, p), id)
  {
  }

  lemma AdvanceKeepsForgotten(s: State, core: Core, call: nat, p: Pending, id: nat)
    requires Forgotten(s, id) && !Present(core, id) && !StillWrites(p, id)
    ensures Forgotten(Advance(s, core, call, p), id) && Forgotten(Return(s, core, call), id)
  {
  }

  lemma BeginStep(s: State, a: Action, id: nat)
    requires Forgotten(s, id) && Removed(s, id) && Enabled(s, a)
    requires a.BeginAdd? || (a.BeginUpdate? && a.check.id != id) || a.RemoveStop?
    ensures Forgotten(Next(s, a), id)
  {
    match a
    case BeginAdd(ch) =>
      var t := s.core.tables.urlChecks.lastId + 1;
      BeginKeepsForgotten(s, s.core.(tables := InsertURLCheck(s.core.tables, ch)), AddInserted(ch.(id := t)), id);
    case BeginUpdate(ch) =>
      BeginKeepsForgotten(s, s.core.(tables := UpdateURLCheck(s.core.tables, ch)), UpdateWritten(ch), id);
    case RemoveStop(t) =>
      BeginKeepsForgotten(s, StopSection(s.core, t), RemoveStopped(t), id);
  }

  predicate OfCall(a: Action) {
    a.AddSummary? || a.AddStart? || a.UpdateStop? || a.UpdateSummary? || a.UpdateStart? || a.RemoveSummary? || a.RemoveRow?
  }

  lemma CallStep(s: State, a: Action, id: nat)
    requires Forgotten(s, id) && Enabled(s, a) && OfCall(a)
    ensures Forgotten(Next(s, a), id)
  {
    var p := s.pending[a.call];
    assert !StillWrites(p, id);
    match a
    case AddSummary(call) => AdvanceKeepsForgotten(s, PutSummary(s.core, p.check), call, AddReady(p.check), id);
    case AddStart(call) => AdvanceKeepsForgotten(s, StartSection(s.core, p.check), call, p, id);
    case UpdateStop(call) =>
      AdvanceKeepsForgotten(s, StopSection(s.core, p.check.id), call, UpdateStopped(p.check), id);
    case UpdateSummary(call) =>
      var core := SetSummaryCheck(s.core, p.check);
      AdvanceKeepsForgotten(s, core, call, if p.check.enabled then UpdateReady(p.check) else p, id);
    case UpdateStart(call) => AdvanceKeepsForgotten(s, StartSection(s.core, p.check), call, p, id);
    case RemoveSummary(call) => AdvanceKeepsForgotten(s, DropSummary(s.core, p.id), call, RemoveForgotten(p.id), id);
    case RemoveRow(call, ok) =>
      AdvanceKeepsForgotten(s, Next(s, a).core, call, p, id);
  }

  lemma ForgottenStays(s: State, a: Action, id: nat, read: set<nat>)
    requires Forgotten(s, id) && Removed(s, id) && id !in read && Enabled(s, a)
    requires a.BeginUpdate? ==> a.check.id in Rows(s.core) || a.check.id in read
    ensures Forgotten(Next(s, a), id)
  {
    if OfRoutine(a) {
      RoutineKeepsForgotten(s.core, a, id);
    } else if OfCall(a) {
      CallStep(s, a, id);
    } else if !a.PurgeResults? {
      BeginStep(s, a, id);
    }
  }

  lemma {:induction false} ForgottenRun(s: State, actions: seq<Action>, id: nat, read: set<nat>)
    requires Forgotten(s, id) && Removed(s, id) && id !in read
    requires ValidRun(s, actions) && ReadsFirst(s, actions, read)
    ensures !EverPresent(s, actions, id)
    decreases |actions|
  {
    if actions != [] {
      ForgottenStays(s, actions[0], id, read);
      StepRemoved(s, actions[0], id);
      ForgottenRun(Next(s, actions[0]), actions[1..], id, read);
    }
  }

  function StepsLeft(p: Pending): nat {
    match p
    case UpdateWritten(_) => 2
    case UpdateStopped(_) => 1
    case _ => 0
  }

  lemma ThenPresent(s: State, a: Action, rest: seq<Action>, id: nat, read: set<nat>)
    requires Enabled(s, a) && ValidRun(Next(s, a), rest) && ReadsFirst(Next(s, a), rest, read)
    requires EverPresent(Next(s, a), rest, id)
    requires a.BeginUpdate? ==> a.check.id in Rows(s.core) || a.check.id in read
    ensures ValidRun(s, [a] + rest) && ReadsFirst(s, [a] + rest, read) && EverPresent(s, [a] + rest, id)
  {
    assert ([a] + rest)[1..] == rest;
  }

  /** A call that has the id still to write goes on to write it. */
  lemma {:induction false} WritesOn(s: State, p: nat, id: nat, read: set<nat>) returns (actions: seq<Action>)
    requires p in s.pending && StillWrites(s.pending[p], id)
    ensures ValidRun(s, actions) && ReadsFirst(s, actions, read) && EverPresent(s, actions, id)
    decreases StepsLeft(s.pending[p])
  {
    var a :=
      match s.pending[p]
      case AddInserted(_) => AddSummary(p)
      case AddReady(_) => AddStart(p)
      case UpdateWritten(_) => UpdateStop(p)
      case UpdateStopped(_) => UpdateSummary(p)
      case _ => UpdateStart(p);
    actions := [];
    if StepsLeft(s.pending[p]) > 0 {
      actions := WritesOn(Next(s, a), p, id, read);
    } else {
      assert Present(Next(s, a).core, id);
    }
    ThenPresent(s, a, actions, id, read);
    actions := [a] + actions;
  }

  /** An update whose row was read before the delete begins after it. */
  lemma LateUpdate(s: State, id: nat, read: set<nat>) returns (actions: seq<Action>)
    requires Up(s) && Removed(s, id) && id in read
    ensures ValidRun(s, actions) && ReadsFirst(s, actions, read) && EverPresent(s, actions, id)
  {
    var ch := URLCheck(id, "", "", 60, 10, true);
    assert Enabled(s, BeginUpdate(ch));
    var rest := WritesOn(Next(s, BeginUpdate(ch)), s.nextCall, id, read);
    ThenPresent(s, BeginUpdate(ch), rest, id, read);
    actions := [BeginUpdate(ch)] + rest;
  }

  /** The continuation shows the id in `checks` or `summaries`. */
  ghost predicate ShowsAgain(s: State, actions: seq<Action>, id: nat, read: set<nat>) {
    ValidRun(s, actions) && ReadsFirst(s, actions, read) && EverPresent(s, actions, id)
  }

  ghost predicate CanComeBack(s: State, id: nat, read: set<nat>) {
    exists actions :: ShowsAgain(s, actions, id, read)
  }

  lemma ComesBack(s: State, id: nat, read: set<nat>)
    requires Up(s) && Removed(s, id) && (Present(s.core, id) || SomeStillWrites(s, id) || id in read)
    ensures CanComeBack(s, id, read)
  {
    if Present(s.core, id) {
      assert ShowsAgain(s, [], id, read);
    } else if SomeStillWrites(s, id) {
      var p :| p in s.pending && StillWrites(s.pending[p], id);
      var actions := WritesOn(s, p, id, read);
      assert ShowsAgain(s, actions, id, read);
    } else {
      var actions := LateUpdate(s, id, read);
      assert ShowsAgain(s, actions, id, read);
    }
  }

  /** At the moment the row of a check is gone: some continuation shows the id in `checks` or
      `summaries` if and only if it is there now, or a call in progress has it still to write, or
      a request has read its row and not called Update yet. */
  lemma CanComeBackIff(s: State, id: nat, read: set<nat>)
    requires Up(s) && Removed(s, id)
    ensures CanComeBack(s, id, read) <==> Present(s.core, id) || SomeStillWrites(s, id) || id in read
  {
    if Present(s.core, id) || SomeStillWrites(s, id) || id in read {
      ComesBack(s, id, read);
    } else {
      forall actions | ValidRun(s, actions) && ReadsFirst(s, actions, read)
        ensures !EverPresent(s, actions, id)
      {
        ForgottenRun(s, actions, id, read);
      }
    }
  }

  /** It does happen: an update begins, a delete runs to its end, and the update goes on. */
  lemma OverlapBringsBack(s: State, ch: URLCheck) returns (actions: seq<Action>)
    requires CallsOk(s) && Enabled(s, BeginUpdate(ch)) && ch.enabled && ch.id in Rows(s.core)
    ensures ValidRun(s, actions)
    ensures var c := Run(s, actions).core; ch.id in c.checks && ch.id in c.summaries && ch.id !in Rows(c)
  {
    var p, q := s.nextCall, s.nextCall + 1;
    OneMore(s, [], BeginUpdate(ch));
    actions := [] + [BeginUpdate(ch)];
    OneMore(s, actions, UpdateStop(p));
    actions := actions + [UpdateStop(p)];
    OneMore(s, actions, UpdateSummary(p));
    actions := actions + [UpdateSummary(p)];
    OneMore(s, actions, RemoveStop(ch.id));
    actions := actions + [RemoveStop(ch.id)];
    OneMore(s, actions, RemoveSummary(q));
    actions := actions + [RemoveSummary(q)];
    OneMore(s, actions, RemoveRow(q, true));
    actions := actions + [RemoveRow(q, true)];
    OneMore(s, actions, UpdateStart(p));
    actions := actions + [UpdateStart(p)];
  }
}
