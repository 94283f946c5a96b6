/** With calls on the same id serialised: which checks run, which channels are open, and that
    a removed check never comes back. */
module CheckerOwnership {
  import opened Database
  import opened Checker
  import opened CheckerSafety

  function Rows(c: Core): map<nat, URLCheck> {
    c.tables.urlChecks.rows
  }

  ghost predicate RowsOk(c: Core) {
    && c.tables.urlChecks.Valid()
    && (forall id :: id in Rows(c) ==> Rows(c)[id].id == id)
    && (forall g :: 0 <= g < |c.routines| ==> 1 <= c.routines[g].check.id <= c.tables.urlChecks.lastId)
  }

  ghost predicate CallsOk(s: State) {
    && (forall p :: p in s.pending ==> p < s.nextCall)
    && (forall p, q :: p in s.pending && q in s.pending && p != q ==> Target(s.pending[p]) != Target(s.pending[q]))
  }

  /** What holds between the steps of a call. */
  ghost predicate StageOk(c: Core, p: Pending) {
    match p
    case AddInserted(ch) =>
      && ch.id in Rows(c) && Rows(c)[ch.id] == ch && ch.id !in c.checks && ch.id !in c.summaries
      && (forall g :: 0 <= g < |c.routines| ==> c.routines[g].check.id != ch.id)
    case AddReady(ch) =>
      ch.id in Rows(c) && Rows(c)[ch.id] == ch && ch.enabled && ch.id !in c.checks
    case UpdateWritten(ch) =>
      ch.id in Rows(c) && Rows(c)[ch.id] == ch
    case UpdateStopped(ch) =>
      ch.id in Rows(c) && Rows(c)[ch.id] == ch && ch.id !in c.checks
    case UpdateReady(ch) =>
      ch.id in Rows(c) && Rows(c)[ch.id] == ch && ch.enabled && ch.id !in c.checks
    case RemoveStopped(id) =>
      id !in c.checks
    case RemoveForgotten(id) =>
      id !in c.checks && id !in c.summaries
  }

  /** Where check `id` stands when no call is working on it. */
  ghost predicate PlacedId(s: State, id: nat) {
    var c := s.core;
    && (id in c.checks ==> id in Rows(c))
    && (id in c.summaries ==> id in Rows(c))
    && (id in c.checks && !Busy(s, id) ==> Rows(c)[id].enabled && c.checks[id].check == Rows(c)[id])
    && (id in Rows(c) && Rows(c)[id].enabled && id !in c.checks && !Busy(s, id) && s.listed && !s.unread ==>
          exists i :: 0 <= i < |s.todo| && s.todo[i].id == id)
  }

  ghost predicate BootOk(s: State) {
    && (!s.listed ==> s.todo == [] && s.core.checks == map[] && s.core.summaries == map[] && s.pending == map[])
    && (s.todo != [] ==> s.pending == map[])
    && (forall i :: 0 <= i < |s.todo| ==>
          && s.todo[i].id in Rows(s.core) && Rows(s.core)[s.todo[i].id] == s.todo[i]
          && s.todo[i].enabled && s.todo[i].id !in s.core.checks)
    && (forall i, j :: 0 <= i < j < |s.todo| ==> s.todo[i].id != s.todo[j].id)
  }

  /** Every open stop channel is that of an entry. */
  ghost predicate OpenOk(c: Core) {
    forall g :: g in c.open ==>
      && g < |c.routines|
      && c.routines[g].check.id in c.checks
      && c.checks[c.routines[g].check.id].stop == g
  }

  ghost predicate Own(s: State) {
    && RowsOk(s.core) && ChannelsOk(s.core) && OpenOk(s.core)
    && CallsOk(s) && BootOk(s)
    && (forall id :: PlacedId(s, id))
    && (forall p :: p in s.pending ==> StageOk(s.core, s.pending[p]))
  }

  // ----- One call step touches one id ------------------------------------------------------

  /** The cores agree about everything but check t. */
  ghost predicate AgreeOff(c: Core, c': Core, t: nat) {
    && (forall id :: id != t ==> (id in Rows(c) <==> id in Rows(c')) && (id in Rows(c) ==> Rows(c')[id] == Rows(c)[id]))
    && (forall id :: id != t ==> (id in c.checks <==> id in c'.checks) && (id in c.checks ==> c'.checks[id] == c.checks[id]))
    && (forall id :: id != t ==> (id in c.summaries <==> id in c'.summaries))
    && (forall g :: 0 <= g < |c'.routines| ==>
          c'.routines[g].check.id == t || (g < |c.routines| && c'.routines[g].check.id == c.routines[g].check.id))
  }

  /** The calls in progress on other ids are the same. */
  ghost predicate CallsAgreeOff(s: State, s': State, t: nat) {
    && (forall p :: p in s.pending && Target(s.pending[p]) != t ==> p in s'.pending && s'.pending[p] == s.pending[p])
    && (forall p :: p in s'.pending && Target(s'.pending[p]) != t ==> p in s.pending && s'.pending[p] == s.pending[p])
  }

  lemma BusyOff(s: State, s': State, t: nat, id: nat)
    requires CallsAgreeOff(s, s', t) && id != t
    ensures Busy(s, id) <==> Busy(s', id)
  {
  }

  lemma LocalStep(s: State, s': State, t: nat)
    requires Own(s) && Up(s) && s'.listed == s.listed && s'.unread == s.unread && s'.todo == s.todo
    requires AgreeOff(s.core, s'.core, t) && CallsAgreeOff(s, s', t)
    requires PlacedId(s', t)
    requires forall p :: p in s'.pending && Target(s'.pending[p]) == t ==> StageOk(s'.core, s'.pending[p])
    ensures forall id :: PlacedId(s', id)
    ensures forall p :: p in s'.pending ==> StageOk(s'.core, s'.pending[p])
  {
    forall id
      ensures PlacedId(s', id)
    {
      if id != t {
        assert PlacedId(s, id);
        BusyOff(s, s', t, id);
      }
    }
    forall p | p in s'.pending
      ensures StageOk(s'.core, s'.pending[p])
    {
      if Target(s'.pending[p]) != t {
        assert StageOk(s.core, s.pending[p]);
      }
    }
  }

  lemma BeginCalls(s: State, core: Core, p: Pending)
    requires CallsOk(s) && !Busy(s, Target(p))
    ensures var s' := Begin(s, core, p);
            CallsOk(s') && CallsAgreeOff(s, s', Target(p)) && Busy(s', Target(p))
  {
    var s' := Begin(s, core, p);
    assert s.nextCall in s'.pending && s'.pending[s.nextCall] == p;
  }

  lemma AdvanceCalls(s: State, core: Core, call: nat, p: Pending)
    requires CallsOk(s) && call in s.pending && Target(p) == Target(s.pending[call])
    ensures var s' := Advance(s, core, call, p);
            CallsOk(s') && CallsAgreeOff(s, s', Target(p)) && Busy(s', Target(p))
  {
    var s' := Advance(s, core, call, p);
    assert call in s'.pending && s'.pending[call] == p;
  }

  lemma ReturnCalls(s: State, core: Core, call: nat)
    requires CallsOk(s) && call in s.pending
    ensures var s' := Return(s, core, call);
            CallsOk(s') && CallsAgreeOff(s, s', Target(s.pending[call])) && !Busy(s', Target(s.pending[call]))
  {
  }

  lemma CallMeansUp(s: State, call: nat)
    requires Own(s) && call in s.pending
    ensures Up(s)
  {
  }

  lemma StartOpen(c: Core, ch: URLCheck)
    requires OpenOk(c) && ChannelsOk(c) && ch.id !in c.checks
    ensures OpenOk(StartSection(c, ch))
  {
  }

  lemma StopOpen(c: Core, id: nat)
    requires OpenOk(c) && ChannelsOk(c)
    ensures OpenOk(StopSection(c, id))
  {
    forall g | g in StopSection(c, id).open
      ensures c.routines[g].check.id != id || id !in c.checks
    {
    }
  }

  lemma InsertedRow(s: State, ch: URLCheck)
    requires RowsOk(s.core)
    ensures var t, c' := s.core.tables.urlChecks.lastId + 1, s.core.(tables := InsertURLCheck(s.core.tables, ch));
            && t !in Rows(s.core) && t in Rows(c') && Rows(c')[t] == ch.(id := t)
            && AgreeOff(s.core, c', t) && RowsOk(c')
            && (forall g :: 0 <= g < |c'.routines| ==> c'.routines[g].check.id != t)
  {
  }

  /** Where the new row stands once its call has begun. */
  lemma BegunPlaced(s: State, ch: URLCheck)
    requires Own(s) && Up(s)
    ensures var t, s' := s.core.tables.urlChecks.lastId + 1, AddBegun(s, ch);
            t !in s'.core.checks && t !in s'.core.summaries
            && Busy(s', t) && PlacedId(s', t) && StageOk(s'.core, AddInserted(ch.(id := t)))
  {
    var t, s' := s.core.tables.urlChecks.lastId + 1, AddBegun(s, ch);
    InsertedRow(s, ch);
    assert PlacedId(s, t);
    assert s'.pending[s.nextCall] == AddInserted(ch.(id := t));
  }

  lemma StepBeginAdd(s: State, ch: URLCheck)
    requires Own(s) && Up(s) && !Busy(s, s.core.tables.urlChecks.lastId + 1)
    ensures Own(AddBegun(s, ch))
  {
    var s', t := AddBegun(s, ch), s.core.tables.urlChecks.lastId + 1;
    InsertedRow(s, ch);
    BegunPlaced(s, ch);
    BeginCalls(s, s'.core, AddInserted(ch.(id := t)));
    FrameChannels(s.core, s'.core);
    LocalStep(s, s', t);
  }

  lemma StepAddSummary(s: State, p: nat)
    requires Own(s) && p in s.pending && s.pending[p].AddInserted?
    ensures Own(SummaryAdded(s, p))
  {
    var s', ch := SummaryAdded(s, p), s.pending[p].check;
    CallMeansUp(s, p);
    assert StageOk(s.core, s.pending[p]) && PlacedId(s, ch.id);
    if ch.enabled {
      AdvanceCalls(s, s'.core, p, AddReady(ch));
    } else {
      ReturnCalls(s, s'.core, p);
    }
    FrameChannels(s.core, s'.core);
    LocalStep(s, s', ch.id);
  }

  lemma StartedCheck(c: Core, ch: URLCheck)
    requires RowsOk(c) && ch.id in Rows(c) && Rows(c)[ch.id] == ch
    ensures RowsOk(StartSection(c, ch)) && AgreeOff(c, StartSection(c, ch), ch.id)
  {
  }

  lemma StepStart(s: State, p: nat)
    requires Own(s) && p in s.pending && (s.pending[p].AddReady? || s.pending[p].UpdateReady?)
    ensures Own(Return(s, StartSection(s.core, s.pending[p].check), p))
  {
    var ch := s.pending[p].check;
    var c' := StartSection(s.core, ch);
    var s' := Return(s, c', p);
    CallMeansUp(s, p);
    assert StageOk(s.core, s.pending[p]) && PlacedId(s, ch.id);
    StartedCheck(s.core, ch);
    ReturnCalls(s, c', p);
    StartChannels(s.core, ch);
    StartOpen(s.core, ch);
    assert PlacedId(s', ch.id);
    LocalStep(s, s', ch.id);
  }

  lemma StepBeginUpdate(s: State, ch: URLCheck)
    requires Own(s) && Up(s) && !Busy(s, ch.id) && ch.id in Rows(s.core)
    ensures Own(UpdateBegun(s, ch))
  {
    var s' := UpdateBegun(s, ch);
    BeginCalls(s, s'.core, UpdateWritten(ch));
    assert PlacedId(s, ch.id);
    FrameChannels(s.core, s'.core);
    LocalStep(s, s', ch.id);
  }

  lemma StoppedCheck(c: Core, id: nat)
    requires RowsOk(c) && OpenOk(c) && ChannelsOk(c)
    ensures var c' := StopSection(c, id);
            && RowsOk(c') && OpenOk(c') && ChannelsOk(c') && AgreeOff(c, c', id)
            && c'.tables == c.tables && c'.summaries == c.summaries && id !in c'.checks
  {
    StopChannels(c, id);
    StopOpen(c, id);
  }

  lemma StepUpdateStop(s: State, p: nat)
    requires Own(s) && p in s.pending && s.pending[p].UpdateWritten?
    ensures Own(Advance(s, StopSection(s.core, s.pending[p].check.id), p, UpdateStopped(s.pending[p].check)))
  {
    var ch := s.pending[p].check;
    var s' := Advance(s, StopSection(s.core, ch.id), p, UpdateStopped(ch));
    CallMeansUp(s, p);
    assert StageOk(s.core, s.pending[p]) && PlacedId(s, ch.id);
    AdvanceCalls(s, s'.core, p, UpdateStopped(ch));
    StoppedCheck(s.core, ch.id);
    LocalStep(s, s', ch.id);
  }

  lemma RefreshedCheck(c: Core, ch: URLCheck)
    requires RowsOk(c) && OpenOk(c) && ChannelsOk(c)
    ensures var c' := SetSummaryCheck(c, ch);
            && RowsOk(c') && OpenOk(c') && ChannelsOk(c') && AgreeOff(c, c', ch.id)
            && c'.tables == c.tables && c'.checks == c.checks && c'.summaries.Keys == c.summaries.Keys
  {
    FrameChannels(c, SetSummaryCheck(c, ch));
  }

  lemma StepUpdateSummary(s: State, p: nat)
    requires Own(s) && p in s.pending && s.pending[p].UpdateStopped?
    ensures Own(SummaryUpdated(s, p))
  {
    var s', ch := SummaryUpdated(s, p), s.pending[p].check;
    CallMeansUp(s, p);
    assert StageOk(s.core, s.pending[p]) && PlacedId(s, ch.id);
    RefreshedCheck(s.core, ch);
    if ch.enabled {
      AdvanceCalls(s, s'.core, p, UpdateReady(ch));
    } else {
      ReturnCalls(s, s'.core, p);
    }
    LocalStep(s, s', ch.id);
  }

  lemma StepRemoveStop(s: State, id: nat)
    requires Own(s) && Up(s) && !Busy(s, id)
    ensures Own(Begin(s, StopSection(s.core, id), RemoveStopped(id)))
  {
    var s' := Begin(s, StopSection(s.core, id), RemoveStopped(id));
    assert PlacedId(s, id);
    BeginCalls(s, s'.core, RemoveStopped(id));
    StopChannels(s.core, id);
    StopOpen(s.core, id);
    LocalStep(s, s', id);
  }

  lemma StepRemoveSummary(s: State, p: nat)
    requires Own(s) && p in s.pending && s.pending[p].RemoveStopped?
    ensures Own(Advance(s, DropSummary(s.core, s.pending[p].id), p, RemoveForgotten(s.pending[p].id)))
  {
    var id := s.pending[p].id;
    var s' := Advance(s, DropSummary(s.core, id), p, RemoveForgotten(id));
    CallMeansUp(s, p);
    assert StageOk(s.core, s.pending[p]) && PlacedId(s, id);
    AdvanceCalls(s, s'.core, p, RemoveForgotten(id));
    FrameChannels(s.core, s'.core);
    LocalStep(s, s', id);
  }

  lemma StepRemoveRow(s: State, p: nat)
    requires Own(s) && p in s.pending && s.pending[p].RemoveForgotten?
    ensures Own(Return(s, s.core.(tables := DeleteURLCheck(s.core.tables, s.pending[p].id)), p))
  {
    var id := s.pending[p].id;
    var s' := Return(s, s.core.(tables := DeleteURLCheck(s.core.tables, id)), p);
    CallMeansUp(s, p);
    assert StageOk(s.core, s.pending[p]) && PlacedId(s, id);
    ReturnCalls(s, s'.core, p);
    FrameChannels(s.core, s'.core);
    LocalStep(s, s', id);
  }

  // ----- Starting up, and the goroutines ---------------------------------------------------

  lemma {:induction false} EnabledRowsAre(t: Tables, order: seq<nat>, i: nat)
    requires forall k :: 0 <= k < |order| ==> order[k] in t.urlChecks.rows && t.urlChecks.rows[order[k]].id == order[k]
    requires i < |EnabledRows(t, order)|
    ensures var ch := EnabledRows(t, order)[i];
            ch.enabled && ch.id in order && ch.id in t.urlChecks.rows && t.urlChecks.rows[ch.id] == ch
  {
    var k := if t.urlChecks.rows[order[0]].enabled then 1 else 0;
    if i >= k {
      EnabledRowsAre(t, order[1..], i - k);
    }
  }

  lemma {:induction false} EnabledRowsCover(t: Tables, order: seq<nat>, id: nat) returns (i: nat)
    requires forall k :: 0 <= k < |order| ==> order[k] in t.urlChecks.rows && t.urlChecks.rows[order[k]].id == order[k]
    requires id in order && t.urlChecks.rows[id].enabled
    ensures i < |EnabledRows(t, order)| && EnabledRows(t, order)[i].id == id
  {
    if order[0] == id {
      i := 0;
    } else {
      i := EnabledRowsCover(t, order[1..], id);
      i := i + if t.urlChecks.rows[order[0]].enabled then 1 else 0;
    }
  }

  lemma {:induction false} EnabledRowsDistinct(t: Tables, order: seq<nat>, i: nat, j: nat)
    requires forall k :: 0 <= k < |order| ==> order[k] in t.urlChecks.rows && t.urlChecks.rows[order[k]].id == order[k]
    requires forall k, l :: 0 <= k < l < |order| ==> order[k] != order[l]
    requires i < j < |EnabledRows(t, order)|
    ensures EnabledRows(t, order)[i].id != EnabledRows(t, order)[j].id
  {
    var k := if t.urlChecks.rows[order[0]].enabled then 1 else 0;
    EnabledRowsAre(t, order[1..], j - k);
    if i >= k {
      EnabledRowsDistinct(t, order[1..], i - k, j - k);
    } else {
      assert order[0] !in order[1..];
    }
  }

  lemma StepBootList(s: State, order: seq<nat>)
    requires Own(s) && Enabled(s, BootList(order))
    ensures Own(Next(s, BootList(order)))
  {
    var s', t := Next(s, BootList(order)), s.core.tables;
    assert forall k :: 0 <= k < |order| ==> order[k] in order;
    forall i | 0 <= i < |s'.todo|
      ensures s'.todo[i].id in Rows(s.core) && Rows(s.core)[s'.todo[i].id] == s'.todo[i] && s'.todo[i].enabled
    {
      EnabledRowsAre(t, order, i);
    }
    forall i, j | 0 <= i < j < |s'.todo|
      ensures s'.todo[i].id != s'.todo[j].id
    {
      EnabledRowsDistinct(t, order, i, j);
    }
    forall id
      ensures PlacedId(s', id)
    {
      assert PlacedId(s, id);
      if id in Rows(s.core) && Rows(s.core)[id].enabled {
        var i := EnabledRowsCover(t, order, id);
      }
    }
  }

  lemma StepBootFail(s: State)
    requires Own(s) && Enabled(s, BootFail)
    ensures Own(Next(s, BootFail))
  {
    forall id
      ensures PlacedId(Next(s, BootFail), id)
    {
      assert PlacedId(s, id);
      assert Busy(s, id) <==> Busy(Next(s, BootFail), id);
    }
  }

  lemma StepBootOne(s: State)
    requires Own(s) && s.listed && s.todo != []
    ensures Own(s.(core := StartSection(s.core, s.todo[0]), todo := s.todo[1..]))
  {
    var ch := s.todo[0];
    var s' := s.(core := StartSection(s.core, ch), todo := s.todo[1..]);
    StartChannels(s.core, ch);
    StartOpen(s.core, ch);
    forall id
      ensures PlacedId(s', id)
    {
      assert PlacedId(s, id);
      if id in Rows(s.core) && Rows(s.core)[id].enabled && id !in s'.core.checks && !s.unread {
        var i :| 0 <= i < |s.todo| && s.todo[i].id == id;
        assert s'.todo[i - 1].id == id;
      }
    }
  }

  /** A step that changes neither the entries, nor the rows, nor which summaries there are. */
  lemma OwnSameCore(s: State, c': Core)
    requires Own(s) && SameChannels(s.core, c')
    requires c'.tables.urlChecks == s.core.tables.urlChecks && c'.summaries.Keys == s.core.summaries.Keys
    ensures Own(s.(core := c'))
  {
    var s' := s.(core := c');
    FrameChannels(s.core, c');
    forall id
      ensures PlacedId(s', id)
    {
      assert PlacedId(s, id);
      assert Busy(s, id) <==> Busy(s', id);
    }
    forall p | p in s'.pending
      ensures StageOk(c', s'.pending[p])
    {
      assert StageOk(s.core, s.pending[p]);
    }
  }

  lemma RoutineKeepsRows(c: Core, a: Action)
    requires RoutineEnabled(c, a)
    ensures RoutineNext(c, a).tables.urlChecks == c.tables.urlChecks
    ensures RoutineNext(c, a).summaries.Keys == c.summaries.Keys
  {
  }

  lemma StepOther(s: State, a: Action)
    requires Own(s) && Enabled(s, a) && (OfRoutine(a) || a.PurgeResults?)
    ensures Own(Next(s, a))
  {
    if OfRoutine(a) {
      RoutineChannels(s.core, a);
      RoutineKeepsRows(s.core, a);
    }
    OwnSameCore(s, Next(s, a).core);
  }

  lemma StepBoot(s: State, a: Action)
    requires Own(s) && Enabled(s, a) && (a.BootList? || a.BootFail? || a.BootOne?)
    ensures Own(Next(s, a))
  {
    match a
    case BootList(order) => StepBootList(s, order);
    case BootFail => StepBootFail(s);
    case BootOne => StepBootOne(s);
  }

  lemma StepCall(s: State, a: Action)
    requires Own(s) && Enabled(s, a) && SerialStep(s, a)
    requires !OfRoutine(a) && !a.PurgeResults? && !a.BootList? && !a.BootFail? && !a.BootOne?
    ensures Own(Next(s, a))
  {
    match a
    case BeginAdd(ch) => StepBeginAdd(s, ch);
    case AddSummary(p) => StepAddSummary(s, p);
    case AddStart(p) => StepStart(s, p);
    case BeginUpdate(ch) => StepBeginUpdate(s, ch);
    case UpdateStop(p) => StepUpdateStop(s, p);
    case UpdateSummary(p) => StepUpdateSummary(s, p);
    case UpdateStart(p) => StepStart(s, p);
    case RemoveStop(id) => StepRemoveStop(s, id);
    case RemoveSummary(p) => StepRemoveSummary(s, p);
    case RemoveRow(p, _) => StepRemoveRow(s, p);
  }

  lemma StepOwn(s: State, a: Action)
    requires Own(s) && Enabled(s, a) && SerialStep(s, a)
    ensures Own(Next(s, a))
  {
    if OfRoutine(a) || a.PurgeResults? {
      StepOther(s, a);
    } else if a.BootList? || a.BootFail? || a.BootOne? {
      StepBoot(s, a);
    } else {
      StepCall(s, a);
    }
  }

  lemma {:induction false} OwnRun(s: State, actions: seq<Action>)
    requires Own(s) && ValidRun(s, actions) && SerialRun(s, actions)
    ensures Own(Run(s, actions))
    decreases |actions|
  {
    if actions != [] {
      StepOwn(s, actions[0]);
      OwnRun(Next(s, actions[0]), actions[1..]);
    }
  }

  ghost predicate ValidRows(t: Tables) {
    t.urlChecks.Valid() && forall id :: id in t.urlChecks.rows ==> t.urlChecks.rows[id].id == id
  }

  /** Once Start has finished, in every serialised interleaving, for a check no call is working
      on: an entry means an enabled row and holds that row, and an enabled row has an entry
      unless Start could not list the rows. The open stop channels are exactly those of the
      entries, one each. */
  lemma OneRoutinePerEnabledRow(t: Tables, actions: seq<Action>)
    requires ValidRows(t) && ValidRun(Initial(t), actions) && SerialRun(Initial(t), actions)
    requires Up(Run(Initial(t), actions))
    ensures var s := Run(Initial(t), actions);
            var c := s.core;
            && (forall id :: !Busy(s, id) && id in c.checks ==>
                  id in Rows(c) && Rows(c)[id].enabled && c.checks[id].check == Rows(c)[id])
            && (!s.unread ==> forall id :: !Busy(s, id) && id in Rows(c) && Rows(c)[id].enabled ==> id in c.checks)
            && c.open == (set id | id in c.checks :: c.checks[id].stop)
            && (forall i, j :: i in c.checks && j in c.checks && i != j ==> c.checks[i].stop != c.checks[j].stop)
  {
    OwnRun(Initial(t), actions);
    var s := Run(Initial(t), actions);
    forall id | !Busy(s, id)
      ensures id in s.core.checks ==> id in Rows(s.core) && Rows(s.core)[id].enabled && s.core.checks[id].check == Rows(s.core)[id]
      ensures !s.unread && id in Rows(s.core) && Rows(s.core)[id].enabled ==> id in s.core.checks
    {
      assert PlacedId(s, id);
    }
    forall g | g in s.core.open
      ensures g in (set id | id in s.core.checks :: s.core.checks[id].stop)
    {
      assert s.core.checks[s.core.routines[g].check.id].stop == g;
    }
  }

  /** An id whose row is gone. Ids are never handed out twice. */
  ghost predicate Removed(s: State, id: nat) {
    1 <= id <= s.core.tables.urlChecks.lastId && id !in Rows(s.core)
  }

  lemma StepRemoved(s: State, a: Action, id: nat)
    requires Enabled(s, a) && Removed(s, id)
    ensures Removed(Next(s, a), id)
  {
    if OfRoutine(a) {
      RoutineKeepsRows(s.core, a);
    }
  }

  lemma {:induction false} RemovedRun(s: State, actions: seq<Action>, id: nat)
    requires Own(s) && ValidRun(s, actions) && SerialRun(s, actions) && Removed(s, id)
    ensures Own(Run(s, actions)) && Removed(Run(s, actions), id)
    decreases |actions|
  {
    if actions != [] {
      StepOwn(s, actions[0]);
      StepRemoved(s, actions[0], id);
      RemovedRun(Next(s, actions[0]), actions[1..], id);
    }
  }

  /** No resurrection: from the moment a delete has returned, no later step of a serialised
      run puts the id back into `checks` or `summaries`, stale goroutines included. */
  lemma RemovedForGood(t: Tables, before: seq<Action>, call: nat, later: seq<Action>)
    requires ValidRows(t) && ValidRun(Initial(t), before) && SerialRun(Initial(t), before)
    requires Enabled(Run(Initial(t), before), RemoveRow(call, true))
    requires var s := Next(Run(Initial(t), before), RemoveRow(call, true));
             ValidRun(s, later) && SerialRun(s, later)
    requires 1 <= Run(Initial(t), before).pending[call].id <= Run(Initial(t), before).core.tables.urlChecks.lastId
    ensures var id := Run(Initial(t), before).pending[call].id;
            var c := Run(Next(Run(Initial(t), before), RemoveRow(call, true)), later).core;
            id !in c.checks && id !in c.summaries && id !in Rows(c)
  {
    OwnRun(Initial(t), before);
    var s := Run(Initial(t), before);
    var id := s.pending[call].id;
    StepOwn(s, RemoveRow(call, true));
    var s' := Next(s, RemoveRow(call, true));
    RemovedRun(s', later, id);
    assert PlacedId(Run(s', later), id);
  }
}
