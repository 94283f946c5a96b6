/** Channel safety and registry exactness, in every interleaving of connections with distinct
    ids. */
module BrokerSafety {
  import opened Broker

  predicate NoDup(q: seq<nat>) {
    forall i, j :: 0 <= i < j < |q| ==> q[i] != q[j]
  }

  ghost predicate ConnOk(s: State, h: nat)
    requires h < |s.conns|
  {
    var c := s.conns[h];
    // Where the registration and the unregistration are.
    && (c.phase == Connecting ==> h !in s.register && !c.registered)
    && (c.phase != Connecting ==> (h in s.register <==> !c.registered))
    && (c.phase != Gone ==> h !in s.unregister && !c.unregistered)
    && (c.phase == Gone ==> (h in s.unregister <==> !c.unregistered))
    // The channel is closed, and the client removed, when the unregistration finds it.
    && (c.closed <==> c.unregistered && !c.overtaken)
    && (c.overtaken ==> c.unregistered)
    && (c.closed ==> c.registered)
    && (c.id in s.clients && s.clients[c.id] == h <==> c.registered && !c.closed)
  }

  ghost predicate Inv(s: State) {
    && !s.panicked
    && (forall i, j :: 0 <= i < j < |s.conns| ==> s.conns[i].id != s.conns[j].id)
    && (forall h :: 0 <= h < |s.conns| ==> ConnOk(s, h))
    && (forall k :: k in s.clients ==> s.clients[k] < |s.conns| && s.conns[s.clients[k]].id == k)
    && NoDup(s.register) && NoDup(s.unregister)
    && (forall h :: h in s.register ==> h < |s.conns|)
    && (forall h :: h in s.unregister ==> h < |s.conns|)
    && |s.register| <= REGISTER_CAPACITY && |s.unregister| <= UNREGISTER_CAPACITY
    && |s.broadcast| <= BROADCAST_CAPACITY
    && (s.run.Dispatching? ==> s.run.todo <= s.clients.Keys)
  }

  lemma TailMembers(q: seq<nat>)
    requires q != [] && NoDup(q)
    ensures NoDup(q[1..])
    ensures forall h :: h in q[1..] <==> h in q && h != q[0]
  {
  }

  lemma AppendMembers(q: seq<nat>, h: nat)
    ensures forall x :: x in q + [h] <==> x in q || x == h
    ensures NoDup(q) && h !in q ==> NoDup(q + [h])
  {
  }

  lemma InvHandleRegister(s: State)
    requires Inv(s) && Enabled(s, HandleRegister)
    ensures Inv(Next(s, HandleRegister))
  {
    TailMembers(s.register);
    var h, s' := s.register[0], Next(s, HandleRegister);
    assert ConnOk(s, h) && h in s.register;
    forall x | 0 <= x < |s'.conns|
      ensures ConnOk(s', x)
    {
      assert ConnOk(s, x);
    }
  }

  lemma InvHandleUnregister(s: State)
    requires Inv(s) && Enabled(s, HandleUnregister)
    ensures Inv(Next(s, HandleUnregister))
  {
    TailMembers(s.unregister);
    var h, s' := s.unregister[0], Next(s, HandleUnregister);
    assert ConnOk(s, h) && h in s.unregister;
    var c := s.conns[h];
    if c.id in s.clients {
      assert ConnOk(s, s.clients[c.id]);
    }
    forall x | 0 <= x < |s'.conns|
      ensures ConnOk(s', x)
    {
      assert ConnOk(s, x);
    }
  }

  lemma InvEnqueue(s: State, a: Action)
    requires Inv(s) && Enabled(s, a) && (a.EnqueueRegister? || a.EnqueueUnregister?)
    ensures Inv(Next(s, a))
  {
    var s' := Next(s, a);
    AppendMembers(if a.EnqueueRegister? then s.register else s.unregister, a.h);
    assert ConnOk(s, a.h);
    forall x | 0 <= x < |s'.conns|
      ensures ConnOk(s', x)
    {
      assert ConnOk(s, x);
    }
  }

  lemma InvSendTo(s: State, id: string)
    requires Inv(s) && Enabled(s, SendTo(id))
    ensures Inv(Next(s, SendTo(id)))
    ensures !s.conns[s.clients[id]].closed
  {
    var s' := Next(s, SendTo(id));
    assert ConnOk(s, s.clients[id]);
    forall x | 0 <= x < |s'.conns|
      ensures ConnOk(s', x)
    {
      assert ConnOk(s, x);
    }
  }

  lemma InvHandler(s: State, a: Action)
    requires Inv(s) && Enabled(s, a)
    requires a.Receive? || a.ReceiveClosed? || a.Cancel? || (a.Connect? && FreshId(s, a.id))
    ensures Inv(Next(s, a))
  {
    var s' := Next(s, a);
    forall x | 0 <= x < |s'.conns|
      ensures ConnOk(s', x)
    {
      if x < |s.conns| {
        assert ConnOk(s, x);
      }
    }
  }

  lemma InvOther(s: State, a: Action)
    requires Inv(s) && Enabled(s, a)
    requires a.Publish? || a.TakeBroadcast? || a.EndDispatch? || a.Heartbeat? || a.Stop?
    ensures Inv(Next(s, a))
  {
    var s' := Next(s, a);
    forall x | 0 <= x < |s'.conns|
      ensures ConnOk(s', x)
    {
      assert ConnOk(s, x);
    }
  }

  lemma InvNext(s: State, a: Action)
    requires Inv(s) && Enabled(s, a) && (a.Connect? ==> FreshId(s, a.id))
    ensures Inv(Next(s, a))
  {
    match a
    case HandleRegister => InvHandleRegister(s);
    case HandleUnregister => InvHandleUnregister(s);
    case EnqueueRegister(_) => InvEnqueue(s, a);
    case EnqueueUnregister(_) => InvEnqueue(s, a);
    case SendTo(id) => InvSendTo(s, id);
    case Receive(_) => InvHandler(s, a);
    case ReceiveClosed(_) => InvHandler(s, a);
    case Cancel(_) => InvHandler(s, a);
    case Connect(_) => InvHandler(s, a);
    case _ => InvOther(s, a);
  }

  lemma {:induction false} InvRun(s: State, actions: seq<Action>)
    requires Inv(s) && ValidRun(s, actions) && DistinctIds(s, actions)
    ensures Inv(Run(s, actions))
    decreases |actions|
  {
    if actions != [] {
      InvNext(s, actions[0]);
      InvRun(Next(s, actions[0]), actions[1..]);
    }
  }

  /** In every run with distinct ids no event is sent on a closed channel and no channel is
      closed twice; a channel is closed only after its handler has returned, so the branch
      that receives from a closed channel is never taken; and no queue exceeds its bound. */
  lemma ChannelSafety(actions: seq<Action>)
    requires ValidRun(INITIAL, actions) && DistinctIds(INITIAL, actions)
    ensures var s := Run(INITIAL, actions);
            && !s.panicked
            && (forall h :: 0 <= h < |s.conns| && s.conns[h].closed ==> s.conns[h].phase == Gone)
            && (forall h: nat :: !Enabled(s, ReceiveClosed(h)))
            && |s.broadcast| <= 256 && |s.register| <= 16 && |s.unregister| <= 16
  {
    InvRun(INITIAL, actions);
    var s := Run(INITIAL, actions);
    forall h | 0 <= h < |s.conns| && s.conns[h].closed
      ensures s.conns[h].phase == Gone
    {
      assert ConnOk(s, h);
    }
  }

  // ----- Without distinct ids --------------------------------------------------------------

  ghost predicate TidyConn(s: State, h: nat)
    requires h < |s.conns|
  {
    var c := s.conns[h];
    && (c.phase == Connecting ==> h !in s.register && !c.registered)
    && (c.phase != Connecting ==> (h in s.register <==> !c.registered))
    && (c.phase != Gone ==> h !in s.unregister && !c.unregistered)
    && (c.phase == Gone ==> (h in s.unregister <==> !c.unregistered))
    && (c.closed ==> c.unregistered)
    && (c.unregistered && !c.overtaken ==> c.registered)
  }

  ghost predicate TidyRegistry(s: State) {
    forall k :: k in s.clients ==>
      && s.clients[k] < |s.conns|
      && s.conns[s.clients[k]].id == k
      && (s.conns[s.clients[k]].closed ==> s.conns[s.clients[k]].overtaken)
  }

  /** What holds whatever ids are drawn: a closed channel in the registry was overtaken. */
  ghost predicate Tidy(s: State) {
    && !s.panicked
    && (forall h :: 0 <= h < |s.conns| ==> TidyConn(s, h))
    && TidyRegistry(s)
    && NoDup(s.register) && NoDup(s.unregister)
    && (forall h :: h in s.register ==> h < |s.conns|)
    && (forall h :: h in s.unregister ==> h < |s.conns|)
  }

  predicate NoneOvertaken(s: State) {
    forall h :: 0 <= h < |s.conns| ==> !s.conns[h].overtaken
  }

  lemma TidyNext(s: State, a: Action)
    requires Tidy(s) && NoneOvertaken(s) && Enabled(s, a)
    ensures Tidy(Next(s, a))
  {
    TidyQueues(s, a);
    TidyConns(s, a);
    TidyClients(s, a);
  }

  lemma TidyQueues(s: State, a: Action)
    requires Tidy(s) && Enabled(s, a)
    ensures var s' := Next(s, a);
            && NoDup(s'.register) && NoDup(s'.unregister)
            && (forall h :: h in s'.register ==> h < |s'.conns|)
            && (forall h :: h in s'.unregister ==> h < |s'.conns|)
    ensures forall h :: QueuesOf(s, h)
  {
    if s.register != [] {
      TailMembers(s.register);
    }
    if s.unregister != [] {
      TailMembers(s.unregister);
    }
    if a.EnqueueRegister? {
      assert TidyConn(s, a.h);
      AppendMembers(s.register, a.h);
    } else if a.EnqueueUnregister? {
      assert TidyConn(s, a.h);
      AppendMembers(s.unregister, a.h);
    }
  }

  lemma RegisterKeepsRegistry(s: State)
    requires Tidy(s) && Enabled(s, HandleRegister) && NoneOvertaken(s)
    ensures TidyRegistry(Next(s, HandleRegister))
  {
    assert TidyConn(s, s.register[0]) && s.register[0] in s.register;
  }

  lemma UnregisterKeepsRegistry(s: State)
    requires Tidy(s) && Enabled(s, HandleUnregister) && NoneOvertaken(s)
    ensures !Next(s, HandleUnregister).panicked && TidyRegistry(Next(s, HandleUnregister))
  {
    assert TidyConn(s, s.unregister[0]) && s.unregister[0] in s.unregister;
  }

  lemma TidyClients(s: State, a: Action)
    requires Tidy(s) && NoneOvertaken(s) && Enabled(s, a)
    ensures !Next(s, a).panicked && TidyRegistry(Next(s, a))
  {
    if a.HandleRegister? {
      RegisterKeepsRegistry(s);
    } else if a.HandleUnregister? {
      UnregisterKeepsRegistry(s);
    } else {
      OthersKeepRegistry(s, a);
    }
  }

  lemma OthersKeepRegistry(s: State, a: Action)
    requires Tidy(s) && NoneOvertaken(s) && Enabled(s, a) && !a.HandleRegister? && !a.HandleUnregister?
    ensures !Next(s, a).panicked && TidyRegistry(Next(s, a))
  {
  }

  /** What a step leaves in the queues of connection h. */
  ghost predicate QueuesOf(s: State, h: int) {
    && (s.register != [] ==> (h in s.register[1..] <==> h in s.register && h != s.register[0]))
    && (s.unregister != [] ==> (h in s.unregister[1..] <==> h in s.unregister && h != s.unregister[0]))
  }

  predicate HandlesQueue(a: Action) {
    a.HandleRegister? || a.HandleUnregister?
  }

  lemma HandledConn(s: State, a: Action, h: nat)
    requires Tidy(s) && Enabled(s, a) && HandlesQueue(a) && h < |s.conns| && QueuesOf(s, h) && TidyConn(s, h)
    ensures TidyConn(Next(s, a), h)
  {
  }

  lemma OtherConn(s: State, a: Action, h: nat)
    requires Tidy(s) && Enabled(s, a) && !HandlesQueue(a) && h < |s.conns| && TidyConn(s, h)
    ensures TidyConn(Next(s, a), h)
  {
  }

  lemma NewTidyConn(s: State, id: string)
    requires Tidy(s) && Enabled(s, Connect(id))
    ensures TidyConn(Next(s, Connect(id)), |s.conns|)
  {
  }

  lemma TidyConns(s: State, a: Action)
    requires Tidy(s) && Enabled(s, a)
    requires forall h :: QueuesOf(s, h)
    ensures forall h :: 0 <= h < |Next(s, a).conns| ==> TidyConn(Next(s, a), h)
  {
    forall h | 0 <= h < |Next(s, a).conns|
      ensures TidyConn(Next(s, a), h)
    {
      if h >= |s.conns| {
        NewTidyConn(s, a.id);
      } else if HandlesQueue(a) {
        assert QueuesOf(s, h);
        HandledConn(s, a, h);
      } else {
        OtherConn(s, a, h);
      }
    }
  }

  lemma {:induction false} OvertakenStays(s: State, actions: seq<Action>, h: nat)
    requires ValidRun(s, actions) && h < |s.conns| && s.conns[h].overtaken
    ensures h < |Run(s, actions).conns| && Run(s, actions).conns[h].overtaken
    decreases |actions|
  {
    if actions != [] {
      OvertakenStays(Next(s, actions[0]), actions[1..], h);
    }
  }

  lemma {:induction false} TidyRun(s: State, actions: seq<Action>)
    requires Tidy(s) && NoneOvertaken(s) && ValidRun(s, actions) && NoneOvertaken(Run(s, actions))
    ensures Tidy(Run(s, actions))
    decreases |actions|
  {
    if actions != [] {
      var next := Next(s, actions[0]);
      TidyNext(s, actions[0]);
      if h :| 0 <= h < |next.conns| && next.conns[h].overtaken {
        OvertakenStays(next, actions[1..], h);
      } else {
        TidyRun(next, actions[1..]);
      }
    }
  }

  /** A panic takes both an id drawn twice and an unregistration that overtook its
      registration; either alone is harmless. */
  lemma PanicNeedsBoth(actions: seq<Action>)
    requires ValidRun(INITIAL, actions) && Run(INITIAL, actions).panicked
    ensures !DistinctIds(INITIAL, actions) && OvertakenSet(Run(INITIAL, actions)) != {}
  {
    var s := Run(INITIAL, actions);
    if DistinctIds(INITIAL, actions) {
      InvRun(INITIAL, actions);
    } else if NoneOvertaken(s) {
      TidyRun(INITIAL, actions);
    } else {
      var h :| 0 <= h < |s.conns| && s.conns[h].overtaken;
      assert h in OvertakenSet(s);
    }
  }

  // ----- The registry ----------------------------------------------------------------------

  /** Nothing is waiting: both queues are empty and no handler is about to enqueue. */
  predicate Quiet(s: State) {
    && s.register == [] && s.unregister == []
    && forall h :: 0 <= h < |s.conns| ==> s.conns[h].phase == Serving || s.conns[h].phase == Gone
  }

  ghost function ServingSet(s: State): set<nat> {
    set h | 0 <= h < |s.conns| && s.conns[h].phase == Serving
  }

  /** The connections whose unregistration was handled before their registration. */
  ghost function OvertakenSet(s: State): set<nat> {
    set h | 0 <= h < |s.conns| && s.conns[h].overtaken
  }

  /** An injective map has as many keys as values. */
  lemma {:induction false} MapSize(m: map<string, nat>, values: set<nat>)
    requires forall k :: k in m ==> m[k] in values
    requires forall v :: v in values ==> exists k :: k in m && m[k] == v
    requires forall k, k' :: k in m && k' in m && m[k] == m[k'] ==> k == k'
    ensures |m| == |values|
    decreases |values|
  {
    if values == {} {
      assert m == map[];
    } else {
      var v :| v in values;
      var k :| k in m && m[k] == v;
      var m' := m - {k};
      forall w | w in values - {v}
        ensures exists j :: j in m' && m'[j] == w
      {
        var j :| j in m && m[j] == w;
        assert j in m' && m'[j] == w;
      }
      MapSize(m', values - {v});
      assert m.Keys == m'.Keys + {k};
      assert |m.Keys| == |m'.Keys| + 1;
    }
  }

  /** When nothing is waiting, the registry is exactly the serving clients and the overtaken
      ones, ClientCount is the size of that union, and it is the number of serving clients if
      and only if no unregistration ever overtook its registration. */
  lemma RegistryExact(actions: seq<Action>)
    requires ValidRun(INITIAL, actions) && DistinctIds(INITIAL, actions)
    requires Quiet(Run(INITIAL, actions))
    ensures var s := Run(INITIAL, actions);
            && s.clients.Values == ServingSet(s) + OvertakenSet(s)
            && ServingSet(s) !! OvertakenSet(s)
            && ClientCount(s) == |ServingSet(s) + OvertakenSet(s)|
            && (ClientCount(s) == |ServingSet(s)| <==> OvertakenSet(s) == {})
  {
    var s := Run(INITIAL, actions);
    InvRun(INITIAL, actions);
    RegistryValues(s);
    var union := ServingSet(s) + OvertakenSet(s);
    MapSize(s.clients, union);
    assert |union| == |ServingSet(s)| + |OvertakenSet(s)|;
  }

  lemma RegistryValues(s: State)
    requires Inv(s) && Quiet(s)
    ensures s.clients.Values == ServingSet(s) + OvertakenSet(s)
    ensures ServingSet(s) !! OvertakenSet(s)
    ensures forall k, k' :: k in s.clients && k' in s.clients && s.clients[k] == s.clients[k'] ==> k == k'
  {
    forall h
      ensures h in s.clients.Values <==> h in ServingSet(s) + OvertakenSet(s)
    {
      if 0 <= h < |s.conns| {
        assert ConnOk(s, h);
        assert s.conns[h].registered && (s.conns[h].phase == Serving || s.conns[h].phase == Gone);
        assert h in s.clients.Values <==> s.conns[h].id in s.clients && s.clients[s.conns[h].id] == h;
      }
    }
    forall h | h in ServingSet(s)
      ensures h !in OvertakenSet(s)
    {
      assert ConnOk(s, h);
    }
  }

  /** A client that has been overtaken and registered stays in the registry for good. */
  lemma {:induction false} OvertakenForever(s: State, actions: seq<Action>, h: nat)
    requires Inv(s) && ValidRun(s, actions) && DistinctIds(s, actions)
    requires h < |s.conns| && s.conns[h].overtaken && s.conns[h].registered
    ensures var last := Run(s, actions);
            h < |last.conns| && last.conns[h].id == s.conns[h].id
            && last.conns[h].id in last.clients && last.clients[last.conns[h].id] == h
    decreases |actions|
  {
    assert ConnOk(s, h);
    if actions != [] {
      InvNext(s, actions[0]);
      OvertakenForever(Next(s, actions[0]), actions[1..], h);
    }
  }

  // ----- Overtaking ------------------------------------------------------------------------

  lemma Cons(s: State, a: Action, rest: seq<Action>)
    requires Enabled(s, a) && ValidRun(Next(s, a), rest)
    ensures ValidRun(s, [a] + rest) && Run(s, [a] + rest) == Run(Next(s, a), rest)
    ensures DistinctIds(s, [a] + rest) <==> (a.Connect? ==> FreshId(s, a.id)) && DistinctIds(Next(s, a), rest)
  {
    assert ([a] + rest)[1..] == rest;
  }

  /** Overtaking does happen: the select loop may take the unregistration first, and then a
      client nobody serves is counted from then on. */
  lemma OvertakingHappens(id: string) returns (actions: seq<Action>)
    ensures ValidRun(INITIAL, actions) && DistinctIds(INITIAL, actions)
    ensures var s := Run(INITIAL, actions);
            Quiet(s) && ClientCount(s) == 1 && ServingSet(s) == {}
  {
    var s1 := Next(INITIAL, Connect(id));
    var s2 := Next(s1, EnqueueRegister(0));
    var s3 := Next(s2, Cancel(0));
    var s4 := Next(s3, EnqueueUnregister(0));
    var s5 := Next(s4, HandleUnregister);
    var s6 := Next(s5, HandleRegister);
    assert s6.clients == map[id := 0];
    assert ServingSet(s6) == {};
    actions := [];
    Cons(s5, HandleRegister, actions);
    actions := [HandleRegister] + actions;
    Cons(s4, HandleUnregister, actions);
    actions := [HandleUnregister] + actions;
    Cons(s3, EnqueueUnregister(0), actions);
    actions := [EnqueueUnregister(0)] + actions;
    Cons(s2, Cancel(0), actions);
    actions := [Cancel(0)] + actions;
    Cons(s1, EnqueueRegister(0), actions);
    actions := [EnqueueRegister(0)] + actions;
    Cons(INITIAL, Connect(id), actions);
    actions := [Connect(id)] + actions;
  }

  lemma {:induction false} Append(s: State, a: seq<Action>, b: seq<Action>)
    requires ValidRun(s, a) && ValidRun(Run(s, a), b)
    ensures ValidRun(s, a + b) && Run(s, a + b) == Run(Run(s, a), b)
    ensures DistinctIds(s, a + b) ==> DistinctIds(s, a) && DistinctIds(Run(s, a), b)
    decreases |a|
  {
    if a == [] {
      assert a + b == b;
    } else {
      Append(Next(s, a[0]), a[1..], b);
      assert a + b == [a[0]] + (a[1..] + b);
      Cons(s, a[0], a[1..] + b);
    }
  }

  lemma Snoc(s: State, trace: seq<Action>, a: Action)
    requires ValidRun(s, trace) && Enabled(Run(s, trace), a)
    ensures ValidRun(s, trace + [a]) && Run(s, trace + [a]) == Next(Run(s, trace), a)
  {
    Cons(Run(s, trace), a, []);
    Append(s, trace, [a]);
  }
}
