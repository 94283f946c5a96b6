/** Which client ids are safe: those that are pairwise distinct, and no others. */
module BrokerIds {
  import opened EventStream
  import opened Broker
  import opened BrokerSafety

  /** The ids a run draws, in order. */
  function Drawn(actions: seq<Action>): seq<string> {
    if actions == [] then []
    else (if actions[0].Connect? then [actions[0].id] else []) + Drawn(actions[1..])
  }

  predicate Distinct(ids: seq<string>) {
    forall i, j :: 0 <= i < j < |ids| ==> ids[i] != ids[j]
  }

  function Ids(s: State): seq<string> {
    seq(|s.conns|, h requires 0 <= h < |s.conns| => s.conns[h].id)
  }

  lemma IdsNext(s: State, a: Action)
    requires Enabled(s, a)
    ensures Ids(Next(s, a)) == Ids(s) + if a.Connect? then [a.id] else []
  {
  }

  lemma {:induction false} DistinctDraws(s: State, actions: seq<Action>)
    requires ValidRun(s, actions) && Distinct(Ids(s) + Drawn(actions))
    ensures DistinctIds(s, actions)
    decreases |actions|
  {
    if actions != [] {
      var a, rest := actions[0], actions[1..];
      IdsNext(s, a);
      assert Ids(s) + Drawn(actions) == Ids(Next(s, a)) + Drawn(rest);
      DistinctDraws(Next(s, a), rest);
      if a.Connect? {
        forall h | 0 <= h < |s.conns|
          ensures s.conns[h].id != a.id
        {
          assert (Ids(s) + Drawn(actions))[h] == s.conns[h].id;
          assert (Ids(s) + Drawn(actions))[|s.conns|] == a.id;
        }
      }
    }
  }

  lemma {:induction false} DrawnSnoc(actions: seq<Action>, a: Action)
    ensures Drawn(actions + [a]) == Drawn(actions) + if a.Connect? then [a.id] else []
    decreases |actions|
  {
    if actions == [] {
      assert actions + [a] == [a];
    } else {
      assert (actions + [a])[1..] == actions[1..] + [a];
      DrawnSnoc(actions[1..], a);
    }
  }

  // ----- A run with a repeated id ----------------------------------------------------------

  function AllConnected(ids: seq<string>): State {
    INITIAL.(conns := seq(|ids|, k requires 0 <= k < |ids| => NewConn(ids[k])))
  }

  /** `actions` leads from the start to s and draws `ids`. */
  ghost predicate Leads(ids: seq<string>, actions: seq<Action>, s: State) {
    ValidRun(INITIAL, actions) && Run(INITIAL, actions) == s && Drawn(actions) == ids
  }

  lemma LeadsOn(ids: seq<string>, actions: seq<Action>, s: State, a: Action)
    requires Leads(ids, actions, s) && Enabled(s, a)
    ensures Leads(ids + if a.Connect? then [a.id] else [], actions + [a], Next(s, a))
  {
    Snoc(INITIAL, actions, a);
    DrawnSnoc(actions, a);
  }

  lemma {:induction false} ConnectAll(ids: seq<string>) returns (actions: seq<Action>)
    ensures Leads(ids, actions, AllConnected(ids))
    decreases |ids|
  {
    if ids == [] {
      actions := [];
      assert AllConnected(ids) == INITIAL;
    } else {
      var n := |ids| - 1;
      actions := ConnectAll(ids[..n]);
      LeadsOn(ids[..n], actions, AllConnected(ids[..n]), Connect(ids[n]));
      actions := actions + [Connect(ids[n])];
      assert ids[..n] + [ids[n]] == ids;
      assert Next(AllConnected(ids[..n]), Connect(ids[n])).conns == AllConnected(ids).conns;
    }
  }

  /** Nothing is queued and Run waits for its next case. */
  predicate AtRest(s: State) {
    s.register == [] && s.unregister == [] && s.broadcast == [] && s.run == Selecting && !s.panicked
  }

  lemma RegisterOne(ids: seq<string>, i: nat) returns (s: State, actions: seq<Action>)
    requires i < |ids|
    ensures Leads(ids, actions, s) && AtRest(s) && |s.conns| == |ids|
    ensures s.clients == map[ids[i] := i]
    ensures forall k :: 0 <= k < |ids| && k != i ==> s.conns[k] == NewConn(ids[k])
  {
    actions := ConnectAll(ids);
    s := AllConnected(ids);
    LeadsOn(ids, actions, s, EnqueueRegister(i));
    actions, s := actions + [EnqueueRegister(i)], Next(s, EnqueueRegister(i));
    assert ids + [] == ids;
    LeadsOn(ids, actions, s, HandleRegister);
    actions, s := actions + [HandleRegister], Next(s, HandleRegister);
  }

  /** The second connection with the id leaves, and its unregistration is handled first. */
  lemma OvertakeWithSameId(ids: seq<string>, i: nat, j: nat) returns (s: State, actions: seq<Action>)
    requires i < j < |ids| && ids[i] == ids[j]
    ensures Leads(ids, actions, s) && AtRest(s) && |s.conns| == |ids|
    ensures s.clients == map[ids[j] := j] && s.conns[j].closed
  {
    s, actions := RegisterOne(ids, i);
    assert ids + [] == ids;
    LeadsOn(ids, actions, s, EnqueueRegister(j));
    actions, s := actions + [EnqueueRegister(j)], Next(s, EnqueueRegister(j));
    LeadsOn(ids, actions, s, Cancel(j));
    actions, s := actions + [Cancel(j)], Next(s, Cancel(j));
    LeadsOn(ids, actions, s, EnqueueUnregister(j));
    actions, s := actions + [EnqueueUnregister(j)], Next(s, EnqueueUnregister(j));
    LeadsOn(ids, actions, s, HandleUnregister);
    actions, s := actions + [HandleUnregister], Next(s, HandleUnregister);
    assert s.clients == map[] && s.conns[j].closed;
    LeadsOn(ids, actions, s, HandleRegister);
    actions, s := actions + [HandleRegister], Next(s, HandleRegister);
  }

  /** When a second connection draws the id of a registered one and its unregistration
      overtakes its registration, a closed channel enters the registry and the next event is
      sent on it. */
  lemma CollisionPanics(ids: seq<string>, i: nat, j: nat, e: Event) returns (actions: seq<Action>)
    requires i < j < |ids| && ids[i] == ids[j]
    ensures ValidRun(INITIAL, actions) && Drawn(actions) == ids && Run(INITIAL, actions).panicked
  {
    var s;
    s, actions := OvertakeWithSameId(ids, i, j);
    assert ids + [] == ids;
    LeadsOn(ids, actions, s, Publish(e));
    actions, s := actions + [Publish(e)], Next(s, Publish(e));
    LeadsOn(ids, actions, s, TakeBroadcast);
    actions, s := actions + [TakeBroadcast], Next(s, TakeBroadcast);
    LeadsOn(ids, actions, s, SendTo(ids[j]));
    actions := actions + [SendTo(ids[j])];
  }

  /** Ids are safe, in that no run that draws them sends on a closed channel or closes one
      twice, if and only if they are pairwise distinct. */
  lemma SafeIdsIff(ids: seq<string>)
    ensures (forall actions :: ValidRun(INITIAL, actions) && Drawn(actions) == ids ==> !Run(INITIAL, actions).panicked)
       <==> Distinct(ids)
  {
    if Distinct(ids) {
      forall actions | ValidRun(INITIAL, actions) && Drawn(actions) == ids
        ensures !Run(INITIAL, actions).panicked
      {
        assert Ids(INITIAL) + Drawn(actions) == ids;
        DistinctDraws(INITIAL, actions);
        ChannelSafety(actions);
      }
    } else {
      var i, j :| 0 <= i < j < |ids| && ids[i] == ids[j];
      var actions := CollisionPanics(ids, i, j, Event("heartbeat", "{}"));
    }
  }
}
