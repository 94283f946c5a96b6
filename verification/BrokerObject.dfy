/** The broker as the program has it: an object whose map and queues its methods update. Each
    method is a run of the protocol in module Broker. */
module BrokerObject {
  import opened Options
  import opened EventStream
  import opened Broker
  import opened BrokerSafety

  /** The case a turn of Run's select loop takes. */
  datatype Choice = OnRegister | OnUnregister | OnBroadcast | OnHeartbeat | OnDone

  class Hub {
    var conns: seq<Conn>
    var clients: map<string, nat>
    var broadcast: seq<Event>
    var register: seq<nat>
    var unregister: seq<nat>
    var run: RunState
    var dispatched: seq<Event>  // history

    function View(): State
      reads this
    {
      State(conns, clients, broadcast, register, unregister, run, dispatched, false)
    }

    constructor ()
      ensures View() == INITIAL && Inv(View())
    {
      conns, clients, broadcast, register, unregister, run := [], map[], [], [], [], Selecting;
      dispatched := [];
    }

    method Broadcast(e: Event)
      modifies this`broadcast
      ensures View() == Next(old(View()), Publish(e))
      ensures broadcast == if |old(broadcast)| < 256 then old(broadcast) + [e] else old(broadcast)
    {
      if |broadcast| < BROADCAST_CAPACITY {
        broadcast := broadcast + [e];
      }
    }

    method HandleRegister()
      requires Enabled(View(), Action.HandleRegister)
      modifies this
      ensures View() == Next(old(View()), Action.HandleRegister)
      ensures RegisterEffect(old(View()), View())
    {
      var h := register[0];
      register := register[1..];
      clients := clients[conns[h].id := h];
      conns := conns[h := conns[h].(registered := true, entered := |dispatched|)];
    }

    method HandleUnregister()
      requires Inv(View()) && Enabled(View(), Action.HandleUnregister)
      modifies this
      ensures View() == Next(old(View()), Action.HandleUnregister)
      ensures UnregisterEffect(old(View()), View())
    {
      ghost var before := View();
      UnregisterDoes(before);
      InvNext(before, Action.HandleUnregister);
      var h := unregister[0];
      unregister := unregister[1..];
      conns := conns[h := conns[h].(unregistered := true, overtaken := conns[h].overtaken || !conns[h].registered)];
      if conns[h].id in clients {
        clients := clients - {conns[h].id};
        conns := conns[h := conns[h].(closed := true, left := |dispatched|)];
      }
    }

    method SendOne(id: string, ghost start: State, ghost trace: seq<Action>)
      requires Along(start, trace, View()) && Enabled(View(), SendTo(id))
      modifies this
      ensures View() == Next(old(View()), SendTo(id))
      ensures Along(start, trace + [SendTo(id)], View())
      ensures run == Dispatching(old(run).event, old(run).todo - {id})
    {
      ghost var before := View();
      AlongNext(start, trace, before, id);
      var h, e := clients[id], run.event;
      conns := conns[h := Offered(conns[h], e)];
      run := Dispatching(e, run.todo - {id});
      assert View() == Next(before, SendTo(id));
    }

    method TakeOne()
      requires Inv(View()) && Enabled(View(), TakeBroadcast)
      modifies this
      ensures View() == Next(old(View()), TakeBroadcast) && Inv(View())
      ensures broadcast == old(broadcast)[1..] && dispatched == old(dispatched) + [old(broadcast)[0]]
      ensures conns == old(conns) && clients == old(clients) && run == Dispatching(old(broadcast)[0], clients.Keys)
    {
      InvNext(View(), TakeBroadcast);
      dispatched := dispatched + [broadcast[0]];
      run := Dispatching(broadcast[0], clients.Keys);
      broadcast := broadcast[1..];
    }

    /** The inner loop over the clients, in some order. */
    method SendAll(ghost start: State, ghost soFar: seq<Action>) returns (ghost trace: seq<Action>)
      requires Along(start, soFar, View())
      modifies this
      ensures Along(start, trace, View()) && run == Dispatching(old(run).event, {})
    {
      trace := soFar;
      while run.todo != {}
        invariant Along(start, trace, View()) && run.event == old(run).event
        decreases |run.todo|
      {
        var id :| id in run.todo;
        SendOne(id, start, trace);
        trace := trace + [SendTo(id)];
      }
    }

    /** The broadcast case: every registered client is offered the event once, in some order. */
    method Dispatch() returns (ghost trace: seq<Action>)
      requires Inv(View()) && Enabled(View(), TakeBroadcast)
      modifies this
      ensures ValidRun(old(View()), trace) && View() == Run(old(View()), trace)
      ensures Inv(View()) && run == Selecting
      ensures OfferedExcept(old(View()), View(), {}, old(broadcast)[0])
      ensures broadcast == old(broadcast)[1..] && dispatched == old(dispatched) + [old(broadcast)[0]]
      ensures DispatchTrace(trace)
    {
      ghost var start := View();
      TakeOne();
      Cons(start, TakeBroadcast, []);
      trace := SendAll(start, [TakeBroadcast]);
      Snoc(start, trace, EndDispatch);
      InvNext(View(), EndDispatch);
      run := Selecting;
      assert (trace + [EndDispatch])[..|trace|] == trace;
      trace := trace + [EndDispatch];
    }

    /** One turn of Run's loop; a case that is not ready is not taken. */
    method Turn(choice: Choice) returns (ghost trace: seq<Action>)
      requires Inv(View()) && run == Selecting
      modifies this
      ensures ValidRun(old(View()), trace) && View() == Run(old(View()), trace)
      ensures Inv(View()) && (choice != OnDone ==> run == Selecting)
      ensures Takes(old(View()), choice, trace)
    {
      ghost var start := View();
      trace := [];
      match choice
      case OnRegister =>
        if register != [] {
          assert register[0] in register;
          InvNext(start, Action.HandleRegister);
          HandleRegister();
          Cons(start, Action.HandleRegister, []);
          trace := [Action.HandleRegister];
        }
      case OnUnregister =>
        if unregister != [] {
          assert unregister[0] in unregister;
          InvNext(start, Action.HandleUnregister);
          HandleUnregister();
          Cons(start, Action.HandleUnregister, []);
          trace := [Action.HandleUnregister];
        }
      case OnBroadcast =>
        if broadcast != [] {
          trace := Dispatch();
        }
      case OnHeartbeat =>
        InvNext(start, Heartbeat);
        Broadcast(Event("heartbeat", "{}"));
        Cons(start, Heartbeat, []);
        trace := [Heartbeat];
      case OnDone =>
        InvNext(start, Stop);
        run := Stopped;
        Cons(start, Stop, []);
        trace := [Stop];
    }

    /** Run, for any sequence of turns: it stops at the first `done`. */
    method RunLoop(choices: seq<Choice>) returns (ghost trace: seq<Action>, ghost states: seq<State>, ghost turns: seq<seq<Action>>)
      requires Inv(View()) && run == Selecting
      modifies this
      ensures ValidRun(old(View()), trace) && View() == Run(old(View()), trace) && Inv(View())
      ensures InTurns(choices, states, turns) && states[0] == old(View()) && states[|turns|] == View()
      ensures |turns| < |choices| ==> turns != [] && choices[|turns| - 1] == OnDone
    {
      trace, states, turns := [], [View()], [];
      for i := 0 to |choices|
        invariant ValidRun(old(View()), trace) && View() == Run(old(View()), trace)
        invariant Inv(View()) && run == Selecting
        invariant |turns| == i && InTurns(choices, states, turns) && states[0] == old(View()) && states[i] == View()
        invariant forall k :: 0 <= k < i ==> choices[k] != OnDone
      {
        ghost var turn := Turn(choices[i]);
        Append(old(View()), trace, turn);
        OneMoreTurn(choices, states, turns, turn, View());
        trace, states, turns := trace + turn, states + [View()], turns + [turn];
        if choices[i] == OnDone {
          return;
        }
      }
    }

    /** ServeHTTP up to its receive loop, when the registration does not block. */
    method Subscribe(id: string) returns (h: nat)
      requires Inv(View()) && |register| < REGISTER_CAPACITY
      modifies this
      ensures h == |old(conns)|
      ensures View() == Next(Next(old(View()), Connect(id)), EnqueueRegister(h))
      ensures conns == old(conns) + [Conn(id, Serving, [], false, [], [], false, false, false, 0, 0)]
      ensures register == old(register) + [h] && clients == old(clients)
    {
      h := |conns|;
      conns := conns + [NewConn(id)];
      register := register + [h];
      conns := conns[h := conns[h].(phase := Serving)];
    }

    /** One turn of the receive loop: the text written to the client, or None on leaving. */
    method ReceiveOne(h: nat, cancelled: bool) returns (text: Option<string>)
      requires Inv(View()) && h < |conns| && conns[h].phase == Serving
      requires cancelled || conns[h].buffer != []
      modifies this
      ensures View() == Next(old(View()), if cancelled then Cancel(h) else Receive(h))
      ensures text == if cancelled then None else Some(Frame(old(conns)[h].buffer[0]))
      ensures !cancelled ==>
                var e := old(conns)[h].buffer[0];
                text == Some("event: " + e.eventType + "\ndata: " + e.data + "\n\n")
      ensures |conns| == |old(conns)| && forall other :: 0 <= other < |conns| && other != h ==> conns[other] == old(conns)[other]
      ensures var c := old(conns)[h];
              conns[h] == if cancelled then c.(phase := Leaving)
                          else c.(buffer := c.buffer[1..], received := c.received + [c.buffer[0]])
    {
      if cancelled {
        conns := conns[h := conns[h].(phase := Leaving)];
        return None;
      }
      var e := conns[h].buffer[0];
      conns := conns[h := conns[h].(buffer := conns[h].buffer[1..], received := conns[h].received + [e])];
      return Some(Frame(e));
    }
  }

  /** The oldest waiting registration enters the map under its id. */
  ghost predicate RegisterEffect(s: State, s': State) {
    s.register != [] && s.register[0] < |s.conns| &&
    var h := s.register[0];
    && s'.register == s.register[1..] && s'.clients == s.clients[s.conns[h].id := h]
    && s'.conns == s.conns[h := s.conns[h].(registered := true, entered := |s.dispatched|)]
  }

  /** The oldest waiting unregistration deletes its client and closes its channel, if it is in
      the map, and touches no other. */
  ghost predicate UnregisterEffect(s: State, s': State) {
    s.unregister != [] && s.unregister[0] < |s.conns| == |s'.conns| &&
    var h := s.unregister[0];
    && s'.unregister == s.unregister[1..] && s'.clients == s.clients - {s.conns[h].id}
    && (s'.conns[h].closed <==> s.conns[h].closed || s.conns[h].id in s.clients)
    && s'.conns[h].buffer == s.conns[h].buffer && s'.conns[h].received == s.conns[h].received
    && forall other :: 0 <= other < |s.conns| && other != h ==> s'.conns[other] == s.conns[other]
  }

  lemma UnregisterDoes(s: State)
    requires Enabled(s, Action.HandleUnregister)
    ensures UnregisterEffect(s, Next(s, Action.HandleUnregister))
  {
  }

  /** The event has been taken, and all since then were sends. */
  predicate Sending(trace: seq<Action>) {
    trace != [] && trace[0] == TakeBroadcast && forall i :: 1 <= i < |trace| ==> trace[i].SendTo?
  }

  predicate DispatchTrace(trace: seq<Action>) {
    trace != [] && trace[|trace| - 1] == EndDispatch && Sending(trace[..|trace| - 1])
  }

  /** What a turn does: a case that is ready is taken, and one that is not does nothing. */
  predicate Takes(s: State, choice: Choice, trace: seq<Action>) {
    match choice
    case OnRegister => trace == if s.register == [] then [] else [Action.HandleRegister]
    case OnUnregister => trace == if s.unregister == [] then [] else [Action.HandleUnregister]
    case OnBroadcast => if s.broadcast == [] then trace == [] else DispatchTrace(trace)
    case OnHeartbeat => trace == [Heartbeat]
    case OnDone => trace == [Stop]
  }

  /** The states between the turns of a loop. Only the last may be `done`. */
  ghost predicate InTurns(choices: seq<Choice>, states: seq<State>, turns: seq<seq<Action>>) {
    && |turns| <= |choices| && |states| == |turns| + 1
    && (forall i :: 0 <= i < |turns| ==>
          && ValidRun(states[i], turns[i]) && states[i + 1] == Run(states[i], turns[i])
          && Takes(states[i], choices[i], turns[i]))
    && (forall i :: 0 <= i < |turns| - 1 ==> choices[i] != OnDone)
  }

  lemma OneMoreTurn(choices: seq<Choice>, states: seq<State>, turns: seq<seq<Action>>, turn: seq<Action>, s: State)
    requires InTurns(choices, states, turns) && |turns| < |choices|
    requires forall i :: 0 <= i < |turns| ==> choices[i] != OnDone
    requires ValidRun(states[|turns|], turn) && s == Run(states[|turns|], turn) && Takes(states[|turns|], choices[|turns|], turn)
    ensures InTurns(choices, states + [s], turns + [turn])
  {
    var states', turns' := states + [s], turns + [turn];
    forall i | 0 <= i < |turns'|
      ensures ValidRun(states'[i], turns'[i]) && states'[i + 1] == Run(states'[i], turns'[i])
      ensures Takes(states'[i], choices[i], turns'[i])
    {
      if i < |turns| {
        assert states'[i] == states[i] && states'[i + 1] == states[i + 1] && turns'[i] == turns[i];
      }
    }
  }

  /** The event goes behind what is buffered, unless 64 are; the offer is on record either way. */
  function WithOffer(c: Conn, e: Event): Conn {
    c.(buffer := if |c.buffer| < 64 then c.buffer + [e] else c.buffer, offers := c.offers + [Offer(e, |c.buffer|)])
  }

  /** Since `before`, every client registered then has been offered e once, except those in
      `todo`, whose channels are untouched. */
  ghost predicate OfferedExcept(before: State, now: State, todo: set<string>, e: Event) {
    && now.clients == before.clients && |now.conns| == |before.conns|
    && forall k :: k in before.clients ==>
         && before.clients[k] < |before.conns|
         && now.conns[before.clients[k]]
            == if k in todo then before.conns[before.clients[k]] else WithOffer(before.conns[before.clients[k]], e)
  }

  /** `s` is reached by `trace` in the middle of a dispatch, with the visited clients served. */
  ghost predicate Along(start: State, trace: seq<Action>, s: State) {
    && ValidRun(start, trace) && s == Run(start, trace)
    && Inv(s) && s.run.Dispatching?
    && OfferedExcept(start, s, s.run.todo, s.run.event)
    && start.broadcast != [] && s.broadcast == start.broadcast[1..]
    && s.dispatched == start.dispatched + [start.broadcast[0]]
    && Sending(trace)
  }

  lemma AlongNext(start: State, trace: seq<Action>, s: State, id: string)
    requires Along(start, trace, s) && Enabled(s, SendTo(id))
    ensures Along(start, trace + [SendTo(id)], Next(s, SendTo(id)))
    ensures !s.conns[s.clients[id]].closed
  {
    InvSendTo(s, id);
    OfferedNext(start, s, id);
    Snoc(start, trace, SendTo(id));
  }

  lemma OfferedNext(before: State, s: State, id: string)
    requires Inv(s) && Enabled(s, SendTo(id)) && OfferedExcept(before, s, s.run.todo, s.run.event)
    ensures OfferedExcept(before, Next(s, SendTo(id)), s.run.todo - {id}, s.run.event)
  {
    InvSendTo(s, id);
    assert forall k :: k in s.clients && k != id ==> s.clients[k] != s.clients[id];
  }
}
