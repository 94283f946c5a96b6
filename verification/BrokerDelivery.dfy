/** What each client receives: of the events dispatched while it was registered, exactly those
    its buffer had room for, in order. */
module BrokerDelivery {
  import opened EventStream
  import opened Broker
  import opened BrokerSafety

  function Events(offers: seq<Offer>): seq<Event> {
    seq(|offers|, i requires 0 <= i < |offers| => offers[i].event)
  }

  /** The offers that found room. */
  function Accepted(offers: seq<Offer>): seq<Event> {
    if offers == [] then []
    else
      var k := |offers| - 1;
      Accepted(offers[..k]) + (if offers[k].depth < SEND_CAPACITY then [offers[k].event] else [])
  }

  /** Their positions among all offers. */
  function Positions(offers: seq<Offer>): seq<nat> {
    if offers == [] then []
    else
      var k := |offers| - 1;
      Positions(offers[..k]) + (if offers[k].depth < SEND_CAPACITY then [k] else [])
  }

  /** The number of events dropped because the buffer was full. */
  function Dropped(offers: seq<Offer>): nat {
    if offers == [] then 0
    else
      var k := |offers| - 1;
      Dropped(offers[..k]) + (if offers[k].depth < SEND_CAPACITY then 0 else 1)
  }

  /** Whether a dispatch is under way that has yet to visit client h. */
  function Waiting(s: State, h: nat): nat
    requires h < |s.conns|
  {
    if s.run.Dispatching? && s.conns[h].id in s.run.todo then 1 else 0
  }

  /** How many of the dispatched events were dispatched before h left the registry (or now). */
  function Upto(s: State, h: nat): int
    requires h < |s.conns|
  {
    if s.conns[h].closed then s.conns[h].left else |s.dispatched| - Waiting(s, h)
  }

  ghost predicate Delivers(s: State, h: nat)
    requires h < |s.conns|
  {
    var c := s.conns[h];
    && |c.buffer| <= SEND_CAPACITY
    && c.received + c.buffer == Accepted(c.offers)
    && (forall i :: 0 <= i < |c.offers| ==> c.offers[i].depth <= SEND_CAPACITY)
    && (!c.registered ==> c.offers == [])
    && (c.registered ==> c.entered <= Upto(s, h) <= |s.dispatched|
                         && Events(c.offers) == s.dispatched[c.entered..Upto(s, h)])
  }

  ghost predicate DeliveryInv(s: State) {
    && (forall h :: 0 <= h < |s.conns| ==> Delivers(s, h))
    && (s.run.Dispatching? ==> s.dispatched != [] && s.dispatched[|s.dispatched| - 1] == s.run.event)
  }

  /** The account of a client depends on its channel and on the dispatched events only. */
  lemma FrameDelivers(s: State, s': State, h: nat)
    requires h < |s.conns| && h < |s'.conns| && Delivers(s, h)
    requires s'.conns[h].(phase := s.conns[h].phase) == s.conns[h]
    requires s'.dispatched == s.dispatched && Waiting(s', h) == Waiting(s, h)
    ensures Delivers(s', h)
  {
  }

  /** One send keeps the account of one channel. */
  lemma OfferAccounted(c: Conn, e: Event)
    requires |c.buffer| <= SEND_CAPACITY && c.received + c.buffer == Accepted(c.offers)
    ensures var c' := Offered(c, e);
            && |c'.buffer| <= SEND_CAPACITY && c'.received + c'.buffer == Accepted(c'.offers)
            && Events(c'.offers) == Events(c.offers) + [e]
  {
    var c' := Offered(c, e);
    assert c'.offers[..|c.offers|] == c.offers;
    assert c.received + (c.buffer + [e]) == (c.received + c.buffer) + [e];
  }

  lemma SliceToEnd(dispatched: seq<Event>, entered: nat)
    requires entered < |dispatched|
    ensures dispatched[entered..|dispatched|]
         == dispatched[entered..|dispatched| - 1] + [dispatched[|dispatched| - 1]]
  {
  }

  /** A client that is offered the event of the dispatch under way is up to date. */
  lemma OfferCatchesUp(s: State, s': State, h: nat, e: Event)
    requires h < |s.conns| && h < |s'.conns| && Delivers(s, h)
    requires s.conns[h].registered && !s.conns[h].closed && s'.conns[h] == Offered(s.conns[h], e)
    requires s'.dispatched == s.dispatched != [] && s.dispatched[|s.dispatched| - 1] == e
    requires Waiting(s, h) == 1 && Waiting(s', h) == 0
    ensures Delivers(s', h)
  {
    var c := s.conns[h];
    OfferAccounted(c, e);
    SliceToEnd(s.dispatched, c.entered);
    assert Upto(s, h) == |s.dispatched| - 1 && Upto(s', h) == |s.dispatched|;
    DepthsOffered(c, e);
  }

  lemma DepthsOffered(c: Conn, e: Event)
    requires |c.buffer| <= SEND_CAPACITY && forall i :: 0 <= i < |c.offers| ==> c.offers[i].depth <= SEND_CAPACITY
    ensures forall i :: 0 <= i < |Offered(c, e).offers| ==> Offered(c, e).offers[i].depth <= SEND_CAPACITY
  {
  }

  lemma OfferedDelivers(s: State, id: string)
    requires Inv(s) && DeliveryInv(s) && Enabled(s, SendTo(id))
    ensures Delivers(Next(s, SendTo(id)), s.clients[id])
  {
    var h := s.clients[id];
    InvSendTo(s, id);
    assert Delivers(s, h) && ConnOk(s, h);
    OfferCatchesUp(s, Next(s, SendTo(id)), h, s.run.event);
  }

  lemma SendDelivers(s: State, id: string)
    requires Inv(s) && DeliveryInv(s) && Enabled(s, SendTo(id))
    ensures DeliveryInv(Next(s, SendTo(id)))
  {
    var s' := Next(s, SendTo(id));
    InvSendTo(s, id);
    OfferedDelivers(s, id);
    forall h | 0 <= h < |s'.conns|
      ensures Delivers(s', h)
    {
      if h != s.clients[id] {
        assert s.conns[h].id != id;
        FrameDelivers(s, s', h);
      }
    }
  }

  lemma DispatchDelivers(s: State)
    requires Inv(s) && DeliveryInv(s) && Enabled(s, TakeBroadcast)
    ensures DeliveryInv(Next(s, TakeBroadcast))
  {
    var s' := Next(s, TakeBroadcast);
    forall h | 0 <= h < |s'.conns|
      ensures Delivers(s', h)
    {
      assert Delivers(s, h) && ConnOk(s, h);
      var c := s.conns[h];
      if c.registered {
        assert Upto(s', h) == Upto(s, h);
        assert s'.dispatched[c.entered..Upto(s, h)] == s.dispatched[c.entered..Upto(s, h)];
      }
    }
  }

  lemma RegisterDelivers(s: State)
    requires Inv(s) && DeliveryInv(s) && Enabled(s, HandleRegister)
    ensures DeliveryInv(Next(s, HandleRegister))
  {
    var s', q := Next(s, HandleRegister), s.register[0];
    assert ConnOk(s, q) && q in s.register;
    forall h | 0 <= h < |s'.conns|
      ensures Delivers(s', h)
    {
      assert Delivers(s, h) && ConnOk(s, h);
    }
  }

  lemma UnregisterDelivers(s: State)
    requires Inv(s) && DeliveryInv(s) && Enabled(s, HandleUnregister)
    ensures DeliveryInv(Next(s, HandleUnregister))
  {
    var s', q := Next(s, HandleUnregister), s.unregister[0];
    assert ConnOk(s, q) && q in s.unregister;
    forall h | 0 <= h < |s'.conns|
      ensures Delivers(s', h)
    {
      assert Delivers(s, h) && ConnOk(s, h);
    }
  }

  lemma ReceiveDelivers(s: State, h: nat)
    requires DeliveryInv(s) && Enabled(s, Receive(h))
    ensures DeliveryInv(Next(s, Receive(h)))
  {
    var s', c := Next(s, Receive(h)), s.conns[h];
    assert (c.received + [c.buffer[0]]) + c.buffer[1..] == c.received + c.buffer;
    forall x | 0 <= x < |s'.conns|
      ensures Delivers(s', x)
    {
      assert Delivers(s, x);
    }
  }

  lemma PhaseDelivers(s: State, a: Action)
    requires DeliveryInv(s) && Enabled(s, a)
    requires a.EnqueueRegister? || a.EnqueueUnregister? || a.ReceiveClosed? || a.Cancel?
    ensures DeliveryInv(Next(s, a))
  {
    var s' := Next(s, a);
    forall h | 0 <= h < |s'.conns|
      ensures Delivers(s', h)
    {
      FrameDelivers(s, s', h);
    }
  }

  lemma ConnectDelivers(s: State, id: string)
    requires DeliveryInv(s) && Enabled(s, Connect(id))
    ensures DeliveryInv(Next(s, Connect(id)))
  {
    var s' := Next(s, Connect(id));
    forall h | 0 <= h < |s'.conns|
      ensures Delivers(s', h)
    {
      if h < |s.conns| {
        assert Delivers(s, h);
      }
    }
  }

  lemma OtherDelivers(s: State, a: Action)
    requires DeliveryInv(s) && Enabled(s, a)
    requires a.Publish? || a.EndDispatch? || a.Heartbeat? || a.Stop?
    ensures DeliveryInv(Next(s, a))
  {
    var s' := Next(s, a);
    forall h | 0 <= h < |s'.conns|
      ensures Delivers(s', h)
    {
      assert Delivers(s, h);
    }
  }

  lemma {:induction false} DeliveryRun(s: State, actions: seq<Action>)
    requires Inv(s) && DeliveryInv(s) && ValidRun(s, actions) && DistinctIds(s, actions)
    ensures DeliveryInv(Run(s, actions))
    decreases |actions|
  {
    if actions != [] {
      var a := actions[0];
      InvNext(s, a);
      match a {
        case SendTo(id) => SendDelivers(s, id);
        case TakeBroadcast => DispatchDelivers(s);
        case HandleRegister => RegisterDelivers(s);
        case HandleUnregister => UnregisterDelivers(s);
        case Receive(h) => ReceiveDelivers(s, h);
        case Connect(id) => ConnectDelivers(s, id);
        case EnqueueRegister(_) => PhaseDelivers(s, a);
        case EnqueueUnregister(_) => PhaseDelivers(s, a);
        case ReceiveClosed(_) => PhaseDelivers(s, a);
        case Cancel(_) => PhaseDelivers(s, a);
        case _ => OtherDelivers(s, a);
      }
      DeliveryRun(Next(s, a), actions[1..]);
    }
  }

  lemma {:induction false} PositionAt(offers: seq<Offer>, i: nat)
    requires i < |Positions(offers)|
    ensures |Positions(offers)| == |Accepted(offers)|
    ensures Positions(offers)[i] < |offers| && offers[Positions(offers)[i]].event == Accepted(offers)[i]
  {
    var k := |offers| - 1;
    PositionCounts(offers[..k]);
    if i < |Positions(offers[..k])| {
      PositionAt(offers[..k], i);
    }
  }

  lemma {:induction false} PositionCounts(offers: seq<Offer>)
    ensures |Positions(offers)| == |Accepted(offers)|
    ensures |Accepted(offers)| + Dropped(offers) == |offers|
  {
    if offers != [] {
      PositionCounts(offers[..|offers| - 1]);
    }
  }

  lemma {:induction false} PositionsIncrease(offers: seq<Offer>, i: nat, j: nat)
    requires i < j < |Positions(offers)|
    ensures Positions(offers)[i] < Positions(offers)[j]
  {
    var k := |offers| - 1;
    if j < |Positions(offers[..k])| {
      PositionsIncrease(offers[..k], i, j);
    } else {
      PositionAt(offers[..k], i);
    }
  }

  lemma {:induction false} PositionsComplete(offers: seq<Offer>, p: nat)
    requires p < |offers| && offers[p].depth < SEND_CAPACITY
    ensures p in Positions(offers)
  {
    var k := |offers| - 1;
    if p < k {
      PositionsComplete(offers[..k], p);
    }
  }

  /** The accepted offers are the dispatched events at increasing positions. */
  lemma AcceptedAt(offers: seq<Offer>, since: seq<Event>, i: nat)
    requires Events(offers) == since && i < |Positions(offers)|
    ensures |Positions(offers)| == |Accepted(offers)| && Positions(offers)[i] < |offers| == |since|
    ensures Accepted(offers)[i] == since[Positions(offers)[i]]
  {
    PositionAt(offers, i);
    assert Events(offers)[Positions(offers)[i]] == offers[Positions(offers)[i]].event;
  }

  lemma SliceAt(dispatched: seq<Event>, from: nat, upto: nat, p: nat)
    requires from <= upto <= |dispatched| && p < upto - from
    ensures dispatched[from..upto][p] == dispatched[from + p]
  {
  }

  /** The events es are those of `dispatched` from `from` to `upto`, at positions ps from there,
      in order and without repetition. */
  ghost predicate Selects(es: seq<Event>, ps: seq<nat>, dispatched: seq<Event>, from: nat, upto: int) {
    && from <= upto <= |dispatched|
    && |ps| == |es|
    && (forall i, j :: 0 <= i < j < |ps| ==> ps[i] < ps[j])
    && (forall i :: 0 <= i < |ps| ==> ps[i] < upto - from && es[i] == dispatched[from + ps[i]])
  }

  lemma AcceptedSelects(offers: seq<Offer>, dispatched: seq<Event>, from: nat, upto: nat)
    requires from <= upto <= |dispatched| && Events(offers) == dispatched[from..upto]
    ensures Selects(Accepted(offers), Positions(offers), dispatched, from, upto)
  {
    var ps := Positions(offers);
    PositionCounts(offers);
    forall i, j | 0 <= i < j < |ps|
      ensures ps[i] < ps[j]
    {
      PositionsIncrease(offers, i, j);
    }
    forall i | 0 <= i < |ps|
      ensures ps[i] < upto - from && Accepted(offers)[i] == dispatched[from + ps[i]]
    {
      AcceptedAt(offers, dispatched[from..upto], i);
      SliceAt(dispatched, from, upto, ps[i]);
    }
  }

  lemma RefusedWereFull(offers: seq<Offer>)
    requires forall i :: 0 <= i < |offers| ==> offers[i].depth <= SEND_CAPACITY
    ensures forall p :: 0 <= p < |offers| && p !in Positions(offers) ==> offers[p].depth == SEND_CAPACITY
  {
    forall p | 0 <= p < |offers| && p !in Positions(offers)
      ensures offers[p].depth == SEND_CAPACITY
    {
      if offers[p].depth < SEND_CAPACITY {
        PositionsComplete(offers, p);
      }
    }
  }

  /** For every client of every run with distinct ids: the events it received followed by those
      it still has buffered are the events dispatched since it was registered (until it was
      removed), in order and without repetition, less only the events that found its buffer
      holding 64. */
  lemma Delivery(actions: seq<Action>, h: nat)
    requires ValidRun(INITIAL, actions) && DistinctIds(INITIAL, actions)
    requires h < |Run(INITIAL, actions).conns| && Run(INITIAL, actions).conns[h].registered
    ensures var s := Run(INITIAL, actions);
            var c, es, ps := s.conns[h], s.conns[h].received + s.conns[h].buffer, Positions(s.conns[h].offers);
            && Selects(es, ps, s.dispatched, c.entered, Upto(s, h)) && |c.offers| == Upto(s, h) - c.entered
            && (forall p :: 0 <= p < |c.offers| && p !in ps ==> c.offers[p].depth == SEND_CAPACITY)
            && |c.received| + |c.buffer| + Dropped(c.offers) == Upto(s, h) - c.entered
            && |c.buffer| <= SEND_CAPACITY
  {
    DeliveryRun(INITIAL, actions);
    var s := Run(INITIAL, actions);
    var c := s.conns[h];
    assert Delivers(s, h);
    PositionCounts(c.offers);
    assert |Events(c.offers)| == |c.offers|;
    AcceptedSelects(c.offers, s.dispatched, c.entered, Upto(s, h));
    RefusedWereFull(c.offers);
  }

  /** A browser that reads what a handler has written gets back exactly the events the handler
      received, provided the dispatched events fit the wire format. */
  lemma WireDelivers(actions: seq<Action>, h: nat)
    requires ValidRun(INITIAL, actions) && DistinctIds(INITIAL, actions)
    requires h < |Run(INITIAL, actions).conns|
    requires forall i :: 0 <= i < |Run(INITIAL, actions).dispatched| ==> Clean(Run(INITIAL, actions).dispatched[i])
    ensures var c := Run(INITIAL, actions).conns[h];
            Parse(Frames(c.received)) == c.received
  {
    var s := Run(INITIAL, actions);
    var c := s.conns[h];
    DeliveryRun(INITIAL, actions);
    assert Delivers(s, h);
    if c.registered {
      Delivery(actions, h);
      forall i | 0 <= i < |c.received|
        ensures Clean(c.received[i])
      {
        assert (c.received + c.buffer)[i] == c.received[i];
      }
    } else {
      assert c.received == [];
    }
    RoundTripIff(c.received);
  }
}
