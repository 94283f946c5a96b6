/** From what is published to what is dispatched: the queue between them loses only what finds
    it full. */
module BrokerQueue {
  import opened EventStream
  import opened Broker
  import opened BrokerDelivery

  /** The event an action announces, if it is one that announces an event. */
  function Announced(a: Action): seq<Event> {
    match a
    case Publish(e) => [e]
    case Heartbeat => [Event("heartbeat", "{}")]
    case _ => []
  }

  /** The events announced along a run that found fewer than 256 waiting, in order. */
  function Queued(s: State, actions: seq<Action>): seq<Event>
    requires ValidRun(s, actions)
    decreases |actions|
  {
    if actions == [] then []
    else (if |s.broadcast| < 256 then Announced(actions[0]) else []) + Queued(Next(s, actions[0]), actions[1..])
  }

  /** One step: an announced event goes behind what has been dispatched and what waits, unless
      256 wait; no other step adds, drops or reorders anything. */
  lemma StepQueue(s: State, a: Action)
    requires Enabled(s, a)
    ensures Next(s, a).dispatched + Next(s, a).broadcast
         == s.dispatched + s.broadcast + (if |s.broadcast| < 256 then Announced(a) else [])
    ensures Next(s, a).dispatched == s.dispatched + (if a.TakeBroadcast? then [s.broadcast[0]] else [])
  {
    if a.TakeBroadcast? {
      HeadMoves(s.dispatched, s.broadcast);
    } else if a.Publish? || a.Heartbeat? {
      TailGrows(s.dispatched, s.broadcast, Announced(a)[0]);
    }
  }

  /** A send puts the event behind what is buffered, unless 64 are, and records how many were;
      no other step records an offer. */
  lemma OffersAreRecorded(s: State, a: Action, h: nat)
    requires Enabled(s, a) && h < |s.conns| && !Next(s, a).panicked
    ensures var c, c' := s.conns[h], Next(s, a).conns[h];
            if a.SendTo? && s.clients[a.id] == h then
              && c'.offers == c.offers + [Offer(s.run.event, |c.buffer|)]
              && c'.buffer == if |c.buffer| < 64 then c.buffer + [s.run.event] else c.buffer
            else
              && c'.offers == c.offers
              && c'.received + c'.buffer == c.received + c.buffer
  {
    if a == Receive(h) {
      HeadMoves(s.conns[h].received, s.conns[h].buffer);
    }
  }

  lemma HeadMoves(done: seq<Event>, queue: seq<Event>)
    requires queue != []
    ensures (done + [queue[0]]) + queue[1..] == done + queue
  {
  }

  lemma TailGrows(done: seq<Event>, queue: seq<Event>, e: Event)
    ensures done + (queue + [e]) == done + queue + [e]
  {
  }

  /** Over any run, whatever ids are drawn: the events dispatched, followed by those waiting, are
      the events announced that found room, each once and in order. */
  lemma {:induction false} QueueKeepsOrder(s: State, actions: seq<Action>)
    requires ValidRun(s, actions)
    ensures Run(s, actions).dispatched + Run(s, actions).broadcast == s.dispatched + s.broadcast + Queued(s, actions)
    decreases |actions|
  {
    if actions != [] {
      StepQueue(s, actions[0]);
      QueueKeepsOrder(Next(s, actions[0]), actions[1..]);
    }
  }

  lemma DispatchedArePublished(actions: seq<Action>)
    requires ValidRun(INITIAL, actions)
    ensures var s := Run(INITIAL, actions);
            s.dispatched + s.broadcast == Queued(INITIAL, actions) && s.dispatched <= Queued(INITIAL, actions)
  {
    QueueKeepsOrder(INITIAL, actions);
  }

  /** Delivery, from publishing on: what a client received and has buffered is, in order and
      without repetition, what was announced, found room in the queue and was dispatched between
      its registration and its removal, less only the events that found 64 in its buffer. */
  lemma PublishedDelivery(actions: seq<Action>, h: nat)
    requires ValidRun(INITIAL, actions) && DistinctIds(INITIAL, actions)
    requires h < |Run(INITIAL, actions).conns| && Run(INITIAL, actions).conns[h].registered
    ensures var c := Run(INITIAL, actions).conns[h];
            && Selects(c.received + c.buffer, Positions(c.offers), Queued(INITIAL, actions),
                       c.entered, Upto(Run(INITIAL, actions), h))
            && |c.offers| == Upto(Run(INITIAL, actions), h) - c.entered
            && (forall p :: 0 <= p < |c.offers| && p !in Positions(c.offers) ==> c.offers[p].depth == 64)
  {
    var s := Run(INITIAL, actions);
    var c := s.conns[h];
    Delivery(actions, h);
    DispatchedArePublished(actions);
    SelectsFromLonger(c.received + c.buffer, Positions(c.offers), s.dispatched, Queued(INITIAL, actions), c.entered, Upto(s, h));
  }

  lemma SelectsFromLonger(es: seq<Event>, ps: seq<nat>, some: seq<Event>, more: seq<Event>, from: nat, upto: int)
    requires Selects(es, ps, some, from, upto) && some <= more
    ensures Selects(es, ps, more, from, upto)
  {
  }

  /** While every client keeps up and the queue never fills, nothing is lost: a client of a run
      that has handled everything has received all that was announced since its registration. */
  lemma NothingLost(actions: seq<Action>, h: nat)
    requires ValidRun(INITIAL, actions) && DistinctIds(INITIAL, actions)
    requires h < |Run(INITIAL, actions).conns| && Run(INITIAL, actions).conns[h].registered
    requires var s := Run(INITIAL, actions);
             && s.broadcast == [] && !s.run.Dispatching? && !s.conns[h].closed && s.conns[h].buffer == []
             && forall i :: 0 <= i < |s.conns[h].offers| ==> s.conns[h].offers[i].depth < 64
    ensures var c := Run(INITIAL, actions).conns[h];
            c.entered <= |Queued(INITIAL, actions)| && c.received == Queued(INITIAL, actions)[c.entered..]
  {
    var s := Run(INITIAL, actions);
    var c := s.conns[h];
    DeliveryRun(INITIAL, actions);
    DispatchedArePublished(actions);
    assert Delivers(s, h);
    AllAccepted(c.offers);
    assert c.received + c.buffer == c.received;
  }

  lemma {:induction false} AllAccepted(offers: seq<Offer>)
    requires forall i :: 0 <= i < |offers| ==> offers[i].depth < SEND_CAPACITY
    ensures Accepted(offers) == Events(offers)
  {
    if offers != [] {
      var k := |offers| - 1;
      AllAccepted(offers[..k]);
      assert Events(offers) == Events(offers[..k]) + [offers[k].event];
    }
  }
}
