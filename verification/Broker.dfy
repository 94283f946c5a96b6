/** The broker of internal/sse/broker.go as a protocol: Run's select loop on one side, any
    number of ServeHTTP handlers on the other, and the bounded channels between them. One
    action is one channel operation. A connection also keeps the history the properties
    speak of. */
module Broker {
  import opened EventStream

  const BROADCAST_CAPACITY := 256
  const REGISTER_CAPACITY := 16
  const UNREGISTER_CAPACITY := 16
  const SEND_CAPACITY := 64

  /** Where a handler is: about to enqueue its registration, in its receive loop, about to
      enqueue its unregistration, or returned. */
  datatype Phase = Connecting | Serving | Leaving | Gone

  /** One non-blocking send: the event, and how full the client's buffer was. */
  datatype Offer = Offer(event: Event, depth: nat)

  datatype Conn = Conn(
    id: string,
    phase: Phase,
    buffer: seq<Event>,       // the client's send channel
    closed: bool,             // whether that channel has been closed
    received: seq<Event>,     // what the handler has written to its client, in order
    offers: seq<Offer>,       // every send attempted on the channel
    registered: bool,         // whether Run has handled the registration ...
    unregistered: bool,       // ... and the unregistration
    overtaken: bool,          // the unregistration was handled first
    entered: nat,             // how many events had been dispatched at registration ...
    left: nat)                // ... and at removal

  /** What Run is doing. In the middle of a dispatch, `todo` are the clients still to visit. */
  datatype RunState = Selecting | Dispatching(event: Event, todo: set<string>) | Stopped

  datatype State = State(
    conns: seq<Conn>,
    clients: map<string, nat>,
    broadcast: seq<Event>,
    register: seq<nat>,
    unregister: seq<nat>,
    run: RunState,
    dispatched: seq<Event>,   // everything taken from the broadcast queue
    panicked: bool)           // a send on, or a second close of, a closed channel

  const INITIAL := State([], map[], [], [], [], Selecting, [], false)

  datatype Action =
    | Connect(id: string)
    | EnqueueRegister(h: nat)
    | HandleRegister
    | EnqueueUnregister(h: nat)
    | HandleUnregister
    | Publish(event: Event)
    | TakeBroadcast
    | SendTo(id: string)
    | EndDispatch
    | Heartbeat
    | Stop
    | Receive(h: nat)
    | ReceiveClosed(h: nat)
    | Cancel(h: nat)

  function NewConn(id: string): Conn {
    Conn(id, Connecting, [], false, [], [], false, false, false, 0, 0)
  }

  predicate Enabled(s: State, a: Action) {
    !s.panicked &&
    match a
    case Connect(_) => true
    case EnqueueRegister(h) => h < |s.conns| && s.conns[h].phase == Connecting && |s.register| < REGISTER_CAPACITY
    case HandleRegister => s.run == Selecting && s.register != [] && s.register[0] < |s.conns|
    case EnqueueUnregister(h) => h < |s.conns| && s.conns[h].phase == Leaving && |s.unregister| < UNREGISTER_CAPACITY
    case HandleUnregister => s.run == Selecting && s.unregister != [] && s.unregister[0] < |s.conns|
    case Publish(_) => true
    case TakeBroadcast => s.run == Selecting && s.broadcast != []
    case SendTo(id) => s.run.Dispatching? && id in s.run.todo && id in s.clients && s.clients[id] < |s.conns|
    case EndDispatch => s.run.Dispatching? && s.run.todo == {}
    case Heartbeat => s.run == Selecting
    case Stop => s.run == Selecting
    case Receive(h) => h < |s.conns| && s.conns[h].phase == Serving && s.conns[h].buffer != []
    case ReceiveClosed(h) => h < |s.conns| && s.conns[h].phase == Serving && s.conns[h].buffer == [] && s.conns[h].closed
    case Cancel(h) => h < |s.conns| && s.conns[h].phase == Serving
  }

  /** Broadcast never blocks: an event that finds the queue full is dropped. */
  function Enqueue(queue: seq<Event>, e: Event): seq<Event> {
    if |queue| < BROADCAST_CAPACITY then queue + [e] else queue
  }

  /** A non-blocking send on an open channel. */
  function Offered(c: Conn, e: Event): Conn {
    c.(buffer := if |c.buffer| < SEND_CAPACITY then c.buffer + [e] else c.buffer,
       offers := c.offers + [Offer(e, |c.buffer|)])
  }

  function Next(s: State, a: Action): State
    requires Enabled(s, a)
  {
    match a
    case Connect(id) =>
      s.(conns := s.conns + [NewConn(id)])
    case EnqueueRegister(h) =>
      s.(conns := s.conns[h := s.conns[h].(phase := Serving)], register := s.register + [h])
    case HandleRegister =>
      var h := s.register[0];
      s.(register := s.register[1..],
         clients := s.clients[s.conns[h].id := h],
         conns := s.conns[h := s.conns[h].(registered := true, entered := |s.dispatched|)])
    case EnqueueUnregister(h) =>
      s.(conns := s.conns[h := s.conns[h].(phase := Gone)], unregister := s.unregister + [h])
    case HandleUnregister =>
      var h := s.unregister[0];
      var c := s.conns[h].(unregistered := true, overtaken := s.conns[h].overtaken || !s.conns[h].registered);
      var s' := s.(unregister := s.unregister[1..]);
      if c.id in s.clients then
        s'.(clients := s.clients - {c.id},
            conns := s.conns[h := c.(closed := true, left := |s.dispatched|)],
            panicked := c.closed)
      else
        s'.(conns := s.conns[h := c])
    case Publish(e) =>
      s.(broadcast := Enqueue(s.broadcast, e))
    case TakeBroadcast =>
      s.(broadcast := s.broadcast[1..],
         dispatched := s.dispatched + [s.broadcast[0]],
         run := Dispatching(s.broadcast[0], s.clients.Keys))
    case SendTo(id) =>
      var h := s.clients[id];
      if s.conns[h].closed then s.(panicked := true)
      else s.(conns := s.conns[h := Offered(s.conns[h], s.run.event)],
              run := Dispatching(s.run.event, s.run.todo - {id}))
    case EndDispatch =>
      s.(run := Selecting)
    case Heartbeat =>
      s.(broadcast := Enqueue(s.broadcast, Event("heartbeat", "{}")))
    case Stop =>
      s.(run := Stopped)
    case Receive(h) =>
      var c := s.conns[h];
      s.(conns := s.conns[h := c.(buffer := c.buffer[1..], received := c.received + [c.buffer[0]])])
    case ReceiveClosed(h) =>
      s.(conns := s.conns[h := s.conns[h].(phase := Leaving)])
    case Cancel(h) =>
      s.(conns := s.conns[h := s.conns[h].(phase := Leaving)])
  }

  /** The clients ClientCount counts. */
  function ClientCount(s: State): nat {
    |s.clients|
  }

  /** Every step is enabled where it is taken. */
  predicate ValidRun(s: State, actions: seq<Action>)
    decreases |actions|
  {
    actions == [] || (Enabled(s, actions[0]) && ValidRun(Next(s, actions[0]), actions[1..]))
  }

  function Run(s: State, actions: seq<Action>): State
    requires ValidRun(s, actions)
    decreases |actions|
  {
    if actions == [] then s else Run(Next(s, actions[0]), actions[1..])
  }

  predicate FreshId(s: State, id: string) {
    forall h :: 0 <= h < |s.conns| ==> s.conns[h].id != id
  }

  /** Along the run, every new connection draws an id no earlier connection has. */
  predicate DistinctIds(s: State, actions: seq<Action>)
    requires ValidRun(s, actions)
    decreases |actions|
  {
    actions == [] ||
    ((actions[0].Connect? ==> FreshId(s, actions[0].id)) && DistinctIds(Next(s, actions[0]), actions[1..]))
  }
}
