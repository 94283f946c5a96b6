/** The fast tick of runCollector as the program has it: one pass of loops over the checker,
    the engine and the broker, when nothing interleaves. */
module CollectorObject {
  import opened Options
  import opened Alerts
  import opened AlertIndex
  import opened Database
  import opened EventStream
  import A = AlertReadings
  import AlertEngine
  import BrokerObject
  import CheckerObject
  import B = Broker
  import C = Checker
  import L = AlertLevels
  import R = AlertRuns
  import S = CheckerSafety
  import W = Collector

  ghost function PublishAll(s: B.State, events: seq<Event>): (r: B.State)
    requires !s.panicked
    ensures !r.panicked
  {
    if events == [] then s
    else B.Next(PublishAll(s, events[..|events| - 1]), B.Publish(events[|events| - 1]))
  }

  /** Publishing queues the events in order, and loses those for which there is no room. */
  lemma {:induction false} PublishedInOrder(s: B.State, events: seq<Event>)
    requires !s.panicked && |s.broadcast| <= B.BROADCAST_CAPACITY
    ensures var room := B.BROADCAST_CAPACITY - |s.broadcast|;
            PublishAll(s, events) == s.(broadcast := s.broadcast + if |events| <= room then events else events[..room])
  {
    var room := B.BROADCAST_CAPACITY - |s.broadcast|;
    if events == [] {
      assert s.broadcast + [] == s.broadcast;
    } else {
      var n := |events| - 1;
      PublishedInOrder(s, events[..n]);
      if n < room {
        assert s.broadcast + events[..n] + [events[n]] == s.broadcast + events;
      } else {
        assert events[..n][..room] == events[..room];
      }
    }
  }

  function AlertEvents(fired: seq<FiredAlert>, encode: FiredAlert -> string): seq<Event> {
    seq(|fired|, i requires 0 <= i < |fired| => Event("alert", encode(fired[i])))
  }

  function Optional(eventType: string, data: Option<string>): seq<Event> {
    if data.Some? then [Event(eventType, data.value)] else []
  }

  lemma PublishOne(s: B.State, events: seq<Event>, e: Event)
    requires !s.panicked
    ensures PublishAll(s, events + [e]) == B.Next(PublishAll(s, events), B.Publish(e))
  {
    assert (events + [e])[..|events|] == events;
  }

  /** The urls of an evaluation, from a snapshot. */
  method BuildUrls(summaries: seq<C.Summary>) returns (urls: seq<URLStat>)
    ensures urls == seq(|summaries|, i requires 0 <= i < |summaries| => W.StatOf(summaries[i]))
  {
    urls := [];
    for i := 0 to |summaries|
      invariant |urls| == i && forall k :: 0 <= k < i ==> urls[k] == W.StatOf(summaries[k])
    {
      var s := summaries[i];
      var up := s.last.None? || s.last.value.row.up;
      urls := urls + [URLStat(s.check.id, s.check.url, s.check.labelText, up)];
    }
  }

  method BroadcastFired(hub: BrokerObject.Hub, fired: seq<FiredAlert>, encode: FiredAlert -> string)
    modifies hub
    ensures hub.View() == PublishAll(old(hub.View()), AlertEvents(fired, encode))
  {
    ghost var start := hub.View();
    ghost var events := AlertEvents(fired, encode);
    for i := 0 to |fired|
      invariant hub.View() == PublishAll(start, events[..i])
    {
      PublishOne(start, events[..i], events[i]);
      assert events[..i] + [events[i]] == events[..i + 1];
      hub.Broadcast(Event("alert", encode(fired[i])));
    }
    assert events[..|fired|] == events;
  }

  /** What a tick announces: its alerts in the order in which they fired, then its other
      snapshots, as far as it has them. */
  ghost predicate Announces(events: seq<Event>, fired: seq<FiredAlert>, encode: FiredAlert -> string,
                            metrics: Option<string>, tunnel: Option<string>) {
    var n, k := |fired|, if metrics.Some? then 1 else 0;
    && |events| == n + k + (if tunnel.Some? then 1 else 0)
    && (forall i :: 0 <= i < n ==> events[i] == Event("alert", encode(fired[i])))
    && (metrics.Some? ==> events[n] == Event("metrics", metrics.value))
    && (tunnel.Some? ==> events[n + k] == Event("tunnel", tunnel.value))
  }

  /** The queue after the events, in order, as far as there is room for 256. */
  ghost predicate QueuedUp(before: seq<Event>, after: seq<Event>, events: seq<Event>) {
    |before| <= 256 ==>
      after == before + if |before| + |events| <= 256 then events else events[..256 - |before|]
  }

  /** An alert about a reading holds the threshold configured for it. */
  predicate AtThreshold(row: Alert, thresholds: map<string, real>) {
    && (row.message.Reading? ==> row.kind in thresholds && row.threshold == thresholds[row.kind])
    && (row.message.DiskReading? ==> "disk_pct" in thresholds && row.threshold == thresholds["disk_pct"])
  }

  /** One fired alert: it is about what the tick has read, at the thresholds the engine had; and
      unless its mountpoint is listed twice, it is an unresolved row and the active alert of its
      kind. */
  ghost predicate FiredInTick(sys: System, tick: W.Tick, thresholds: map<string, real>, f: FiredAlert) {
    && W.FromTick(tick, f.row) && AtThreshold(f.row, thresholds)
    && (W.SeenOnce(tick, f.row.kind) ==> W.Persisted(sys, f))
  }

  /** What a tick leaves: if no insertion has failed, what is active is what it has read. */
  ghost predicate TickDone(before: System, after: System, tick: W.Tick, fired: seq<FiredAlert>, ok: bool) {
    && WeakIndex(after) && after.engine.thresholds == before.engine.thresholds
    && (ok ==> W.ActiveMatches(after.engine.active, tick, before.engine.thresholds))
    && (forall j :: 0 <= j < |fired| ==> FiredInTick(after, tick, before.engine.thresholds, fired[j]))
  }

  /** `metrics` and `tunnel` are the other snapshots of the tick, encoded, when there are any.
      What is active afterwards is what the tick has read of the host, its disks and the
      summaries, and what is queued for the clients are the alerts that fired and the rest. */
  method FastTick(engine: AlertEngine.Engine, monitor: CheckerObject.Monitor, hub: BrokerObject.Hub,
                  host: Option<W.Host>, env: Env, encode: FiredAlert -> string,
                  metrics: Option<string>, tunnel: Option<string>)
    returns (fired: seq<FiredAlert>, ok: bool, ghost order: seq<nat>, ghost events: seq<Event>)
    requires engine.db == monitor.db
    requires WeakIndex(engine.View()) && S.SummariesOk(monitor.View())
    modifies engine, engine.db, hub
    ensures monitor.summaries == old(monitor.summaries)
    ensures Announces(events, fired, encode, metrics, tunnel)
    ensures hub.View() == PublishAll(old(hub.View()), events) && QueuedUp(old(hub.broadcast), hub.broadcast, events)
    ensures host.None? ==> engine.View() == old(engine.View()) && fired == []
    ensures host.Some? ==>
              && W.TickOk(W.Tick(host.value, monitor.summaries, order))
              && var p := Evaluate(old(engine.View()), W.MetricsOf(W.Tick(host.value, monitor.summaries, order)), env);
                 engine.View() == p.sys && fired == p.fired && ok == p.ok
    ensures host.Some? ==> TickDone(old(engine.View()), engine.View(), W.Tick(host.value, monitor.summaries, order), fired, ok)
    ensures WeakIndex(engine.View())
  {
    fired, ok, order := [], true, [];
    if host.Some? {
      fired, ok, order := EvaluateTick(engine, monitor, host.value, env);
    }
    events := PublishTick(hub, fired, encode, metrics, tunnel);
  }

  method PublishTick(hub: BrokerObject.Hub, fired: seq<FiredAlert>, encode: FiredAlert -> string,
                     metrics: Option<string>, tunnel: Option<string>)
    returns (ghost events: seq<Event>)
    modifies hub
    ensures Announces(events, fired, encode, metrics, tunnel)
    ensures hub.View() == PublishAll(old(hub.View()), events) && QueuedUp(old(hub.broadcast), hub.broadcast, events)
  {
    ghost var start := hub.View();
    BroadcastFired(hub, fired, encode);
    events := AlertEvents(fired, encode);
    BroadcastOptional(hub, "metrics", metrics, start, events);
    events := events + Optional("metrics", metrics);
    BroadcastOptional(hub, "tunnel", tunnel, start, events);
    events := events + Optional("tunnel", tunnel);
    QueuedInOrder(start, events);
  }

  lemma QueuedInOrder(s: B.State, events: seq<Event>)
    requires !s.panicked
    ensures QueuedUp(s.broadcast, PublishAll(s, events).broadcast, events)
  {
    if |s.broadcast| <= 256 {
      PublishedInOrder(s, events);
    }
  }

  method BroadcastOptional(hub: BrokerObject.Hub, eventType: string, data: Option<string>,
                           ghost start: B.State, ghost soFar: seq<Event>)
    requires !start.panicked && hub.View() == PublishAll(start, soFar)
    modifies hub
    ensures hub.View() == PublishAll(start, soFar + Optional(eventType, data))
  {
    if data.Some? {
      PublishOne(start, soFar, Event(eventType, data.value));
      hub.Broadcast(Event(eventType, data.value));
    } else {
      assert soFar + Optional(eventType, data) == soFar;
    }
  }

  method EvaluateTick(engine: AlertEngine.Engine, monitor: CheckerObject.Monitor, host: W.Host, env: Env)
    returns (fired: seq<FiredAlert>, ok: bool, ghost order: seq<nat>)
    requires engine.db == monitor.db
    requires WeakIndex(engine.View()) && S.SummariesOk(monitor.View())
    modifies engine, engine.db
    ensures monitor.summaries == old(monitor.summaries)
    ensures W.TickOk(W.Tick(host, monitor.summaries, order))
    ensures var p := Evaluate(old(engine.View()), W.MetricsOf(W.Tick(host, monitor.summaries, order)), env);
            engine.View() == p.sys && fired == p.fired && ok == p.ok
    ensures TickDone(old(engine.View()), engine.View(), W.Tick(host, monitor.summaries, order), fired, ok)
  {
    ghost var before := engine.View();
    var summaries, listed := monitor.Summaries();
    order := listed;
    ghost var tick := W.Tick(host, monitor.summaries, listed);
    assert W.TickOk(tick) by {
      assert forall id :: id in monitor.summaries ==> S.SummaryOk(id, monitor.summaries[id]);
    }
    var urls := BuildUrls(summaries);
    var m := Metrics(host.cpu, host.ram, host.swap, host.disks, urls);
    assert m.urls == W.MetricsOf(tick).urls;
    ghost var log;
    fired, ok, log := engine.Evaluate(m, env);
    TickFacts(before, tick, env);
  }

  /** What one evaluation of a tick leaves behind. */
  lemma TickFacts(sys: System, tick: W.Tick, env: Env)
    requires WeakIndex(sys) && W.TickOk(tick)
    ensures var p := Evaluate(sys, W.MetricsOf(tick), env);
            TickDone(sys, p.sys, tick, p.fired, p.ok)
  {
    var checks := W.TickChecks(tick, sys.engine.thresholds);
    var p := Evaluate(sys, W.MetricsOf(tick), env);
    EveryIterationWeak(sys, checks, |checks|, env);
    R.PrefixKeepsThresholds(sys, checks, |checks|, env);
    if p.ok {
      TickMatches(sys, tick, env);
    }
    forall j | 0 <= j < |p.fired|
      ensures FiredInTick(p.sys, tick, sys.engine.thresholds, p.fired[j])
    {
      FiredHolds(sys, tick, env, j);
    }
  }

  lemma TickMatches(sys: System, tick: W.Tick, env: Env)
    requires W.TickOk(tick) && Evaluate(sys, W.MetricsOf(tick), env).ok
    ensures W.ActiveMatches(Evaluate(sys, W.MetricsOf(tick), env).sys.engine.active, tick, sys.engine.thresholds)
  {
    var m, active := W.MetricsOf(tick), Evaluate(sys, W.MetricsOf(tick), env).sys.engine.active;
    A.HostFollows(sys, m, env);
    forall k | 0 <= k < |tick.host.disks| && W.ListedOnce(tick.host, k)
      ensures W.Matches(active, "disk_pct:" + tick.host.disks[k].mountpoint, "disk_pct",
                        tick.host.disks[k].percent, sys.engine.thresholds)
    {
      A.DiskFollows(sys, m, env, k);
    }
    forall id | id in tick.snapshot
      ensures W.UrlMatches(active, id, tick.snapshot[id])
    {
      UrlMatchesOne(sys, tick, env, id);
    }
  }

  lemma UrlMatchesOne(sys: System, tick: W.Tick, env: Env, id: nat)
    requires W.TickOk(tick) && Evaluate(sys, W.MetricsOf(tick), env).ok && id in tick.snapshot
    ensures W.UrlMatches(Evaluate(sys, W.MetricsOf(tick), env).sys.engine.active, id, tick.snapshot[id])
  {
    assert id in tick.order;
    var k :| 0 <= k < |tick.order| && tick.order[k] == id;
    A.UrlFollows(sys, W.MetricsOf(tick), env, k);
  }

  lemma FiredHolds(sys: System, tick: W.Tick, env: Env, j: nat)
    requires WeakIndex(sys) && W.TickOk(tick) && j < |Evaluate(sys, W.MetricsOf(tick), env).fired|
    ensures var p := Evaluate(sys, W.MetricsOf(tick), env);
            FiredInTick(p.sys, tick, sys.engine.thresholds, p.fired[j])
  {
    var checks := W.TickChecks(tick, sys.engine.thresholds);
    var p := Evaluate(sys, W.MetricsOf(tick), env);
    var i := A.FiredFrom(sys, checks, |checks|, env, j);
    W.RowFromTick(tick, sys.engine.thresholds, i, p.fired[j].row, env);
    A.RowFromMetrics(p.fired[j].row, W.MetricsOf(tick), sys.engine.thresholds, i, env);
    if W.SeenOnce(tick, p.fired[j].row.kind) {
      W.CheckedOnce(tick, sys.engine.thresholds, p.fired[j].row.kind);
      L.FiredArePersisted(sys, checks, |checks|, env, j);
      FiredUnacknowledged(sys, checks, |checks|, env, j);
    }
  }

  lemma {:induction false} FiredUnacknowledged(sys: System, checks: seq<Check>, n: nat, env: Env, j: nat)
    requires n <= |checks| && j < |EvalPrefix(sys, checks, n, env).fired|
    ensures !EvalPrefix(sys, checks, n, env).fired[j].row.acknowledged
  {
    if j < |EvalPrefix(sys, checks, n - 1, env).fired| {
      FiredUnacknowledged(sys, checks, n - 1, env, j);
    }
  }

  // ----- The tick as a run -----------------------------------------------------------------

  lemma {:induction false} OneMoreStep(w: W.World, actions: seq<W.Action>, a: W.Action)
    requires W.ValidRun(w, actions) && W.Enabled(W.Run(w, actions), a)
    ensures W.ValidRun(w, actions + [a]) && W.Run(w, actions + [a]) == W.Next(W.Run(w, actions), a)
    decreases |actions|
  {
    if actions == [] {
      assert [a][1..] == [];
      assert actions + [a] == [a];
    } else {
      assert (actions + [a])[1..] == actions[1..] + [a];
      OneMoreStep(W.Next(w, actions[0]), actions[1..], a);
    }
  }

  lemma LogAside(p: Progress, c: Check, i: nat, env: Env)
    requires p.ok
    ensures var q, r := EvalStep(p, c, i, env), EvalStep(p.(log := []), c, i, env);
            r.sys == q.sys && r.fired == q.fired && r.ok == q.ok
  {
  }

  /** Where the evaluation stands after n iterations, or where a failed insertion ended it. */
  ghost function After(w: W.World, tick: W.Tick, p: Progress, n: nat): W.World {
    W.WithSys(w, p.sys).(phase := if p.ok then W.Evaluating(tick, n, p.fired) else W.Broadcasting(tick, p.fired, 0))
  }

  lemma OneIteration(w: W.World, tick: W.Tick, n: nat, env: Env)
    requires W.Within(tick) && n < |W.TickChecks(tick, w.engine.thresholds)|
    requires EvalPrefix(W.Sys(w), W.TickChecks(tick, w.engine.thresholds), n, env).ok
    ensures var checks := W.TickChecks(tick, w.engine.thresholds);
            var before := After(w, tick, EvalPrefix(W.Sys(w), checks, n, env), n);
            && W.Enabled(before, W.Iterate(env))
            && W.Next(before, W.Iterate(env)) == After(w, tick, EvalPrefix(W.Sys(w), checks, n + 1, env), n + 1)
  {
    var checks := W.TickChecks(tick, w.engine.thresholds);
    R.PrefixKeepsThresholds(W.Sys(w), checks, n, env);
    LogAside(EvalPrefix(W.Sys(w), checks, n, env), checks[n], n, env);
  }

  lemma {:induction false} IterationsAreARun(w: W.World, tick: W.Tick, n: nat, env: Env) returns (actions: seq<W.Action>)
    requires W.Within(tick) && w.phase == W.Evaluating(tick, 0, [])
    requires n <= |W.TickChecks(tick, w.engine.thresholds)|
    ensures W.ValidRun(w, actions)
    ensures W.Run(w, actions) == After(w, tick, EvalPrefix(W.Sys(w), W.TickChecks(tick, w.engine.thresholds), n, env), n)
  {
    var checks := W.TickChecks(tick, w.engine.thresholds);
    if n == 0 {
      actions := [];
    } else {
      actions := IterationsAreARun(w, tick, n - 1, env);
      if EvalPrefix(W.Sys(w), checks, n - 1, env).ok {
        OneIteration(w, tick, n - 1, env);
        OneMoreStep(w, actions, W.Iterate(env));
        actions := actions + [W.Iterate(env)];
      }
    }
  }

  /** A tick that nothing interrupts, up to its broadcasts, is a run of the program: what its
      iterations leave is what one evaluation of what it has read leaves. */
  lemma TickIsARun(w: W.World, host: W.Host, order: seq<nat>, env: Env) returns (actions: seq<W.Action>)
    requires w.phase.Idle? && W.Lists(order, w.checker.core.summaries.Keys)
    requires W.Within(W.Tick(host, w.checker.core.summaries, order))
    ensures W.ValidRun(w, actions)
    ensures var tick := W.Tick(host, w.checker.core.summaries, order);
            var p := Evaluate(W.Sys(w), W.MetricsOf(tick), env);
            W.Run(w, actions) == W.WithSys(w, p.sys).(
              phase := W.Broadcasting(tick, p.fired, 0),
              settled := if p.ok then Some(W.Evaluated(tick, w.engine.thresholds)) else None)
  {
    var tick := W.Tick(host, w.checker.core.summaries, order);
    var checks := W.TickChecks(tick, w.engine.thresholds);
    var begun := w.(phase := W.Evaluating(tick, 0, []), settled := None);
    var rest := IterationsAreARun(begun, tick, |checks|, env);
    if EvalPrefix(W.Sys(w), checks, |checks|, env).ok {
      R.PrefixKeepsThresholds(W.Sys(w), checks, |checks|, env);
      OneMoreStep(begun, rest, W.EndEvaluate);
      rest := rest + [W.EndEvaluate];
    }
    actions := [W.Snapshot(host, order), W.BeginEvaluate] + rest;
    assert actions[1..] == [W.BeginEvaluate] + rest;
    assert actions[1..][1..] == rest;
    assert W.Next(W.Next(w, W.Snapshot(host, order)), W.BeginEvaluate) == begun;
  }
}
