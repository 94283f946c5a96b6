/** Purging is invisible to the queries the program shows: the same history of writes, with
    purges at arbitrary moments and without any, gives the same answers. */
module PurgeWindows {
  import opened Options
  import opened Database

  datatype Write =
    | AddAlert(alert: Alert)
    | Resolve(id: nat, now: int)
    | Acknowledge(id: nat)
    | PutThreshold(key: string, value: real)
    | AddCheck(check: URLCheck)
    | EditCheck(check: URLCheck)
    | DropCheck(id: nat)
    | AddResult(result: URLResult)
    | AddSSH(event: SSHEvent)
    | AddTunnel(tunnel: TunnelEvent)

  /** A write, or the first `done` statements of a purge. */
  datatype Op = Do(write: Write) | PurgeAt(now: int, done: nat)

  function Apply(t: Tables, w: Write): Tables {
    match w
    case AddAlert(a) => InsertAlert(t, a)
    case Resolve(id, now) => ResolveAlert(t, id, now)
    case Acknowledge(id) => AcknowledgeAlert(t, id)
    case PutThreshold(key, value) => SetThreshold(t, key, value)
    case AddCheck(u) => InsertURLCheck(t, u)
    case EditCheck(u) => UpdateURLCheck(t, u)
    case DropCheck(id) => DeleteURLCheck(t, id)
    case AddResult(r) => InsertURLResult(t, r)
    case AddSSH(e) => InsertSSHEvent(t, e)
    case AddTunnel(e) => InsertTunnelEvent(t, e)
  }

  function WithPurges(t: Tables, ops: seq<Op>): Tables
    decreases |ops|
  {
    if ops == [] then t
    else WithPurges(match ops[0] case Do(w) => Apply(t, w) case PurgeAt(now, done) => Purge(t, now, done), ops[1..])
  }

  function WithoutPurges(t: Tables, ops: seq<Op>): Tables
    decreases |ops|
  {
    if ops == [] then t
    else WithoutPurges(match ops[0] case Do(w) => Apply(t, w) case PurgeAt(_, _) => t, ops[1..])
  }

  /** `lean` is `full` without some rows, all of which were already too old at time `clock`
      (or, for alerts, resolved). */
  ghost predicate Thinned(full: Tables, lean: Tables, clock: int) {
    && full.thresholds == lean.thresholds && full.urlChecks == lean.urlChecks
    && ThinnedResults(full.urlResults, lean.urlResults, clock - 7 * DAY)
    && ThinnedSSH(full.sshEvents, lean.sshEvents, clock - 30 * DAY)
    && ThinnedTunnel(full.tunnelEvents, lean.tunnelEvents, clock - 30 * DAY)
    && ThinnedAlerts(full.alerts, lean.alerts)
  }

  ghost predicate ThinnedResults(full: Table<URLResult>, lean: Table<URLResult>, cutoff: int) {
    && full.lastId == lean.lastId
    && (forall r :: r in lean.rows ==> r in full.rows && full.rows[r] == lean.rows[r])
    && (forall r :: r in full.rows && r !in lean.rows ==> full.rows[r].checkedAt < cutoff)
  }

  ghost predicate ThinnedSSH(full: Table<SSHEvent>, lean: Table<SSHEvent>, cutoff: int) {
    && full.lastId == lean.lastId
    && (forall r :: r in lean.rows ==> r in full.rows && full.rows[r] == lean.rows[r])
    && (forall r :: r in full.rows && r !in lean.rows ==> full.rows[r].occurredAt < cutoff)
  }

  ghost predicate ThinnedTunnel(full: Table<TunnelEvent>, lean: Table<TunnelEvent>, cutoff: int) {
    && full.lastId == lean.lastId
    && (forall r :: r in lean.rows ==> r in full.rows && full.rows[r] == lean.rows[r])
    && (forall r :: r in full.rows && r !in lean.rows ==> full.rows[r].occurredAt < cutoff)
  }

  ghost predicate ThinnedAlerts(full: Table<Alert>, lean: Table<Alert>) {
    && full.lastId == lean.lastId
    && (forall r :: r in lean.rows ==> r in full.rows && full.rows[r] == lean.rows[r])
    && (forall r :: r in full.rows && r !in lean.rows ==> !Open(full.rows[r]))
  }

  lemma DropKeepsThinned(full: Tables, lean: Tables, clock: int, id: nat)
    requires Thinned(full, lean, clock)
    ensures Thinned(DeleteURLCheck(full, id), DeleteURLCheck(lean, id), clock)
  {
  }

  lemma InsertsKeepThinned(full: Table<Alert>, lean: Table<Alert>, a: Alert)
    requires ThinnedAlerts(full, lean)
    ensures ThinnedAlerts(full.Insert(a), lean.Insert(a))
  {
  }

  lemma ResolveKeepsThinned(full: Tables, lean: Tables, id: nat, now: int)
    requires ThinnedAlerts(full.alerts, lean.alerts)
    ensures ThinnedAlerts(ResolveAlert(full, id, now).alerts, ResolveAlert(lean, id, now).alerts)
  {
  }

  lemma AcknowledgeKeepsThinned(full: Tables, lean: Tables, id: nat)
    requires ThinnedAlerts(full.alerts, lean.alerts)
    ensures ThinnedAlerts(AcknowledgeAlert(full, id).alerts, AcknowledgeAlert(lean, id).alerts)
  {
  }

  lemma EventsKeepThinned(full: Tables, lean: Tables, clock: int, w: Write)
    requires Thinned(full, lean, clock) && (w.AddResult? || w.AddSSH? || w.AddTunnel?)
    ensures Thinned(Apply(full, w), Apply(lean, w), clock)
  {
  }

  lemma WriteKeepsThinned(full: Tables, lean: Tables, clock: int, w: Write)
    requires Thinned(full, lean, clock)
    ensures Thinned(Apply(full, w), Apply(lean, w), clock)
  {
    match w
    case AddAlert(a) => InsertsKeepThinned(full.alerts, lean.alerts, a);
    case Resolve(id, now) => ResolveKeepsThinned(full, lean, id, now);
    case Acknowledge(id) => AcknowledgeKeepsThinned(full, lean, id);
    case DropCheck(id) => DropKeepsThinned(full, lean, clock, id);
    case AddResult(_) => EventsKeepThinned(full, lean, clock, w);
    case AddSSH(_) => EventsKeepThinned(full, lean, clock, w);
    case AddTunnel(_) => EventsKeepThinned(full, lean, clock, w);
    case _ =>
  }

  lemma PurgeKeepsThinned(full: Tables, lean: Tables, clock: int, now: int, done: nat)
    requires Thinned(full, lean, clock) && now <= clock
    ensures Thinned(full, Purge(lean, now, done), clock)
  {
  }

  lemma {:induction false} RunsStayThinned(full: Tables, lean: Tables, ops: seq<Op>, clock: int)
    requires Thinned(full, lean, clock)
    requires forall i :: 0 <= i < |ops| && ops[i].PurgeAt? ==> ops[i].now <= clock
    ensures Thinned(WithoutPurges(full, ops), WithPurges(lean, ops), clock)
    decreases |ops|
  {
    if ops != [] {
      match ops[0] {
        case Do(w) =>
          WriteKeepsThinned(full, lean, clock, w);
          RunsStayThinned(Apply(full, w), Apply(lean, w), ops[1..], clock);
        case PurgeAt(now, done) =>
          PurgeKeepsThinned(full, lean, clock, now, done);
          RunsStayThinned(full, Purge(lean, now, done), ops[1..], clock);
      }
    }
  }

  lemma SameActiveListings(full: Tables, lean: Tables, clock: int, listing: seq<nat>)
    requires Thinned(full, lean, clock)
    ensures IsActiveListing(full.alerts.rows, listing) <==> IsActiveListing(lean.alerts.rows, listing)
  {
    forall id
      ensures id in full.alerts.rows && Open(full.alerts.rows[id]) <==> id in lean.alerts.rows && Open(lean.alerts.rows[id])
    {
    }
    if IsActiveListing(full.alerts.rows, listing) {
      forall i | 0 <= i < |listing|
        ensures listing[i] in lean.alerts.rows && lean.alerts.rows[listing[i]] == full.alerts.rows[listing[i]]
      {
        assert listing[i] in listing;
      }
    }
  }

  lemma SameUptime(full: Tables, lean: Tables, clock: int, checkId: nat, since: int)
    requires Thinned(full, lean, clock) && since >= clock - 7 * DAY
    ensures URLUptime(full, checkId, since) == URLUptime(lean, checkId, since)
  {
    assert ResultsSince(full, checkId, since) == ResultsSince(lean, checkId, since);
  }

  lemma SameFailures(full: Tables, lean: Tables, clock: int, since: int, answer: seq<(string, nat)>)
    requires Thinned(full, lean, clock) && since >= clock - 30 * DAY
    ensures IsFailedByIP(full, since, answer) <==> IsFailedByIP(lean, since, answer)
  {
    assert FailedSince(full, since) == FailedSince(lean, since);
  }

  /** The three queries cannot tell two databases apart: the active alerts in their possible
      orders, and over a window the uptimes and the possible tables of failed logins. */
  ghost predicate SameAnswers(full: Tables, lean: Tables, since: int) {
    && (forall listing :: IsActiveListing(full.alerts.rows, listing) <==> IsActiveListing(lean.alerts.rows, listing))
    && (forall id :: URLUptime(full, id, since) == URLUptime(lean, id, since))
    && (forall answer :: IsFailedByIP(full, since, answer) <==> IsFailedByIP(lean, since, answer))
  }

  lemma ThinnedSameAnswers(full: Tables, lean: Tables, clock: int, since: int)
    requires Thinned(full, lean, clock) && since >= clock - 7 * DAY
    ensures SameAnswers(full, lean, since)
  {
    forall listing
      ensures IsActiveListing(full.alerts.rows, listing) <==> IsActiveListing(lean.alerts.rows, listing)
    {
      SameActiveListings(full, lean, clock, listing);
    }
    forall id
      ensures URLUptime(full, id, since) == URLUptime(lean, id, since)
    {
      SameUptime(full, lean, clock, id, since);
    }
    forall answer
      ensures IsFailedByIP(full, since, answer) <==> IsFailedByIP(lean, since, answer)
    {
      SameFailures(full, lean, clock, since, answer);
    }
  }

  /** A query over the last day, asked at `clock` no earlier than any purge, cannot tell
      whether the purges ever happened. */
  lemma PurgeIsInvisible(t: Tables, ops: seq<Op>, clock: int)
    requires forall i :: 0 <= i < |ops| && ops[i].PurgeAt? ==> ops[i].now <= clock
    ensures SameAnswers(WithoutPurges(t, ops), WithPurges(t, ops), clock - DAY)
  {
    RunsStayThinned(t, t, ops, clock);
    ThinnedSameAnswers(WithoutPurges(t, ops), WithPurges(t, ops), clock, clock - DAY);
  }

  /** How far back an uptime window may reach: a purge leaves it alone in every database
      exactly when the window starts within the seven days that are kept. */
  lemma UptimeWindowIff(now: int, since: int, checkId: nat)
    ensures (forall t: Tables :: URLUptime(Purge(t, now, 4), checkId, since) == URLUptime(t, checkId, since))
       <==> since >= now - 7 * DAY
  {
    if since >= now - 7 * DAY {
      forall t: Tables
        ensures URLUptime(Purge(t, now, 4), checkId, since) == URLUptime(t, checkId, since)
      {
        PurgeKeepsThinned(t, t, now, now, 4);
        SameUptime(t, Purge(t, now, 4), now, checkId, since);
      }
    } else {
      var r := URLResult(checkId, since, true, None, None, None);
      var t := Tables(Table(map[], 0), map[], Table(map[], 0), Table(map[1 := r], 1), Table(map[], 0), Table(map[], 0));
      var window := ResultsSince(t, checkId, since);
      assert window == map[1 := r];
      assert (set k | k in window && window[k].up) == {1};
      assert |window| == 1 && |{1}| == 1;
      assert URLUptime(t, checkId, since) != 0.0;
      var purged := Purge(t, now, 4);
      assert purged.urlResults.rows == map[];
      assert ResultsSince(purged, checkId, since) == map[];
    }
  }
}
