/** The tables of internal/storage and what each statement does to them. A row's key is the
    value of its AUTOINCREMENT column, whose counter never goes back. */
module Database {
  import opened Options

  /** The parts of an alert's message that its format string is filled with. */
  datatype Message =
    | Reading(name: string, value: real, threshold: real)
    | DiskReading(mountpoint: string, value: real, threshold: real)
    | UrlDown(labelText: string)

  datatype Alert = Alert(
    kind: string, message: Message, value: real, threshold: real,
    firedAt: int, resolvedAt: Option<int>, acknowledged: bool)

  datatype URLCheck = URLCheck(
    id: nat, url: string, labelText: string, intervalSeconds: int, timeoutSeconds: int, enabled: bool)

  datatype URLResult = URLResult(
    checkId: nat, checkedAt: int, up: bool, statusCode: Option<int>, latencyMs: Option<int>, error: Option<string>)

  datatype SSHEvent = SSHEvent(
    occurredAt: int, eventType: string, username: Option<string>, sourceIp: string, port: Option<string>)

  datatype TunnelEvent = TunnelEvent(occurredAt: int, eventType: string, detail: Option<string>)

  datatype Table<T> = Table(rows: map<nat, T>, lastId: nat) {
    /** Every key was once handed out by the counter. */
    ghost predicate Valid() {
      forall id :: id in rows ==> 1 <= id <= lastId
    }

    function Insert(row: T): Table<T> {
      Table(rows[lastId + 1 := row], lastId + 1)
    }

    function Delete(id: nat): Table<T> {
      Table(rows - {id}, lastId)
    }

    function Update(id: nat, row: T): Table<T>
      requires id in rows
    {
      Table(rows[id := row], lastId)
    }
  }

  datatype Tables = Tables(
    alerts: Table<Alert>,
    thresholds: map<string, real>,
    urlChecks: Table<URLCheck>,
    urlResults: Table<URLResult>,
    sshEvents: Table<SSHEvent>,
    tunnelEvents: Table<TunnelEvent>)

  predicate Open(a: Alert) {
    a.resolvedAt.None?
  }

  // ----- Alerts ----------------------------------------------------------------------------

  function InsertAlert(t: Tables, a: Alert): Tables {
    t.(alerts := t.alerts.Insert(a))
  }

  function ResolveAlert(t: Tables, id: nat, now: int): Tables {
    if id in t.alerts.rows
    then t.(alerts := t.alerts.Update(id, t.alerts.rows[id].(resolvedAt := Some(now))))
    else t
  }

  function AcknowledgeAlert(t: Tables, id: nat): Tables {
    if id in t.alerts.rows
    then t.(alerts := t.alerts.Update(id, t.alerts.rows[id].(acknowledged := true)))
    else t
  }

  /** `ids` is an answer to ActiveAlerts: the unresolved rows, each once, latest first. The
      order of rows fired in the same second is the engine's choice. */
  ghost predicate IsActiveListing(alerts: map<nat, Alert>, ids: seq<nat>) {
    && (forall id :: id in ids <==> id in alerts && Open(alerts[id]))
    && (forall i, j :: 0 <= i < j < |ids| ==> ids[i] != ids[j])
    && (forall i, j :: 0 <= i < j < |ids| ==> ids[i] in alerts && ids[j] in alerts && alerts[ids[i]].firedAt >= alerts[ids[j]].firedAt)
  }

  function SetThreshold(t: Tables, key: string, value: real): Tables {
    t.(thresholds := t.thresholds[key := value])
  }

  // ----- URL checks and results ------------------------------------------------------------

  /** The url column is UNIQUE. */
  predicate UrlTaken(t: Tables, url: string, except: nat) {
    exists id :: id in t.urlChecks.rows && id != except && t.urlChecks.rows[id].url == url
  }

  function InsertURLCheck(t: Tables, u: URLCheck): Tables {
    t.(urlChecks := t.urlChecks.Insert(u.(id := t.urlChecks.lastId + 1)))
  }

  /** An update of an existing row to a url that another row has. */
  predicate UpdateClashes(t: Tables, u: URLCheck) {
    u.id in t.urlChecks.rows && UrlTaken(t, u.url, u.id)
  }

  /** An update of a row that does not exist succeeds and changes nothing. */
  function UpdateURLCheck(t: Tables, u: URLCheck): Tables {
    if u.id in t.urlChecks.rows then t.(urlChecks := t.urlChecks.Update(u.id, u)) else t
  }

  /** Results are deleted with their check (ON DELETE CASCADE). */
  function DeleteURLCheck(t: Tables, id: nat): Tables {
    var keep := map r | r in t.urlResults.rows && t.urlResults.rows[r].checkId != id :: t.urlResults.rows[r];
    t.(urlChecks := t.urlChecks.Delete(id), urlResults := Table(keep, t.urlResults.lastId))
  }

  /** A result must refer to an existing check (the foreign key is enforced). */
  function InsertURLResult(t: Tables, r: URLResult): Tables {
    if r.checkId in t.urlChecks.rows then t.(urlResults := t.urlResults.Insert(r)) else t
  }

  function ResultsSince(t: Tables, checkId: nat, since: int): map<nat, URLResult> {
    map r | r in t.urlResults.rows && t.urlResults.rows[r].checkId == checkId && t.urlResults.rows[r].checkedAt >= since
      :: t.urlResults.rows[r]
  }

  /** SUM(up) * 100.0 / COUNT(*) over the window; NULL (read as 0) over no rows. */
  function URLUptime(t: Tables, checkId: nat, since: int): real {
    var window := ResultsSince(t, checkId, since);
    var ups := set r | r in window && window[r].up;
    if |window| == 0 then 0.0 else |ups| as real * 100.0 / |window| as real
  }

  /** `ids` is an answer to URLResultHistory: rows of the check, latest first, at most `limit`,
      and no omitted row is later than a listed one. */
  ghost predicate IsHistory(t: Tables, checkId: nat, limit: nat, ids: seq<nat>) {
    var rows := t.urlResults.rows;
    && (forall i :: 0 <= i < |ids| ==> ids[i] in rows && rows[ids[i]].checkId == checkId)
    && (forall i, j :: 0 <= i < j < |ids| ==> ids[i] != ids[j])
    && (forall i, j :: 0 <= i < j < |ids| ==> rows[ids[i]].checkedAt >= rows[ids[j]].checkedAt)
    && |ids| <= limit
    && (forall r :: r in rows && rows[r].checkId == checkId && r !in ids ==>
          |ids| == limit && (forall i :: 0 <= i < |ids| ==> rows[ids[i]].checkedAt >= rows[r].checkedAt))
  }

  // ----- SSH and tunnel events -------------------------------------------------------------

  function InsertSSHEvent(t: Tables, e: SSHEvent): Tables {
    t.(sshEvents := t.sshEvents.Insert(e))
  }

  function InsertTunnelEvent(t: Tables, e: TunnelEvent): Tables {
    t.(tunnelEvents := t.tunnelEvents.Insert(e))
  }

  function FailedSince(t: Tables, since: int): map<nat, SSHEvent> {
    map e | e in t.sshEvents.rows && t.sshEvents.rows[e].eventType == "failed" && t.sshEvents.rows[e].occurredAt >= since
      :: t.sshEvents.rows[e]
  }

  function FailuresOf(window: map<nat, SSHEvent>, ip: string): set<nat> {
    set e | e in window && window[e].sourceIp == ip
  }

  /** `answer` is an answer to FailedSSHByIP: the twenty addresses with the most failures in
      the window, with their counts, highest first. */
  ghost predicate IsFailedByIP(t: Tables, since: int, answer: seq<(string, nat)>) {
    IsTopTwenty(FailedSince(t, since), answer)
  }

  ghost predicate IsTopTwenty(window: map<nat, SSHEvent>, answer: seq<(string, nat)>) {
    && |answer| <= 20
    && (forall i, j :: 0 <= i < j < |answer| ==> answer[i].0 != answer[j].0 && answer[i].1 >= answer[j].1)
    && (forall i :: 0 <= i < |answer| ==> answer[i].1 > 0 && answer[i].1 == |FailuresOf(window, answer[i].0)|)
    && (forall e :: e in window && (forall i :: 0 <= i < |answer| ==> answer[i].0 != window[e].sourceIp) ==>
          |answer| == 20 && |FailuresOf(window, window[e].sourceIp)| <= answer[19].1)
  }

  // ----- Purge -----------------------------------------------------------------------------

  const DAY := 86400

  function KeepResults(rows: map<nat, URLResult>, cutoff: int): map<nat, URLResult> {
    map r | r in rows && !(rows[r].checkedAt < cutoff) :: rows[r]
  }

  function KeepSSH(rows: map<nat, SSHEvent>, cutoff: int): map<nat, SSHEvent> {
    map r | r in rows && !(rows[r].occurredAt < cutoff) :: rows[r]
  }

  function KeepTunnel(rows: map<nat, TunnelEvent>, cutoff: int): map<nat, TunnelEvent> {
    map r | r in rows && !(rows[r].occurredAt < cutoff) :: rows[r]
  }

  function KeepAlerts(rows: map<nat, Alert>, cutoff: int): map<nat, Alert> {
    map r | r in rows && !(rows[r].resolvedAt.Some? && rows[r].resolvedAt.value < cutoff) :: rows[r]
  }

  /** The first `done` of the four DELETE statements: a failing statement ends the purge. */
  function Purge(t: Tables, now: int, done: nat): Tables {
    Tables(
      if done > 3 then Table(KeepAlerts(t.alerts.rows, now - 14 * DAY), t.alerts.lastId) else t.alerts,
      t.thresholds,
      t.urlChecks,
      if done > 0 then Table(KeepResults(t.urlResults.rows, now - 7 * DAY), t.urlResults.lastId) else t.urlResults,
      if done > 1 then Table(KeepSSH(t.sshEvents.rows, now - 30 * DAY), t.sshEvents.lastId) else t.sshEvents,
      if done > 2 then Table(KeepTunnel(t.tunnelEvents.rows, now - 30 * DAY), t.tunnelEvents.lastId) else t.tunnelEvents)
  }

  /** After the first `done` statements: a result is gone if it is older than seven days, a login
      or tunnel event if it is older than thirty, an alert if it was resolved more than fourteen
      days ago; everything else is there, and as it was. */
  ghost predicate PurgeEffect(t: Tables, t': Tables, now: int, done: nat) {
    && PurgedOf(t.urlResults, t'.urlResults, (r: URLResult) => done >= 1 && r.checkedAt < now - 7 * 86400)
    && PurgedOf(t.sshEvents, t'.sshEvents, (e: SSHEvent) => done >= 2 && e.occurredAt < now - 30 * 86400)
    && PurgedOf(t.tunnelEvents, t'.tunnelEvents, (e: TunnelEvent) => done >= 3 && e.occurredAt < now - 30 * 86400)
    && PurgedOf(t.alerts, t'.alerts, (a: Alert) =>
         done >= 4 && match a.resolvedAt case None => false case Some(at) => at < now - 14 * 86400)
    && t'.urlChecks == t.urlChecks && t'.thresholds == t.thresholds
  }

  ghost predicate PurgedOf<T>(table: Table<T>, table': Table<T>, tooOld: T -> bool) {
    && table'.lastId == table.lastId
    && (forall id :: id in table'.rows <==> id in table.rows && !tooOld(table.rows[id]))
    && (forall id :: id in table'.rows ==> table'.rows[id] == table.rows[id])
  }

  lemma PurgeDeletesExactly(t: Tables, now: int, done: nat)
    ensures PurgeEffect(t, Purge(t, now, done), now, done)
  {
  }

  // ----- The schema ------------------------------------------------------------------------

  /** The thresholds a new database is given. */
  const SEEDED: map<string, real> :=
    map["cpu_pct" := 90.0, "ram_pct" := 85.0, "disk_pct" := 90.0, "swap_pct" := 80.0, "url_latency_ms" := 5000.0]

  const EMPTY := Tables(Table(map[], 0), SEEDED, Table(map[], 0), Table(map[], 0), Table(map[], 0), Table(map[], 0))
}
