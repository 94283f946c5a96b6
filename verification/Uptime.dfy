/** What the uptime of a check means: a percentage of the results in its window. */
module Uptime {
  import opened Database

  predicate InWindow(t: Tables, checkId: nat, since: int, r: nat) {
    r in t.urlResults.rows && t.urlResults.rows[r].checkId == checkId && t.urlResults.rows[r].checkedAt >= since
  }

  ghost function Window(t: Tables, checkId: nat, since: int): set<nat> {
    set r | r in t.urlResults.rows && InWindow(t, checkId, since, r)
  }

  ghost function Ups(t: Tables, checkId: nat, since: int): set<nat> {
    set r | r in t.urlResults.rows && InWindow(t, checkId, since, r) && t.urlResults.rows[r].up
  }

  ghost function Percentage(ups: nat, n: nat): real {
    if n == 0 then 0.0 else ups as real * 100.0 / n as real
  }

  lemma PercentageIs(ups: nat, n: nat)
    requires ups <= n && n > 0
    ensures 0.0 <= Percentage(ups, n) <= 100.0
    ensures Percentage(ups, n) == 100.0 <==> ups == n
    ensures Percentage(ups, n) == 0.0 <==> ups == 0
    ensures Percentage(ups, n) * n as real == ups as real * 100.0
  {
    var u := Percentage(ups, n);
    assert u * n as real == ups as real * 100.0;
    assert (100.0 - u) * n as real == 100.0 * (n - ups) as real;
  }

  lemma Subset(a: set<nat>, b: set<nat>)
    requires a <= b
    ensures |a| <= |b|
    ensures |a| == |b| ==> a == b
  {
    assert a + (b - a) == b;
    assert |b| == |a| + |b - a|;
    if |a| == |b| {
      assert b - a == {};
    }
  }

  lemma UpsAreInWindow(t: Tables, checkId: nat, since: int)
    ensures |Ups(t, checkId, since)| <= |Window(t, checkId, since)|
    ensures |Ups(t, checkId, since)| == |Window(t, checkId, since)| ==> Ups(t, checkId, since) == Window(t, checkId, since)
  {
    Subset(Ups(t, checkId, since), Window(t, checkId, since));
  }

  lemma UptimeOfWindow(t: Tables, checkId: nat, since: int)
    ensures URLUptime(t, checkId, since) == Percentage(|Ups(t, checkId, since)|, |Window(t, checkId, since)|)
  {
    var window := ResultsSince(t, checkId, since);
    assert window.Keys == Window(t, checkId, since);
    assert |window| == |window.Keys|;
    assert (set r | r in window && window[r].up) == Ups(t, checkId, since);
  }

  /** Over no results it is zero. Over some, it lies between 0 and 100, is 100 when and only when
      all of them are up, and 0 when and only when none is. */
  lemma UptimeIsAPercentage(t: Tables, checkId: nat, since: int)
    ensures 0.0 <= URLUptime(t, checkId, since) <= 100.0
    ensures (forall r :: !InWindow(t, checkId, since, r)) ==> URLUptime(t, checkId, since) == 0.0
    ensures (exists r :: InWindow(t, checkId, since, r)) ==>
              && (URLUptime(t, checkId, since) == 100.0
                  <==> forall r :: InWindow(t, checkId, since, r) ==> t.urlResults.rows[r].up)
              && (URLUptime(t, checkId, since) == 0.0
                  <==> forall r :: InWindow(t, checkId, since, r) ==> !t.urlResults.rows[r].up)
  {
    var w, ups := Window(t, checkId, since), Ups(t, checkId, since);
    UptimeOfWindow(t, checkId, since);
    UpsAreInWindow(t, checkId, since);
    if r :| InWindow(t, checkId, since, r) {
      assert r in w;
      PercentageIs(|ups|, |w|);
      AllUp(t, checkId, since);
      NoneUp(t, checkId, since);
    } else {
      assert w == {};
    }
  }

  lemma AllUp(t: Tables, checkId: nat, since: int)
    ensures |Ups(t, checkId, since)| == |Window(t, checkId, since)|
       <==> forall r :: InWindow(t, checkId, since, r) ==> t.urlResults.rows[r].up
  {
    var w, ups := Window(t, checkId, since), Ups(t, checkId, since);
    UpsAreInWindow(t, checkId, since);
    if forall r :: InWindow(t, checkId, since, r) ==> t.urlResults.rows[r].up {
      assert ups == w;
    } else {
      var r :| InWindow(t, checkId, since, r) && !t.urlResults.rows[r].up;
      assert r in w && r !in ups;
    }
  }

  lemma NoneUp(t: Tables, checkId: nat, since: int)
    ensures |Ups(t, checkId, since)| == 0
       <==> forall r :: InWindow(t, checkId, since, r) ==> !t.urlResults.rows[r].up
  {
    var ups := Ups(t, checkId, since);
    if r :| InWindow(t, checkId, since, r) && t.urlResults.rows[r].up {
      assert r in ups;
    } else {
      assert ups == {};
    }
  }

  /** The key of the row that an insertion makes. */
  function NewKey(t: Tables): nat {
    t.urlResults.lastId + 1
  }

  lemma WindowGrows(t: Tables, row: URLResult, since: int)
    requires t.urlResults.Valid() && row.checkId in t.urlChecks.rows && row.checkedAt >= since
    ensures NewKey(t) !in Window(t, row.checkId, since)
    ensures Window(InsertURLResult(t, row), row.checkId, since) == Window(t, row.checkId, since) + {NewKey(t)}
    ensures Ups(InsertURLResult(t, row), row.checkId, since)
         == Ups(t, row.checkId, since) + (if row.up then {NewKey(t)} else {})
  {
    var rows, rows' := t.urlResults.rows, InsertURLResult(t, row).urlResults.rows;
    assert NewKey(t) !in rows && rows' == rows[NewKey(t) := row];
  }

  lemma SizesGrow(t: Tables, row: URLResult, since: int)
    requires t.urlResults.Valid() && row.checkId in t.urlChecks.rows && row.checkedAt >= since
    ensures |Window(InsertURLResult(t, row), row.checkId, since)| == |Window(t, row.checkId, since)| + 1
    ensures |Ups(InsertURLResult(t, row), row.checkId, since)|
         == |Ups(t, row.checkId, since)| + (if row.up then 1 else 0)
  {
    WindowGrows(t, row, since);
    assert NewKey(t) !in Ups(t, row.checkId, since);
  }

  lemma NextPercentage(ups: nat, n: nat, up: bool)
    requires ups <= n
    ensures Percentage(ups + if up then 1 else 0, n + 1)
         == (n as real * Percentage(ups, n) + if up then 100.0 else 0.0) / (n + 1) as real
  {
    if n > 0 {
      PercentageIs(ups, n);
    }
  }

  /** One more result inside the window moves the uptime as it moves an average. */
  lemma UptimeAfterInsert(t: Tables, row: URLResult, since: int)
    requires t.urlResults.Valid() && row.checkId in t.urlChecks.rows && row.checkedAt >= since
    ensures var n, u := |Window(t, row.checkId, since)|, URLUptime(t, row.checkId, since);
            URLUptime(InsertURLResult(t, row), row.checkId, since)
            == (n as real * u + if row.up then 100.0 else 0.0) / (n + 1) as real
  {
    UptimeOfWindow(t, row.checkId, since);
    UptimeOfWindow(InsertURLResult(t, row), row.checkId, since);
    SizesGrow(t, row, since);
    UpsAreInWindow(t, row.checkId, since);
    NextPercentage(|Ups(t, row.checkId, since)|, |Window(t, row.checkId, since)|, row.up);
  }

  lemma WindowElsewhere(t: Tables, row: URLResult, checkId: nat, since: int)
    requires t.urlResults.Valid() && (row.checkId != checkId || row.checkedAt < since)
    ensures Window(InsertURLResult(t, row), checkId, since) == Window(t, checkId, since)
    ensures Ups(InsertURLResult(t, row), checkId, since) == Ups(t, checkId, since)
  {
    var rows, rows' := t.urlResults.rows, InsertURLResult(t, row).urlResults.rows;
    assert NewKey(t) !in rows && (rows' == rows || rows' == rows[NewKey(t) := row]);
  }

  /** A result outside the window, or of another check, does not move it. */
  lemma UptimeElsewhere(t: Tables, row: URLResult, checkId: nat, since: int)
    requires t.urlResults.Valid() && (row.checkId != checkId || row.checkedAt < since)
    ensures URLUptime(InsertURLResult(t, row), checkId, since) == URLUptime(t, checkId, since)
  {
    UptimeOfWindow(t, checkId, since);
    UptimeOfWindow(InsertURLResult(t, row), checkId, since);
    WindowElsewhere(t, row, checkId, since);
  }

  // ----- Failed logins ---------------------------------------------------------------------

  function Failures(t: Tables, since: int, ip: string): nat {
    |FailuresOf(FailedSince(t, since), ip)|
  }

  predicate Counts(e: SSHEvent, since: int, ip: string) {
    e.eventType == "failed" && e.occurredAt >= since && e.sourceIp == ip
  }

  ghost function FailureSet(t: Tables, since: int, ip: string): set<nat> {
    set e | e in t.sshEvents.rows && Counts(t.sshEvents.rows[e], since, ip)
  }

  lemma FailuresAre(t: Tables, since: int, ip: string)
    ensures Failures(t, since, ip) == |FailureSet(t, since, ip)|
  {
    assert FailuresOf(FailedSince(t, since), ip) == FailureSet(t, since, ip);
  }

  lemma FailuresGrow(t: Tables, e: SSHEvent, since: int, ip: string)
    requires t.sshEvents.Valid()
    ensures t.sshEvents.lastId + 1 !in FailureSet(t, since, ip)
    ensures FailureSet(InsertSSHEvent(t, e), since, ip)
         == FailureSet(t, since, ip) + (if Counts(e, since, ip) then {t.sshEvents.lastId + 1} else {})
  {
    var rows, rows' := t.sshEvents.rows, InsertSSHEvent(t, e).sshEvents.rows;
    assert t.sshEvents.lastId + 1 !in rows && rows' == rows[t.sshEvents.lastId + 1 := e];
  }

  /** Without events there are no failures, and an event counts once, for its own address, if
      and only if it is a failed login inside the window. */
  lemma FailuresCount(t: Tables, e: SSHEvent, since: int, ip: string)
    requires t.sshEvents.Valid()
    ensures t.sshEvents.rows == map[] ==> Failures(t, since, ip) == 0
    ensures Failures(InsertSSHEvent(t, e), since, ip)
         == Failures(t, since, ip) + if e.eventType == "failed" && e.occurredAt >= since && e.sourceIp == ip then 1 else 0
  {
    FailuresAre(t, since, ip);
    FailuresAre(InsertSSHEvent(t, e), since, ip);
    FailuresGrow(t, e, since, ip);
    assert t.sshEvents.rows == map[] ==> FailureSet(t, since, ip) == {};
  }
}
