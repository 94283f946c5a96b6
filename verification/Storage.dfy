/** The DB handle of internal/storage/sqlite.go. A statement that can fail takes the outcome
    as a parameter; a failed statement changes nothing. */
module Storage {
  import opened Options
  import D = Database

  class DB {
    var tables: D.Tables

    /** An empty database after the schema has been applied. */
    constructor ()
      ensures tables == D.EMPTY
    {
      tables := D.EMPTY;
    }

    method InsertAlert(a: D.Alert, ok: bool) returns (id: Option<nat>)
      modifies this
      ensures tables == if ok then D.InsertAlert(old(tables), a) else old(tables)
      ensures id == if ok then Some(old(tables).alerts.lastId + 1) else None
      ensures ok ==> tables == old(tables).(alerts := D.Table(old(tables).alerts.rows[id.value := a], id.value))
    {
      if !ok {
        return None;
      }
      tables := D.InsertAlert(tables, a);
      return Some(tables.alerts.lastId);
    }

    method ResolveAlert(id: nat, now: int, ok: bool)
      modifies this
      ensures tables == if ok then D.ResolveAlert(old(tables), id, now) else old(tables)
      ensures var rows := old(tables).alerts.rows;
              tables.alerts.rows == if ok && id in rows then rows[id := rows[id].(resolvedAt := Some(now))] else rows
    {
      if ok {
        tables := D.ResolveAlert(tables, id, now);
      }
    }

    method AcknowledgeAlert(id: nat, ok: bool)
      modifies this
      ensures tables == if ok then D.AcknowledgeAlert(old(tables), id) else old(tables)
      ensures var rows := old(tables).alerts.rows;
              tables.alerts.rows == if ok && id in rows then rows[id := rows[id].(acknowledged := true)] else rows
    {
      if ok {
        tables := D.AcknowledgeAlert(tables, id);
      }
    }

    method SetThreshold(key: string, value: real, ok: bool)
      modifies this
      ensures tables == if ok then D.SetThreshold(old(tables), key, value) else old(tables)
      ensures tables == old(tables).(thresholds := if ok then old(tables).thresholds[key := value] else old(tables).thresholds)
    {
      if ok {
        tables := D.SetThreshold(tables, key, value);
      }
    }

    method GetThresholds() returns (out: map<string, real>)
      ensures out == tables.thresholds
    {
      out := map[];
      var todo := tables.thresholds.Keys;
      while todo != {}
        invariant todo <= tables.thresholds.Keys
        invariant out.Keys == tables.thresholds.Keys - todo
        invariant forall k :: k in out ==> out[k] == tables.thresholds[k]
        decreases |todo|
      {
        var k :| k in todo;
        out := out[k := tables.thresholds[k]];
        todo := todo - {k};
      }
    }

    /** Rows come latest first; which of two rows of the same second comes first is left open. */
    method ActiveAlerts() returns (ids: seq<nat>)
      ensures D.IsActiveListing(tables.alerts.rows, ids)
    {
      var rows := tables.alerts.rows;
      var todo := set id | id in rows && D.Open(rows[id]);
      ids := [];
      while todo != {}
        invariant Listed(rows, ids, todo)
        decreases |todo|
      {
        var id := Latest(rows, todo);
        ListNext(rows, ids, todo, id);
        ids := ids + [id];
        todo := todo - {id};
      }
    }

    /** None when the statement fails, as it must when the url is taken. */
    method InsertURLCheck(u: D.URLCheck, ok: bool) returns (id: Option<nat>)
      modifies this
      ensures tables == if id.Some? then D.InsertURLCheck(old(tables), u) else old(tables)
      ensures id.Some? <==> ok && forall other :: other in old(tables).urlChecks.rows && other != 0 ==> old(tables).urlChecks.rows[other].url != u.url
      ensures id.Some? ==>
                && id.value == old(tables).urlChecks.lastId + 1
                && tables == old(tables).(urlChecks := D.Table(old(tables).urlChecks.rows[id.value := u.(id := id.value)], id.value))
    {
      if !ok || D.UrlTaken(tables, u.url, 0) {
        return None;
      }
      tables := D.InsertURLCheck(tables, u);
      return Some(tables.urlChecks.lastId);
    }

    method UpdateURLCheck(u: D.URLCheck, ok: bool) returns (done: bool)
      modifies this
      ensures done == (ok && !D.UpdateClashes(old(tables), u))
      ensures tables == if done then D.UpdateURLCheck(old(tables), u) else old(tables)
      ensures var rows := old(tables).urlChecks.rows;
              && tables.urlChecks.rows == (if done && u.id in rows then rows[u.id := u] else rows)
              && (done <==> ok && (u.id in rows ==> forall other :: other in rows && other != u.id ==> rows[other].url != u.url))
    {
      done := ok && !D.UpdateClashes(tables, u);
      if done {
        tables := D.UpdateURLCheck(tables, u);
      }
    }

    method DeleteURLCheck(id: nat, ok: bool)
      modifies this
      ensures tables == if ok then D.DeleteURLCheck(old(tables), id) else old(tables)
        // Its results go with it.
      ensures ok ==>
                && tables.urlChecks.rows == old(tables).urlChecks.rows - {id}
                && forall r :: r in tables.urlResults.rows <==> r in old(tables).urlResults.rows && old(tables).urlResults.rows[r].checkId != id
    {
      if ok {
        tables := D.DeleteURLCheck(tables, id);
      }
    }

    /** The key of the new row; None when the statement fails or the check is gone. */
    method InsertURLResult(r: D.URLResult, ok: bool) returns (id: Option<nat>)
      modifies this
      ensures tables == if ok then D.InsertURLResult(old(tables), r) else old(tables)
      ensures id == if ok && r.checkId in old(tables).urlChecks.rows then Some(old(tables).urlResults.lastId + 1) else None
      ensures id.Some? ==> tables == old(tables).(urlResults := D.Table(old(tables).urlResults.rows[id.value := r], id.value))
    {
      if !ok || r.checkId !in tables.urlChecks.rows {
        return None;
      }
      tables := D.InsertURLResult(tables, r);
      return Some(tables.urlResults.lastId);
    }

    /** The DELETE statements run in turn; the first failure ends the purge. */
    method Purge(now: int, done: nat) returns (ok: bool)
      modifies this
      ensures tables == D.Purge(old(tables), now, done)
      ensures D.PurgeEffect(old(tables), tables, now, done)
      ensures ok == (done >= 4)
    {
      D.PurgeDeletesExactly(tables, now, done);
      var t := tables;
      for k := 0 to 4
        invariant k <= done && tables == D.Purge(t, now, k)
      {
        if k == done {
          assert k < 4;
          return false;
        }
        match k {
          case 0 => tables := tables.(urlResults := D.Table(D.KeepResults(tables.urlResults.rows, now - 7 * D.DAY), tables.urlResults.lastId));
          case 1 => tables := tables.(sshEvents := D.Table(D.KeepSSH(tables.sshEvents.rows, now - 30 * D.DAY), tables.sshEvents.lastId));
          case 2 => tables := tables.(tunnelEvents := D.Table(D.KeepTunnel(tables.tunnelEvents.rows, now - 30 * D.DAY), tables.tunnelEvents.lastId));
          case _ => tables := tables.(alerts := D.Table(D.KeepAlerts(tables.alerts.rows, now - 14 * D.DAY), tables.alerts.lastId));
        }
      }
      return true;
    }
  }

  /** Any one of the rows with the latest firing time. */
  method Latest(rows: map<nat, D.Alert>, ids: set<nat>) returns (id: nat)
    requires ids != {} && ids <= rows.Keys
    ensures id in ids && forall other :: other in ids ==> rows[id].firedAt >= rows[other].firedAt
  {
    LatestExists(rows, ids);
    id :| id in ids && forall other :: other in ids ==> rows[id].firedAt >= rows[other].firedAt;
  }

  /** `ids` has been listed so far and `todo` is what is left of the unresolved rows. */
  ghost predicate Listed(rows: map<nat, D.Alert>, ids: seq<nat>, todo: set<nat>) {
    && (forall id :: id in rows && D.Open(rows[id]) <==> id in todo || id in ids)
    && (forall id :: id in ids ==> id !in todo)
    && (forall i, j :: 0 <= i < j < |ids| ==> ids[i] != ids[j])
    && (forall i, j :: 0 <= i < j < |ids| ==> ids[i] in rows && ids[j] in rows && rows[ids[i]].firedAt >= rows[ids[j]].firedAt)
    && (forall i, id :: 0 <= i < |ids| && id in todo ==> rows[ids[i]].firedAt >= rows[id].firedAt)
  }

  lemma ListNext(rows: map<nat, D.Alert>, ids: seq<nat>, todo: set<nat>, id: nat)
    requires Listed(rows, ids, todo) && id in todo
    requires forall other :: other in todo ==> rows[id].firedAt >= rows[other].firedAt
    ensures Listed(rows, ids + [id], todo - {id})
  {
    var ids' := ids + [id];
    assert forall x :: x in ids' <==> x in ids || x == id;
    forall i, j | 0 <= i < j < |ids'|
      ensures ids'[i] != ids'[j] && rows[ids'[i]].firedAt >= rows[ids'[j]].firedAt
    {
      assert ids'[i] == ids[i] && ids[i] in ids;
    }
  }

  lemma LatestExists(rows: map<nat, D.Alert>, ids: set<nat>)
    requires ids != {} && ids <= rows.Keys
    ensures exists id :: id in ids && forall other :: other in ids ==> rows[id].firedAt >= rows[other].firedAt
  {
    var x :| x in ids;
    if ids != {x} {
      var rest := ids - {x};
      LatestExists(rows, rest);
      var y :| y in rest && forall other :: other in rest ==> rows[y].firedAt >= rows[other].firedAt;
      var best := if rows[x].firedAt >= rows[y].firedAt then x else y;
      forall other | other in ids
        ensures rows[best].firedAt >= rows[other].firedAt
      {
        assert other == x || other in rest;
      }
    }
  }
}
