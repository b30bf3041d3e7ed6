/**
 * The hosted database as the sync engine sees it: five tables of remote rows keyed by
 * `id`, a delete by id, a batch upsert on the `id` conflict key, and the pull query
 * "rows with `updated_at` after the cursor, ascending by `updated_at`". Requests go
 * over the network; whether one fails is an input.
 */
module Remote {
  import opened Base
  import opened Records
  import opened RemoteMapping

  type RemoteTables = map<SyncTable, map<string, RemoteRow>>

  /** The rows of one remote table (an absent table has none). */
  function RowsOf(r: RemoteTables, t: SyncTable): map<string, RemoteRow> {
    if t in r then r[t] else map[]
  }

  /** The ids of a batch of rows. */
  function Ids(payload: seq<RemoteRow>): set<string>
    requires forall i :: 0 <= i < |payload| ==> payload[i].id.Some?
  {
    set i | 0 <= i < |payload| :: payload[i].id.value
  }

  /** A table after `upsert(payload, { onConflict: 'id' })`: each row stored under its id. */
  function UpsertAll(m: map<string, RemoteRow>, payload: seq<RemoteRow>): (r: map<string, RemoteRow>)
    requires forall i :: 0 <= i < |payload| ==> payload[i].id.Some?
    ensures r.Keys == m.Keys + Ids(payload)
  {
    if payload == [] then m
    else
      var last := payload[|payload| - 1];
      var front := payload[..|payload| - 1];
      assert Ids(payload) == Ids(front) + {last.id.value} by {
        forall k | k in Ids(payload) ensures k in Ids(front) + {last.id.value} {
          var i :| 0 <= i < |payload| && payload[i].id.value == k;
          if i < |payload| - 1 {
            assert front[i] == payload[i];
          }
        }
        forall k | k in Ids(front) ensures k in Ids(payload) {
          var i :| 0 <= i < |front| && front[i].id.value == k;
          assert payload[i] == front[i];
        }
      }
      UpsertAll(m, front)[last.id.value := last]
  }

  /**
   * A batch whose every row is the entry `rows` holds under its id, and which names
   * every id of `rows`, leaves the table as `m` overridden by `rows`, whatever its order.
   */
  lemma {:induction false} UpsertAllIsOverride(m: map<string, RemoteRow>, payload: seq<RemoteRow>,
                                              rows: map<string, RemoteRow>)
    requires forall i :: 0 <= i < |payload| ==>
      payload[i].id.Some? && payload[i].id.value in rows && rows[payload[i].id.value] == payload[i]
    requires forall k :: k in rows ==> k in Ids(payload)
    ensures UpsertAll(m, payload) == m + rows
  {
    UpsertAllIsPartialOverride(m, payload, rows);
    assert Ids(payload) == rows.Keys;
    assert Named(rows, payload) == rows;
  }

  /** The part of `rows` a batch names. */
  function Named(rows: map<string, RemoteRow>, payload: seq<RemoteRow>): map<string, RemoteRow>
    requires forall i :: 0 <= i < |payload| ==> payload[i].id.Some?
  {
    map k | k in Ids(payload) && k in rows :: rows[k]
  }

  lemma IdsSnoc(payload: seq<RemoteRow>)
    requires 0 < |payload|
    requires forall i :: 0 <= i < |payload| ==> payload[i].id.Some?
    ensures Ids(payload) == Ids(payload[..|payload| - 1]) + {payload[|payload| - 1].id.value}
  {
    var front := payload[..|payload| - 1];
    forall k | k in Ids(payload) ensures k in Ids(front) + {payload[|payload| - 1].id.value} {
      var i :| 0 <= i < |payload| && payload[i].id.value == k;
      if i < |payload| - 1 {
        assert front[i] == payload[i];
      }
    }
  }

  lemma NamedSnoc(rows: map<string, RemoteRow>, payload: seq<RemoteRow>)
    requires 0 < |payload|
    requires forall i :: 0 <= i < |payload| ==>
      payload[i].id.Some? && payload[i].id.value in rows && rows[payload[i].id.value] == payload[i]
    ensures Named(rows, payload) ==
      Named(rows, payload[..|payload| - 1])[payload[|payload| - 1].id.value := payload[|payload| - 1]]
  {
    IdsSnoc(payload);
  }

  lemma OverrideThenUpdate<K, V>(m: map<K, V>, b: map<K, V>, k: K, v: V)
    ensures (m + b)[k := v] == m + b[k := v]
  {
  }

  lemma {:induction false} UpsertAllIsPartialOverride(m: map<string, RemoteRow>, payload: seq<RemoteRow>,
                                                     rows: map<string, RemoteRow>)
    requires forall i :: 0 <= i < |payload| ==>
      payload[i].id.Some? && payload[i].id.value in rows && rows[payload[i].id.value] == payload[i]
    ensures UpsertAll(m, payload) == m + Named(rows, payload)
  {
    if payload != [] {
      var front := payload[..|payload| - 1];
      var last := payload[|payload| - 1];
      assert forall i :: 0 <= i < |front| ==> front[i] == payload[i];
      UpsertAllIsPartialOverride(m, front, rows);
      NamedSnoc(rows, payload);
      assert UpsertAll(m, payload) == UpsertAll(m, front)[last.id.value := last];
      OverrideThenUpdate(m, Named(rows, front), last.id.value, last);
    }
  }

  /** The hosted database. */
  class RemoteStore {
    var rows: RemoteTables

    constructor (initial: RemoteTables)
      ensures rows == initial
    {
      rows := initial;
    }

    /** `from(t).delete().eq('id', id)`; a request that fails changes nothing. */
    method Delete(t: SyncTable, id: string, fails: bool)
      modifies this
      ensures rows == if fails then old(rows) else old(rows)[t := RowsOf(old(rows), t) - {id}]
    {
      if !fails {
        rows := rows[t := RowsOf(rows, t) - {id}];
      }
    }

    /** `from(t).upsert(payload, { onConflict: 'id' })`, answering whether it failed. */
    method Upsert(t: SyncTable, payload: seq<RemoteRow>, fails: bool) returns (error: bool)
      requires forall i :: 0 <= i < |payload| ==> payload[i].id.Some?
      modifies this
      ensures error == fails
      ensures rows == if fails then old(rows) else old(rows)[t := UpsertAll(RowsOf(old(rows), t), payload)]
    {
      error := fails;
      if !fails {
        rows := rows[t := UpsertAll(RowsOf(rows, t), payload)];
      }
    }
  }

  /** `.gt('updated_at', cursor)` when there is a cursor; every row otherwise. */
  predicate Qualifies(r: RemoteRow, cursor: Option<string>) {
    Truthy(cursor) ==> r.updated_at.Some? && Less(cursor.value, r.updated_at.value)
  }

  /** Ascending `updated_at` order, `null` last. */
  predicate StampLe(a: Option<string>, b: Option<string>) {
    b.None? || (a.Some? && !Less(b.value, a.value))
  }

  /**
   * `data` is an answer the pull query may give on table `m`: rows of `m`, each after the
   * cursor, every such row once, in ascending `updated_at` order.
   */
  predicate ValidPull(m: map<string, RemoteRow>, cursor: Option<string>, data: seq<RemoteRow>) {
    && (forall i :: 0 <= i < |data| ==>
          data[i].id.Some? && data[i].id.value in m && m[data[i].id.value] == data[i])
    && (forall i :: 0 <= i < |data| ==> Qualifies(data[i], cursor))
    && (forall k :: k in m && Qualifies(m[k], cursor) ==> m[k] in data)
    && (forall i, j :: 0 <= i < j < |data| ==> data[i].id != data[j].id)
    && (forall i, j :: 0 <= i < j < |data| ==> StampLe(data[i].updated_at, data[j].updated_at))
  }

  /** `data[data.length - 1]`, when there is one. */
  function LastOf(data: seq<RemoteRow>): Option<RemoteRow> {
    if data == [] then None else Some(data[|data| - 1])
  }

  /** Every remote row carries a non-empty `updated_at`. */
  predicate AllStamped(m: map<string, RemoteRow>) {
    forall k :: k in m ==> Truthy(m[k].updated_at)
  }

  /** With a cursor, the last row of a non-empty pull is strictly after it. */
  lemma PullPassesCursor(m: map<string, RemoteRow>, cursor: Option<string>, data: seq<RemoteRow>)
    requires ValidPull(m, cursor, data) && 0 < |data| && Truthy(cursor)
    ensures data[|data| - 1].updated_at.Some?
    ensures Less(cursor.value, data[|data| - 1].updated_at.value)
  {
    assert Qualifies(data[|data| - 1], cursor);
  }

  /**
   * The rows of a pull all carry a stamp, and the last is the latest, when the table is
   * stamped or there is a cursor (a row with a `null` stamp is never after a cursor).
   */
  lemma PullLastIsLatest(m: map<string, RemoteRow>, cursor: Option<string>, data: seq<RemoteRow>)
    requires ValidPull(m, cursor, data) && (AllStamped(m) || Truthy(cursor)) && 0 < |data|
    ensures forall i :: 0 <= i < |data| ==> data[i].updated_at.Some?
    ensures forall i :: 0 <= i < |data| ==> !Less(data[|data| - 1].updated_at.value, data[i].updated_at.value)
  {
    var n := |data| - 1;
    forall i | 0 <= i < |data|
      ensures data[i].updated_at.Some?
    {
      assert Qualifies(data[i], cursor);
      assert data[i].id.value in m;
    }
    forall i | 0 <= i < |data|
      ensures !Less(data[n].updated_at.value, data[i].updated_at.value)
    {
      if i < n {
        assert StampLe(data[i].updated_at, data[n].updated_at);
      } else {
        LessIrreflexive(data[i].updated_at.value);
      }
    }
  }

  /**
   * After a non-empty pull of a table that is stamped or read after a cursor, the new
   * cursor is non-empty and no row of the table is after it: repeating the pull at once
   * returns nothing.
   */
  lemma PullCatchesUp(m: map<string, RemoteRow>, cursor: Option<string>, data: seq<RemoteRow>)
    requires ValidPull(m, cursor, data) && (AllStamped(m) || Truthy(cursor)) && 0 < |data|
    ensures Truthy(data[|data| - 1].updated_at)
    ensures forall k :: k in m ==> !Qualifies(m[k], data[|data| - 1].updated_at)
  {
    var n := |data| - 1;
    PullLastIsLatest(m, cursor, data);
    var next := data[n].updated_at.value;
    if Truthy(cursor) {
      PullPassesCursor(m, cursor, data);
    } else {
      assert data[n].id.value in m;
    }
    forall k | k in m && m[k].updated_at.Some?
      ensures !Qualifies(m[k], Some(next))
    {
      var s := m[k].updated_at.value;
      if Qualifies(m[k], cursor) {
        var i :| 0 <= i < |data| && data[i] == m[k];
        assert !Less(next, s);
      } else {
        // s is not after the old cursor, and the new cursor is
        var c := cursor.value;
        assert Less(c, next) by { PullPassesCursor(m, cursor, data); }
        assert !Less(c, s);
        LessTotal(c, s);
        if Less(next, s) {
          if s == c {
            LessAsymmetric(c, next);
          } else {
            LessTransitive(s, c, next);
            LessAsymmetric(next, s);
          }
        }
      }
    }
  }

  /**
   * Repeating a non-empty pull straight away returns nothing, when the table is stamped
   * or the first pull had a cursor.
   */
  lemma RepeatPullIsEmpty(m: map<string, RemoteRow>, cursor: Option<string>, data: seq<RemoteRow>,
                          again: seq<RemoteRow>)
    requires ValidPull(m, cursor, data) && (AllStamped(m) || Truthy(cursor)) && 0 < |data|
    requires ValidPull(m, data[|data| - 1].updated_at, again)
    ensures again == []
  {
    PullCatchesUp(m, cursor, data);
    assert LastOf(again).None?;
  }
}
