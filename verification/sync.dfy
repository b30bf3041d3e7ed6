/**
 * `syncNow(userId)` (`src/lib/sync.ts`): one pass of the local-first sync engine over
 * the local store, the hosted database and the per-table pull cursors. Phase one sends
 * the deletes recorded in the tombstone log and clears those tombstones; phase two
 * pushes, table by table, the local rows changed since the table's cursor; phase three
 * pulls, table by table, the remote rows changed since the cursor, writes them locally
 * and moves the cursor.
 *
 * Every remote request is an input: `deleteFails` holds the positions of the delete
 * requests that fail, `pushFails` the tables whose upsert fails, and `replies` what
 * each table's pull query answers.
 */
module Sync {
  import opened Base
  import opened Records
  import opened Store
  import opened RemoteMapping
  import opened Remote
  import opened SyncStorage

  // ---------------------------------------------------------------- phase 1

  /** `deletes.filter(d => TABLES.includes(d.table))`, in log order. */
  function DeleteTargets(log: seq<Tombstone>): (r: seq<Tombstone>)
    ensures forall d :: d in r <==> d in log && ParseSyncTable(d.table).Some?
    ensures forall i :: 0 <= i < |r| ==> ParseSyncTable(r[i].table).Some?
  {
    if log == [] then []
    else
      var rest := DeleteTargets(log[..|log| - 1]);
      var d := log[|log| - 1];
      assert log == log[..|log| - 1] + [d];
      if ParseSyncTable(d.table).Some? then rest + [d] else rest
  }

  /** `toDelete.map(d => d.key)` */
  function KeysOf(ds: seq<Tombstone>): seq<string> {
    seq(|ds|, i requires 0 <= i < |ds| => ds[i].key)
  }

  /** The remote after the delete requests for `ds`, the `i`-th failing when `i` is in `fails`. */
  function DeletedRemote(r: RemoteTables, ds: seq<Tombstone>, fails: set<nat>): RemoteTables
    requires forall i :: 0 <= i < |ds| ==> ParseSyncTable(ds[i].table).Some?
  {
    if ds == [] then r
    else
      var prev := DeletedRemote(r, ds[..|ds| - 1], fails);
      var d := ds[|ds| - 1];
      var t := ParseSyncTable(d.table).value;
      if |ds| - 1 in fails then prev else prev[t := RowsOf(prev, t) - {d.id}]
  }

  /** Some delete request for record `k` of table `t` went through. */
  predicate DeletedBy(ds: seq<Tombstone>, fails: set<nat>, t: SyncTable, k: string) {
    exists i :: 0 <= i < |ds| && i !in fails && ParseSyncTable(ds[i].table) == Some(t) && ds[i].id == k
  }

  /**
   * After the delete phase a remote row is gone exactly when a request to delete it went
   * through; every other row is as it was.
   */
  lemma {:induction false} DeletedRemoteRows(r: RemoteTables, ds: seq<Tombstone>, fails: set<nat>,
                                             t: SyncTable, k: string)
    requires forall i :: 0 <= i < |ds| ==> ParseSyncTable(ds[i].table).Some?
    ensures k in RowsOf(DeletedRemote(r, ds, fails), t) <==> k in RowsOf(r, t) && !DeletedBy(ds, fails, t, k)
    ensures k in RowsOf(DeletedRemote(r, ds, fails), t) ==>
      RowsOf(DeletedRemote(r, ds, fails), t)[k] == RowsOf(r, t)[k]
  {
    if ds != [] {
      var n := |ds| - 1;
      var front := ds[..n];
      assert forall i :: 0 <= i < |front| ==> front[i] == ds[i];
      DeletedRemoteRows(r, front, fails, t, k);
      DeletedBySnoc(ds, fails, t, k);
      DeletedRemoteStep(r, ds, fails, t);
    }
  }

  /** One delete request changes at most the rows of its own table, by its own id. */
  lemma DeletedRemoteStep(r: RemoteTables, ds: seq<Tombstone>, fails: set<nat>, t: SyncTable)
    requires ds != []
    requires forall i :: 0 <= i < |ds| ==> ParseSyncTable(ds[i].table).Some?
    ensures var n := |ds| - 1;
      var prev := RowsOf(DeletedRemote(r, ds[..n], fails), t);
      RowsOf(DeletedRemote(r, ds, fails), t) ==
        if n !in fails && ParseSyncTable(ds[n].table) == Some(t) then prev - {ds[n].id} else prev
  {
  }

  lemma DeletedBySnoc(ds: seq<Tombstone>, fails: set<nat>, t: SyncTable, k: string)
    requires ds != []
    ensures var n := |ds| - 1;
      DeletedBy(ds, fails, t, k) <==>
        DeletedBy(ds[..n], fails, t, k) || (n !in fails && ParseSyncTable(ds[n].table) == Some(t) && ds[n].id == k)
  {
    var n := |ds| - 1;
    var front := ds[..n];
    if DeletedBy(ds, fails, t, k) {
      var i :| 0 <= i < |ds| && i !in fails && ParseSyncTable(ds[i].table) == Some(t) && ds[i].id == k;
      if i < n {
        assert front[i] == ds[i];
      }
    }
    if DeletedBy(front, fails, t, k) {
      var i :| 0 <= i < |front| && i !in fails && ParseSyncTable(front[i].table) == Some(t) && front[i].id == k;
      assert front[i] == ds[i];
    }
  }

  /** The delete phase (lines 160-166). */
  method PushDeletes(db: LocalStore, remote: RemoteStore, deleteFails: set<nat>)
    returns (targets: seq<Tombstone>)
    requires db.Valid()
    modifies db, remote
    ensures db.Valid() && db.isOpen && db.tables == old(db.AfterOpen())
    ensures targets == DeleteTargets(old(db.tombstones))
    ensures db.tombstones == Without(old(db.tombstones), KeysOf(targets))
    ensures remote.rows == DeletedRemote(old(remote.rows), targets, deleteFails)
  {
    var deletes := db.ListDeletes();
    targets := DeleteTargets(deletes);
    var i := 0;
    while i < |targets|
      invariant 0 <= i <= |targets|
      invariant db.Valid() && db.isOpen && db.tables == old(db.AfterOpen()) && db.tombstones == deletes
      invariant remote.rows == DeletedRemote(old(remote.rows), targets[..i], deleteFails)
    {
      var d := targets[i];
      assert targets[..i + 1][..i] == targets[..i];
      remote.Delete(ParseSyncTable(d.table).value, d.id, i in deleteFails);
      i := i + 1;
    }
    assert targets[..i] == targets;
    if |targets| > 0 {
      db.ClearDeletes(KeysOf(targets));
    } else {
      assert Without(deletes, KeysOf(targets)) == deletes by {
        WithoutNothing(deletes);
      }
    }
  }

  lemma {:induction false} WithoutNothing(log: seq<Tombstone>)
    ensures Without(log, []) == log
  {
    if log != [] {
      WithoutNothing(log[..|log| - 1]);
      assert log == log[..|log| - 1] + [log[|log| - 1]];
    }
  }

  /** A tombstone's key names its table: two tombstones with one key are for one table. */
  predicate KeysNameTables(log: seq<Tombstone>) {
    forall i, j :: 0 <= i < |log| && 0 <= j < |log| && log[i].key == log[j].key ==> log[i].table == log[j].table
  }

  /**
   * The delete phase clears exactly the tombstones of the five synced tables, whether or
   * not their delete requests went through; tombstones of other tables remain.
   */
  lemma ClearedTombstones(log: seq<Tombstone>)
    requires KeysNameTables(log)
    ensures forall d :: d in Without(log, KeysOf(DeleteTargets(log))) <==>
      d in log && ParseSyncTable(d.table).None?
  {
    var targets := DeleteTargets(log);
    var keys := KeysOf(targets);
    forall d | d in log && ParseSyncTable(d.table).None?
      ensures d.key !in keys
    {
      forall i | 0 <= i < |keys|
        ensures keys[i] != d.key
      {
        assert targets[i] in log;
        var a :| 0 <= a < |log| && log[a] == d;
        var b :| 0 <= b < |log| && log[b] == targets[i];
        assert log[a].table != log[b].table;
      }
    }
    forall d | d in log && ParseSyncTable(d.table).Some?
      ensures d.key in keys
    {
      var i :| 0 <= i < |targets| && targets[i] == d;
      assert keys[i] == d.key;
    }
  }

  // ---------------------------------------------------------------- phase 2

  /** `r.updatedAt || r.createdAt || ''` */
  function ChangeStamp(row: Row): string {
    if Truthy(row.updatedAt) then row.updatedAt.value
    else if Truthy(row.createdAt) then row.createdAt.value
    else ""
  }

  /** Whether a row is pushed under the table's cursor `last`. */
  predicate Selected(row: Row, last: Option<string>) {
    Truthy(last) ==> Less(last.value, ChangeStamp(row))
  }

  function FilterSelected(rows: seq<Row>, last: Option<string>): (r: seq<Row>)
    ensures forall x :: x in r <==> x in rows && Selected(x, last)
  {
    if rows == [] then []
    else
      var rest := FilterSelected(rows[..|rows| - 1], last);
      var x := rows[|rows| - 1];
      assert rows == rows[..|rows| - 1] + [x];
      if Selected(x, last) then rest + [x] else rest
  }

  /** `last ? rows.filter(r => (r.updatedAt || r.createdAt || '') > last) : rows` */
  function SelectChanged(rows: seq<Row>, last: Option<string>): (r: seq<Row>)
    ensures forall x :: x in r <==> x in rows && Selected(x, last)
  {
    if Truthy(last) then FilterSelected(rows, last) else rows
  }

  /** `changed.map(r => toRemote(table, r, userId))` */
  function Payload(t: SyncTable, rows: seq<Row>, userId: string): seq<RemoteRow> {
    seq(|rows|, i requires 0 <= i < |rows| => ToRemote(t, rows[i], userId))
  }

  /** The rows of a local table. */
  function RowsIn(local: Tables, tb: Table): map<string, Row> {
    if tb in local then local[tb] else map[]
  }

  /** What table `t` pushes, by id: its rows selected under the cursor, in remote form. */
  function PushSet(t: SyncTable, local: Tables, items: map<string, string>, userId: string)
    : map<string, RemoteRow>
  {
    Pushing(t, RowsIn(local, Synced(t)), GetLast(items, userId, t), userId)
  }

  /** The rows of `table` selected under the cursor `last`, in remote form, by id. */
  function Pushing(t: SyncTable, table: map<string, Row>, last: Option<string>, userId: string)
    : map<string, RemoteRow>
  {
    map k | k in table && Selected(table[k], last) :: ToRemote(t, table[k], userId)
  }

  /** Whether table `t` sends an upsert that goes through. */
  predicate PushLands(t: SyncTable, local: Tables, items: map<string, string>, userId: string,
                      fails: set<SyncTable>) {
    t !in fails && PushSet(t, local, items, userId) != map[]
  }

  /** The remote after pushing the tables of `ts` in turn. */
  function PushedRemote(r: RemoteTables, local: Tables, items: map<string, string>, userId: string,
                        fails: set<SyncTable>, ts: seq<SyncTable>): RemoteTables
  {
    if ts == [] then r
    else
      var prev := PushedRemote(r, local, items, userId, fails, ts[..|ts| - 1]);
      var t := ts[|ts| - 1];
      if PushLands(t, local, items, userId, fails)
      then prev[t := RowsOf(prev, t) + PushSet(t, local, items, userId)]
      else prev
  }

  /**
   * After the push phase each remote table holds its rows overridden by the local rows
   * it pushed, when its upsert was sent and went through, and is unchanged otherwise.
   */
  lemma {:induction false} PushedRemoteRows(r: RemoteTables, local: Tables, items: map<string, string>,
                                            userId: string, fails: set<SyncTable>, ts: seq<SyncTable>,
                                            t: SyncTable)
    requires Distinct(ts)
    ensures RowsOf(PushedRemote(r, local, items, userId, fails, ts), t) ==
      if t in ts && PushLands(t, local, items, userId, fails)
      then RowsOf(r, t) + PushSet(t, local, items, userId)
      else RowsOf(r, t)
  {
    if ts != [] {
      var front := ts[..|ts| - 1];
      assert Distinct(front);
      var u := ts[|ts| - 1];
      PushedRemoteRows(r, local, items, userId, fails, front, t);
      PushedRemoteStep(r, local, items, userId, fails, ts, t);
      assert ts == front + [u];
      if u == t {
        assert t !in front;
      } else {
        assert t in ts <==> t in front;
      }
    }
  }

  /** Pushing one more table changes the rows of that table only. */
  lemma PushedRemoteStep(r: RemoteTables, local: Tables, items: map<string, string>, userId: string,
                         fails: set<SyncTable>, ts: seq<SyncTable>, t: SyncTable)
    requires ts != []
    ensures var u := ts[|ts| - 1];
      var prev := RowsOf(PushedRemote(r, local, items, userId, fails, ts[..|ts| - 1]), t);
      RowsOf(PushedRemote(r, local, items, userId, fails, ts), t) ==
        if u == t && PushLands(t, local, items, userId, fails) then prev + PushSet(t, local, items, userId)
        else prev
  {
  }

  /**
   * The rows `list` returns, filtered and mapped, are a batch whose upsert leaves a
   * remote table overridden by the table's push set, whatever order `list` used; the
   * batch is empty exactly when the push set is.
   */
  lemma PayloadIsPushSet(t: SyncTable, table: map<string, Row>, last: Option<string>, userId: string,
                         rows: seq<Row>)
    requires forall k :: k in table ==> table[k].id == Some(k)
    requires Listing(rows, table)
    ensures var changed := SelectChanged(rows, last);
      var payload := Payload(t, changed, userId);
      && (forall i :: 0 <= i < |changed| ==> changed[i].id.Some?)
      && (changed == [] <==> Pushing(t, table, last, userId) == map[])
      && (forall i :: 0 <= i < |payload| ==>
            && payload[i].id.Some? && payload[i].id.value in Pushing(t, table, last, userId)
            && Pushing(t, table, last, userId)[payload[i].id.value] == payload[i])
      && (forall k :: k in Pushing(t, table, last, userId) ==> k in Ids(payload))
  {
    var changed := SelectChanged(rows, last);
    var pushed := Pushing(t, table, last, userId);
    var payload := Payload(t, changed, userId);
    PayloadRowsArePushed(t, table, last, userId, rows);
    PushedRowsAreInPayload(t, table, last, userId, rows);
    if changed != [] {
      assert payload[0].id.value in pushed;
    }
    if pushed != map[] {
      var k :| k in pushed;
      assert k in Ids(payload);
    }
  }

  /** Every row of the batch is the push set's entry under its id. */
  lemma PayloadRowsArePushed(t: SyncTable, table: map<string, Row>, last: Option<string>, userId: string,
                             rows: seq<Row>)
    requires forall i :: 0 <= i < |rows| ==>
      rows[i].id.Some? && rows[i].id.value in table && table[rows[i].id.value] == rows[i]
    ensures var changed := SelectChanged(rows, last);
      var payload := Payload(t, changed, userId);
      forall i :: 0 <= i < |payload| ==>
        && changed[i].id.Some? && payload[i].id.Some?
        && payload[i].id.value in Pushing(t, table, last, userId)
        && Pushing(t, table, last, userId)[payload[i].id.value] == payload[i]
  {
    var changed := SelectChanged(rows, last);
    var payload := Payload(t, changed, userId);
    forall i | 0 <= i < |payload|
      ensures changed[i].id.Some? && payload[i].id.Some?
      ensures payload[i].id.value in Pushing(t, table, last, userId)
      ensures Pushing(t, table, last, userId)[payload[i].id.value] == payload[i]
    {
      assert changed[i] in rows;
      ToRemoteBase(t, changed[i], userId);
    }
  }

  /** Every id of the push set is named by the batch. */
  lemma PushedRowsAreInPayload(t: SyncTable, table: map<string, Row>, last: Option<string>, userId: string,
                               rows: seq<Row>)
    requires forall k :: k in table ==> table[k].id == Some(k)
    requires forall k :: k in table ==> table[k] in rows
    requires forall i :: 0 <= i < |rows| ==> rows[i].id.Some?
    ensures var payload := Payload(t, SelectChanged(rows, last), userId);
      && (forall i :: 0 <= i < |payload| ==> payload[i].id.Some?)
      && forall k :: k in Pushing(t, table, last, userId) ==> k in Ids(payload)
  {
    var changed := SelectChanged(rows, last);
    var payload := Payload(t, changed, userId);
    forall i | 0 <= i < |payload|
      ensures payload[i].id.Some?
    {
      assert changed[i] in rows;
      ToRemoteBase(t, changed[i], userId);
    }
    forall k | k in Pushing(t, table, last, userId)
      ensures k in Ids(payload)
    {
      assert table[k] in changed;
      var i :| 0 <= i < |changed| && changed[i] == table[k];
      ToRemoteBase(t, changed[i], userId);
      assert payload[i].id == Some(k);
    }
  }

  /**
   * Sending the changed rows of table `t` (lines 172-176): nothing when there are none,
   * otherwise one upsert of their remote forms.
   */
  method PushRows(remote: RemoteStore, t: SyncTable, changed: seq<Row>, userId: string, fails: set<SyncTable>)
    requires forall i :: 0 <= i < |changed| ==> changed[i].id.Some?
    modifies remote
    ensures remote.rows ==
      if t !in fails && changed != []
      then old(remote.rows)[t := UpsertAll(RowsOf(old(remote.rows), t), Payload(t, changed, userId))]
      else old(remote.rows)
  {
    if |changed| > 0 {
      var payload := Payload(t, changed, userId);
      var error := remote.Upsert(t, payload, t in fails);
    }
  }

  /**
   * The rows of table `t` to push (lines 171-172): every row `list` returns, or with a
   * cursor `last` those changed after it. Whatever order `list` used, upserting them
   * writes exactly the table's push set.
   */
  method ListChanged(db: LocalStore, t: SyncTable, last: Option<string>, userId: string)
    returns (changed: seq<Row>)
    requires db.Valid() && db.isOpen
    modifies db
    ensures db.Valid() && db.isOpen && db.tables == old(db.tables) && db.tombstones == old(db.tombstones)
    ensures var pushed := Pushing(t, db.tables[Synced(t)], last, userId);
      var payload := Payload(t, changed, userId);
      && (forall i :: 0 <= i < |changed| ==> changed[i].id.Some?)
      && (changed == [] <==> pushed == map[])
      && (forall i :: 0 <= i < |payload| ==>
            payload[i].id.Some? && payload[i].id.value in pushed && pushed[payload[i].id.value] == payload[i])
      && (forall k :: k in pushed ==> k in Ids(payload))
  {
    ghost var before := db.tables;
    var rows := db.List(Synced(t));
    assert db.tables == before;
    ghost var table := db.tables[Synced(t)];
    assert forall k :: k in table ==> table[k].id == Some(k);
    changed := SelectChanged(rows, last);
    PayloadIsPushSet(t, table, last, userId, rows);
  }

  /** Pushing table `t` (lines 170-177) once the store is open. */
  method PushTable(db: LocalStore, remote: RemoteStore, storage: LocalStorage, t: SyncTable,
                   userId: string, fails: set<SyncTable>)
    requires db.Valid() && db.isOpen
    modifies db, remote
    ensures db.Valid() && db.isOpen && db.tables == old(db.tables) && db.tombstones == old(db.tombstones)
    ensures remote.rows ==
      if PushLands(t, db.tables, storage.items, userId, fails)
      then old(remote.rows)[t := RowsOf(old(remote.rows), t) + PushSet(t, db.tables, storage.items, userId)]
      else old(remote.rows)
  {
    var last := GetLast(storage.items, userId, t);
    var changed := ListChanged(db, t, last, userId);
    ghost var before := remote.rows;
    PushRows(remote, t, changed, userId, fails);
    PushOutcome(before, t, db.tables, storage.items, userId, fails, changed);
  }

  /**
   * Upserting the changed rows `list` returned, when there are any and the request goes
   * through, is adding the table's push set to the remote table.
   */
  lemma PushOutcome(r: RemoteTables, t: SyncTable, local: Tables, items: map<string, string>, userId: string,
                    fails: set<SyncTable>, changed: seq<Row>)
    requires Synced(t) in local
    requires var pushed := Pushing(t, local[Synced(t)], GetLast(items, userId, t), userId);
      var payload := Payload(t, changed, userId);
      && (forall i :: 0 <= i < |changed| ==> changed[i].id.Some?)
      && (changed == [] <==> pushed == map[])
      && (forall i :: 0 <= i < |payload| ==>
            payload[i].id.Some? && payload[i].id.value in pushed && pushed[payload[i].id.value] == payload[i])
      && (forall k :: k in pushed ==> k in Ids(payload))
    ensures (forall i :: 0 <= i < |changed| ==> changed[i].id.Some?)
    ensures (if t !in fails && changed != [] then r[t := UpsertAll(RowsOf(r, t), Payload(t, changed, userId))] else r)
      == (if PushLands(t, local, items, userId, fails) then r[t := RowsOf(r, t) + PushSet(t, local, items, userId)] else r)
  {
    var pushed := Pushing(t, local[Synced(t)], GetLast(items, userId, t), userId);
    assert PushSet(t, local, items, userId) == pushed;
    UpsertAllIsOverride(RowsOf(r, t), Payload(t, changed, userId), pushed);
  }

  // ---------------------------------------------------------------- phase 3

  /** What one table's pull query answers. */
  datatype PullReply = PullFailed | Pulled(rows: seq<RemoteRow>)

  function ReplyOf(replies: map<SyncTable, PullReply>, t: SyncTable): PullReply {
    if t in replies then replies[t] else PullFailed
  }

  /** Every row a pull returns carries an id (the remote key is never null). */
  predicate RepliesHaveIds(replies: map<SyncTable, PullReply>) {
    forall t :: t in replies && replies[t].Pulled? ==>
      forall i :: 0 <= i < |replies[t].rows| ==> replies[t].rows[i].id.Some?
  }

  /** `String(x)` as `setItem` stores it: a `null` stamp is stored as the text `"null"`. */
  function CursorText(stamp: Option<string>): string {
    if stamp.Some? then stamp.value else "null"
  }

  /** The table's cursor after its pull (lines 186-194). */
  function NextCursor(last: Option<string>, reply: PullReply, now: string): Option<string> {
    match reply
    case PullFailed => last
    case Pulled(rows) =>
      if rows != [] then Some(CursorText(rows[|rows| - 1].updated_at))
      else if !Truthy(last) then Some(now)
      else last
  }

  /** `data.map(r => fromRemote(table, r))` */
  function Mapped(t: SyncTable, rows: seq<RemoteRow>): seq<Row> {
    seq(|rows|, i requires 0 <= i < |rows| => FromRemote(t, rows[i]))
  }

  /** The rows a reply writes locally; `None` when it writes nothing. */
  function PulledRows(t: SyncTable, reply: PullReply): Option<seq<Row>> {
    if reply.Pulled? && reply.rows != [] then Some(Mapped(t, reply.rows)) else None
  }

  /** The local tables after pulling the tables of `ts` in turn. */
  function PulledTables(local: Tables, replies: map<SyncTable, PullReply>, ts: seq<SyncTable>): Tables
    requires RepliesHaveIds(replies)
  {
    if ts == [] then local
    else
      var prev := PulledTables(local, replies, ts[..|ts| - 1]);
      var t := ts[|ts| - 1];
      match PulledRows(t, ReplyOf(replies, t))
      case None => prev
      case Some(rows) => prev[Synced(t) := PutAll(RowsIn(prev, Synced(t)), rows)]
  }

  /** The cursor store after pulling the tables of `ts` in turn. */
  function PulledItems(items: map<string, string>, userId: string, replies: map<SyncTable, PullReply>,
                       now: string, ts: seq<SyncTable>): map<string, string>
  {
    if ts == [] then items
    else
      var prev := PulledItems(items, userId, replies, now, ts[..|ts| - 1]);
      var t := ts[|ts| - 1];
      var last := GetLast(prev, userId, t);
      match NextCursor(last, ReplyOf(replies, t), now)
      case None => prev
      case Some(c) => prev[LastKey(userId, t) := c]
  }

  /** Pulling table `t` (lines 182-194) once the store is open: store the rows, then move the cursor. */
  method PullTable(db: LocalStore, storage: LocalStorage, t: SyncTable, userId: string,
                   reply: PullReply, now: string)
    requires db.Valid() && db.isOpen
    requires reply.Pulled? ==> forall i :: 0 <= i < |reply.rows| ==> reply.rows[i].id.Some?
    modifies db, storage
    ensures db.Valid() && db.isOpen && db.tombstones == old(db.tombstones)
    ensures db.tables == match PulledRows(t, reply)
      case None => old(db.tables)
      case Some(rows) => old(db.tables)[Synced(t) := PutAll(old(db.tables)[Synced(t)], rows)]
    ensures storage.items ==
      match NextCursor(GetLast(old(storage.items), userId, t), reply, now)
      case None => old(storage.items)
      case Some(c) => old(storage.items)[LastKey(userId, t) := c]
  {
    StorePulled(db, t, reply);
    MoveCursor(storage, userId, t, reply, now);
  }

  /** `bulkPut` of a non-empty answer, in local form (lines 187-188). */
  method StorePulled(db: LocalStore, t: SyncTable, reply: PullReply)
    requires db.Valid() && db.isOpen
    requires reply.Pulled? ==> forall i :: 0 <= i < |reply.rows| ==> reply.rows[i].id.Some?
    modifies db
    ensures db.Valid() && db.isOpen && db.tombstones == old(db.tombstones)
    ensures db.tables == match PulledRows(t, reply)
      case None => old(db.tables)
      case Some(rows) => old(db.tables)[Synced(t) := PutAll(old(db.tables)[Synced(t)], rows)]
  {
    if reply.Pulled? && |reply.rows| > 0 {
      var mapped := Mapped(t, reply.rows);
      db.BulkPut(Synced(t), mapped);
    }
  }

  /**
   * The cursor update (lines 189-193): the last row's `updated_at` after a non-empty
   * answer, the start time after an empty one when there is no cursor yet.
   */
  method MoveCursor(storage: LocalStorage, userId: string, t: SyncTable, reply: PullReply, now: string)
    modifies storage
    ensures storage.items ==
      match NextCursor(GetLast(old(storage.items), userId, t), reply, now)
      case None => old(storage.items)
      case Some(c) => old(storage.items)[LastKey(userId, t) := c]
  {
    var last := GetLast(storage.items, userId, t);
    if reply.PullFailed? {
      if last.Some? {
        assert storage.items[LastKey(userId, t) := last.value] == storage.items;
      }
      return;
    }
    var data := reply.rows;
    if |data| > 0 {
      storage.SetItem(LastKey(userId, t), CursorText(data[|data| - 1].updated_at));
    } else if !Truthy(last) {
      storage.SetItem(LastKey(userId, t), now);
    } else {
      assert storage.items[LastKey(userId, t) := last.value] == storage.items;
    }
  }

  // ---------------------------------------------------------------- syncNow

  /** The push phase (lines 168-178): each table in turn, every cursor read before any pull. */
  method PushChanges(db: LocalStore, remote: RemoteStore, storage: LocalStorage, userId: string,
                     pushFails: set<SyncTable>)
    requires db.Valid() && db.isOpen
    modifies db, remote
    ensures db.Valid() && db.isOpen && db.tables == old(db.tables) && db.tombstones == old(db.tombstones)
    ensures remote.rows == PushedRemote(old(remote.rows), db.tables, storage.items, userId, pushFails, TABLES)
  {
    var j := 0;
    while j < |TABLES|
      invariant 0 <= j <= |TABLES|
      invariant db.Valid() && db.isOpen && db.tables == old(db.tables) && db.tombstones == old(db.tombstones)
      invariant remote.rows == PushedRemote(old(remote.rows), db.tables, storage.items, userId, pushFails, TABLES[..j])
    {
      var t := TABLES[j];
      assert TABLES[..j + 1][..j] == TABLES[..j];
      PushTable(db, remote, storage, t, userId, pushFails);
      j := j + 1;
    }
    assert TABLES[..j] == TABLES;
  }

  /** The pull phase (lines 180-195): each table in turn. */
  method PullChanges(db: LocalStore, storage: LocalStorage, userId: string,
                     replies: map<SyncTable, PullReply>, now: string)
    requires db.Valid() && db.isOpen
    requires RepliesHaveIds(replies)
    modifies db, storage
    ensures db.Valid() && db.isOpen && db.tombstones == old(db.tombstones)
    ensures db.tables == PulledTables(old(db.tables), replies, TABLES)
    ensures storage.items == PulledItems(old(storage.items), userId, replies, now, TABLES)
  {
    var j := 0;
    while j < |TABLES|
      invariant 0 <= j <= |TABLES|
      invariant db.Valid() && db.isOpen && db.tombstones == old(db.tombstones)
      invariant db.tables == PulledTables(old(db.tables), replies, TABLES[..j])
      invariant storage.items == PulledItems(old(storage.items), userId, replies, now, TABLES[..j])
    {
      var t := TABLES[j];
      assert TABLES[..j + 1][..j] == TABLES[..j];
      PullTable(db, storage, t, userId, ReplyOf(replies, t), now);
      j := j + 1;
    }
    assert TABLES[..j] == TABLES;
  }

  /** `syncNow(userId)`, with `now` the time it starts. */
  method SyncNow(db: LocalStore, remote: RemoteStore, storage: LocalStorage, userId: string,
                 now: string, deleteFails: set<nat>, pushFails: set<SyncTable>,
                 replies: map<SyncTable, PullReply>)
    requires db.Valid()
    requires RepliesHaveIds(replies)
    modifies db, remote, storage
    ensures db.Valid() && db.isOpen
    ensures db.tombstones == Without(old(db.tombstones), KeysOf(DeleteTargets(old(db.tombstones))))
    ensures remote.rows == PushedRemote(
      DeletedRemote(old(remote.rows), DeleteTargets(old(db.tombstones)), deleteFails),
      old(db.AfterOpen()), old(storage.items), userId, pushFails, TABLES)
    ensures db.tables == PulledTables(old(db.AfterOpen()), replies, TABLES)
    ensures storage.items == PulledItems(old(storage.items), userId, replies, now, TABLES)
  {
    var targets := PushDeletes(db, remote, deleteFails);
    PushChanges(db, remote, storage, userId, pushFails);
    PullChanges(db, storage, userId, replies, now);
  }

  // ---------------------------------------------------------------- properties

  /** Without a cursor every row of the table is pushed. */
  lemma NoCursorPushesAll(t: SyncTable, local: Tables, items: map<string, string>, userId: string)
    requires !Truthy(GetLast(items, userId, t))
    ensures PushSet(t, local, items, userId).Keys == RowsIn(local, Synced(t)).Keys
  {
  }

  /**
   * With a cursor, a row goes out exactly when its change stamp is strictly after the
   * cursor; so a row with neither timestamp (an invoice, purchase or payment, which
   * `upsert` never stamps) is never pushed again once the table has a cursor.
   */
  lemma CursorSelectsChanged(t: SyncTable, local: Tables, items: map<string, string>, userId: string,
                             k: string)
    requires Truthy(GetLast(items, userId, t)) && k in RowsIn(local, Synced(t))
    ensures k in PushSet(t, local, items, userId) <==>
      Less(GetLast(items, userId, t).value, ChangeStamp(RowsIn(local, Synced(t))[k]))
    ensures !Truthy(RowsIn(local, Synced(t))[k].updatedAt) && !Truthy(RowsIn(local, Synced(t))[k].createdAt)
      ==> k !in PushSet(t, local, items, userId)
  {
  }

  /**
   * A local row whose table's upsert lands reaches the remote in its remote form, even
   * when the delete phase just removed a remote row with its id: a record deleted and
   * recreated under the same id survives the sync.
   */
  lemma PushedRowReachesRemote(r: RemoteTables, log: seq<Tombstone>, deleteFails: set<nat>,
                               local: Tables, items: map<string, string>, userId: string,
                               pushFails: set<SyncTable>, t: SyncTable, k: string)
    requires k in RowsIn(local, Synced(t)) && Selected(RowsIn(local, Synced(t))[k], GetLast(items, userId, t))
    requires t !in pushFails
    ensures var after := PushedRemote(DeletedRemote(r, DeleteTargets(log), deleteFails),
                                      local, items, userId, pushFails, TABLES);
      k in RowsOf(after, t) && RowsOf(after, t)[k] == ToRemote(t, RowsIn(local, Synced(t))[k], userId)
  {
    assert Distinct(TABLES);
    TablesListsEverySyncTable(t);
    PushReaches(DeletedRemote(r, DeleteTargets(log), deleteFails), local, items, userId, pushFails, TABLES, t, k);
  }

  /** A selected row of a pushed table whose upsert goes through lands in its remote form. */
  lemma PushReaches(r: RemoteTables, local: Tables, items: map<string, string>, userId: string,
                    fails: set<SyncTable>, ts: seq<SyncTable>, t: SyncTable, k: string)
    requires Distinct(ts) && t in ts && t !in fails
    requires k in RowsIn(local, Synced(t)) && Selected(RowsIn(local, Synced(t))[k], GetLast(items, userId, t))
    ensures var after := PushedRemote(r, local, items, userId, fails, ts);
      k in RowsOf(after, t) && RowsOf(after, t)[k] == ToRemote(t, RowsIn(local, Synced(t))[k], userId)
  {
    assert k in PushSet(t, local, items, userId);
    PushedRemoteRows(r, local, items, userId, fails, ts, t);
  }

  /**
   * After the whole sync, a remote row of a table that did not push is gone exactly
   * when a delete request for it went through.
   */
  lemma RemoteAfterSyncWithoutPush(r: RemoteTables, log: seq<Tombstone>, deleteFails: set<nat>,
                                   local: Tables, items: map<string, string>, userId: string,
                                   pushFails: set<SyncTable>, t: SyncTable, k: string)
    requires !PushLands(t, local, items, userId, pushFails)
    ensures var targets := DeleteTargets(log);
      var after := PushedRemote(DeletedRemote(r, targets, deleteFails), local, items, userId, pushFails, TABLES);
      k in RowsOf(after, t) <==> k in RowsOf(r, t) && !DeletedBy(targets, deleteFails, t, k)
  {
    var targets := DeleteTargets(log);
    assert Distinct(TABLES);
    PushedRemoteRows(DeletedRemote(r, targets, deleteFails), local, items, userId, pushFails, TABLES, t);
    DeletedRemoteRows(r, targets, deleteFails, t, k);
  }

  /**
   * After the pull phase each synced table holds its rows with the pulled rows written
   * over them when its pull returned rows, and is unchanged otherwise.
   */
  lemma {:induction false} PulledTablesRows(local: Tables, replies: map<SyncTable, PullReply>,
                                            ts: seq<SyncTable>, t: SyncTable)
    requires RepliesHaveIds(replies) && Distinct(ts)
    ensures RowsIn(PulledTables(local, replies, ts), Synced(t)) ==
      if t in ts then PullInto(RowsIn(local, Synced(t)), t, ReplyOf(replies, t))
      else RowsIn(local, Synced(t))
  {
    if ts != [] {
      var front := ts[..|ts| - 1];
      var u := ts[|ts| - 1];
      assert Distinct(front);
      PulledTablesRows(local, replies, front, t);
      PulledTablesStep(local, replies, ts, t);
      assert ts == front + [u];
      if u == t {
        assert t !in front;
      } else {
        assert t in ts <==> t in front;
      }
    }
  }

  /** Pulling one more table changes the rows of that table only. */
  lemma PulledTablesStep(local: Tables, replies: map<SyncTable, PullReply>, ts: seq<SyncTable>, t: SyncTable)
    requires RepliesHaveIds(replies) && ts != []
    ensures var u := ts[|ts| - 1];
      var prev := RowsIn(PulledTables(local, replies, ts[..|ts| - 1]), Synced(t));
      RowsIn(PulledTables(local, replies, ts), Synced(t)) ==
        if u == t then PullInto(prev, t, ReplyOf(replies, t)) else prev
  {
  }

  /** One table's rows after its pull: the pulled rows written over them, if any came. */
  function PullInto(m: map<string, Row>, t: SyncTable, reply: PullReply): map<string, Row>
    requires reply.Pulled? ==> forall i :: 0 <= i < |reply.rows| ==> reply.rows[i].id.Some?
  {
    match PulledRows(t, reply)
    case None => m
    case Some(rows) => PutAll(m, rows)
  }

  /** The pull phase never touches the settings table. */
  lemma {:induction false} PulledTablesKeepSettings(local: Tables, replies: map<SyncTable, PullReply>,
                                                    ts: seq<SyncTable>)
    requires RepliesHaveIds(replies)
    ensures RowsIn(PulledTables(local, replies, ts), Settings) == RowsIn(local, Settings)
  {
    if ts != [] {
      PulledTablesKeepSettings(local, replies, ts[..|ts| - 1]);
    }
  }

  /**
   * Each table's cursor ends where its own pull put it; the pulls of the other tables
   * and the preference keys are not touched.
   */
  lemma {:induction false} PulledItemsCursor(items: map<string, string>, userId: string,
                                             replies: map<SyncTable, PullReply>, now: string,
                                             ts: seq<SyncTable>, t: SyncTable)
    requires Distinct(ts)
    ensures GetLast(PulledItems(items, userId, replies, now, ts), userId, t) ==
      if t in ts then NextCursor(GetLast(items, userId, t), ReplyOf(replies, t), now)
      else GetLast(items, userId, t)
  {
    if ts != [] {
      var front := ts[..|ts| - 1];
      var u := ts[|ts| - 1];
      assert Distinct(front);
      PulledItemsCursor(items, userId, replies, now, front, t);
      PulledItemsStep(items, userId, replies, now, ts, t);
      assert ts == front + [u];
      if u == t {
        assert t !in front;
      } else {
        assert t in ts <==> t in front;
      }
    }
  }

  /** Pulling one more table moves that table's cursor only. */
  lemma PulledItemsStep(items: map<string, string>, userId: string, replies: map<SyncTable, PullReply>,
                        now: string, ts: seq<SyncTable>, t: SyncTable)
    requires ts != []
    ensures var u := ts[|ts| - 1];
      var prev := GetLast(PulledItems(items, userId, replies, now, ts[..|ts| - 1]), userId, t);
      GetLast(PulledItems(items, userId, replies, now, ts), userId, t) ==
        if u == t then NextCursor(prev, ReplyOf(replies, t), now) else prev
  {
    var u := ts[|ts| - 1];
    var prev := PulledItems(items, userId, replies, now, ts[..|ts| - 1]);
    if u == t {
      NoCursorOnlyFromNone(GetLast(prev, userId, u), ReplyOf(replies, u), now);
    } else if LastKey(userId, u) == LastKey(userId, t) {
      LastKeyInjective(userId, u, userId, t);
    }
  }

  lemma NoCursorOnlyFromNone(last: Option<string>, reply: PullReply, now: string)
    ensures NextCursor(last, reply, now).None? ==> last.None?
  {
  }

  /** The pull phase writes no key other than this user's cursors; the preferences stay. */
  lemma {:induction false} PulledItemsOtherKeys(items: map<string, string>, userId: string,
                                                replies: map<SyncTable, PullReply>, now: string,
                                                ts: seq<SyncTable>, key: string)
    requires forall u :: key != LastKey(userId, u)
    ensures Lookup(PulledItems(items, userId, replies, now, ts), key) == Lookup(items, key)
  {
    if ts != [] {
      PulledItemsOtherKeys(items, userId, replies, now, ts[..|ts| - 1], key);
    }
  }

  /** In particular the sync preferences are untouched by a sync. */
  lemma SyncKeepsPrefs(items: map<string, string>, userId: string,
                       replies: map<SyncTable, PullReply>, now: string)
    ensures GetSyncPrefs(PulledItems(items, userId, replies, now, TABLES)) == GetSyncPrefs(items)
  {
    forall u: SyncTable
      ensures SyncAutoKey != LastKey(userId, u) && SyncIntervalKey != LastKey(userId, u)
    {
      LastKeyIsNotAPrefKey(userId, u);
    }
    PulledItemsOtherKeys(items, userId, replies, now, TABLES, SyncAutoKey);
    PulledItemsOtherKeys(items, userId, replies, now, TABLES, SyncIntervalKey);
  }

  /**
   * Cursors only move forward: given an answer of the pull query, a table's cursor afterwards equals its old one or lies strictly after it; a failed
   * pull or an empty answer leaves an existing cursor alone, and an empty answer with no
   * cursor sets it to the start time of the sync.
   */
  lemma CursorMovesForward(m: map<string, RemoteRow>, last: Option<string>, reply: PullReply, now: string)
    requires Truthy(last)
    requires reply.Pulled? ==> ValidPull(m, last, reply.rows)
    ensures NextCursor(last, reply, now).Some?
    ensures NextCursor(last, reply, now) == last || Less(last.value, NextCursor(last, reply, now).value)
    ensures (reply.PullFailed? || reply.rows == []) ==> NextCursor(last, reply, now) == last
  {
    if reply.Pulled? && reply.rows != [] {
      PullPassesCursor(m, last, reply.rows);
    }
  }

  /** An empty answer with no cursor sets the cursor to the start time. */
  lemma FirstEmptyPullSetsNow(last: Option<string>, now: string)
    requires !Truthy(last)
    ensures NextCursor(last, Pulled([]), now) == Some(now)
  {
  }

  /**
   * After a non-empty pull of a table that is stamped or read after a cursor, the new
   * cursor is past every remote row of the table: the next pull returns only rows changed
   * in between.
   */
  lemma CursorCatchesUp(m: map<string, RemoteRow>, last: Option<string>, rows: seq<RemoteRow>, now: string)
    requires (AllStamped(m) || Truthy(last)) && ValidPull(m, last, rows) && rows != []
    ensures forall k :: k in m ==> !Qualifies(m[k], NextCursor(last, Pulled(rows), now))
  {
    PullCatchesUp(m, last, rows);
  }

  /**
   * The pull phase of a whole sync reads the remote as the delete and push phases left it.
   * When table `t`'s pull query answers with the rows of that remote after the table's
   * cursor, every such row is afterwards stored locally under its id in local form, and,
   * when the table is stamped or had a cursor, no row of the table is after the table's
   * new cursor.
   */
  lemma SyncPullsRemote(r: RemoteTables, log: seq<Tombstone>, deleteFails: set<nat>,
                        local: Tables, items: map<string, string>, userId: string,
                        pushFails: set<SyncTable>, replies: map<SyncTable, PullReply>, now: string,
                        t: SyncTable)
    requires RepliesHaveIds(replies) && ReplyOf(replies, t).Pulled?
    requires ValidPull(RowsOf(PushedRemote(DeletedRemote(r, DeleteTargets(log), deleteFails),
                                           local, items, userId, pushFails, TABLES), t),
                       GetLast(items, userId, t), ReplyOf(replies, t).rows)
    ensures var m := RowsOf(PushedRemote(DeletedRemote(r, DeleteTargets(log), deleteFails),
                                         local, items, userId, pushFails, TABLES), t);
      var pulled := RowsIn(PulledTables(local, replies, TABLES), Synced(t));
      forall k :: k in m && Qualifies(m[k], GetLast(items, userId, t)) ==>
        m[k].id.Some? && m[k].id.value in pulled && pulled[m[k].id.value] == FromRemote(t, m[k])
    ensures var m := RowsOf(PushedRemote(DeletedRemote(r, DeleteTargets(log), deleteFails),
                                         local, items, userId, pushFails, TABLES), t);
      var cursor := GetLast(PulledItems(items, userId, replies, now, TABLES), userId, t);
      (AllStamped(m) || Truthy(GetLast(items, userId, t))) ==>
        forall k :: k in m ==> !Qualifies(m[k], cursor)
  {
    var m := RowsOf(PushedRemote(DeletedRemote(r, DeleteTargets(log), deleteFails),
                                 local, items, userId, pushFails, TABLES), t);
    PullPhaseStores(m, local, items, userId, replies, t);
    if AllStamped(m) || Truthy(GetLast(items, userId, t)) {
      PullPhaseCatchesUp(m, items, userId, replies, now, t);
    }
  }

  /**
   * The pull phase, for any remote table `m` that table `t`'s pull query answers from:
   * every row of `m` after the cursor is stored locally under its id in local form.
   */
  lemma PullPhaseStores(m: map<string, RemoteRow>, local: Tables, items: map<string, string>,
                        userId: string, replies: map<SyncTable, PullReply>, t: SyncTable)
    requires RepliesHaveIds(replies) && ReplyOf(replies, t).Pulled?
    requires ValidPull(m, GetLast(items, userId, t), ReplyOf(replies, t).rows)
    ensures var pulled := RowsIn(PulledTables(local, replies, TABLES), Synced(t));
      forall k :: k in m && Qualifies(m[k], GetLast(items, userId, t)) ==>
        m[k].id.Some? && m[k].id.value in pulled && pulled[m[k].id.value] == FromRemote(t, m[k])
  {
    var rows := ReplyOf(replies, t).rows;
    var pulled := RowsIn(PulledTables(local, replies, TABLES), Synced(t));
    forall k | k in m && Qualifies(m[k], GetLast(items, userId, t))
      ensures m[k].id.Some? && m[k].id.value in pulled && pulled[m[k].id.value] == FromRemote(t, m[k])
    {
      PulledTableIsBatch(local, replies, t);
      PulledRowKept(RowsIn(local, Synced(t)), t, rows, m[k]);
    }
  }

  /** A table whose pull answered rows holds its old rows with the answer written over them. */
  lemma PulledTableIsBatch(local: Tables, replies: map<SyncTable, PullReply>, t: SyncTable)
    requires RepliesHaveIds(replies) && ReplyOf(replies, t).Pulled? && ReplyOf(replies, t).rows != []
    ensures RowsIn(PulledTables(local, replies, TABLES), Synced(t)) ==
      PutAll(RowsIn(local, Synced(t)), Mapped(t, ReplyOf(replies, t).rows))
  {
    assert Distinct(TABLES);
    TablesListsEverySyncTable(t);
    PulledTablesRows(local, replies, TABLES, t);
  }

  /** A row of a pulled batch with distinct ids is stored under its id in local form. */
  lemma PulledRowKept(base: map<string, Row>, t: SyncTable, rows: seq<RemoteRow>, row: RemoteRow)
    requires row in rows
    requires forall j :: 0 <= j < |rows| ==> rows[j].id.Some?
    requires forall a, b :: 0 <= a < b < |rows| ==> rows[a].id != rows[b].id
    ensures row.id.Some?
    ensures row.id.value in PutAll(base, Mapped(t, rows))
    ensures PutAll(base, Mapped(t, rows))[row.id.value] == FromRemote(t, row)
  {
    var i :| 0 <= i < |rows| && rows[i] == row;
    MappedKeepsIds(t, rows);
    PulledRowStored(base, Mapped(t, rows), i);
  }

  /**
   * The pull phase, for any remote table `m` that table `t`'s pull query answers from:
   * when `m` is stamped or there was a cursor, no row of `m` is after the new cursor.
   */
  lemma PullPhaseCatchesUp(m: map<string, RemoteRow>, items: map<string, string>, userId: string,
                           replies: map<SyncTable, PullReply>, now: string, t: SyncTable)
    requires ReplyOf(replies, t).Pulled?
    requires ValidPull(m, GetLast(items, userId, t), ReplyOf(replies, t).rows)
    requires AllStamped(m) || Truthy(GetLast(items, userId, t))
    ensures forall k :: k in m ==>
      !Qualifies(m[k], GetLast(PulledItems(items, userId, replies, now, TABLES), userId, t))
  {
    var rows := ReplyOf(replies, t).rows;
    assert Distinct(TABLES);
    TablesListsEverySyncTable(t);
    PulledItemsCursor(items, userId, replies, now, TABLES, t);
    if rows != [] {
      PullCatchesUp(m, GetLast(items, userId, t), rows);
    }
  }

  /** Rows pulled in local form keep their ids, so distinct remote ids stay distinct. */
  lemma MappedKeepsIds(t: SyncTable, rows: seq<RemoteRow>)
    ensures |Mapped(t, rows)| == |rows|
    ensures forall j :: 0 <= j < |rows| ==> Mapped(t, rows)[j].id == rows[j].id
  {
  }

  /**
   * A pulled row is stored locally under its id in local form: pulled rows have distinct
   * ids, so no later row of the same batch overwrites it.
   */
  lemma {:induction false} PulledRowStored(m: map<string, Row>, rows: seq<Row>, i: nat)
    requires forall j :: 0 <= j < |rows| ==> rows[j].id.Some?
    requires forall a, b :: 0 <= a < b < |rows| ==> rows[a].id != rows[b].id
    requires i < |rows|
    ensures rows[i].id.value in PutAll(m, rows) && PutAll(m, rows)[rows[i].id.value] == rows[i]
  {
    var n := |rows| - 1;
    if i < n {
      var front := rows[..n];
      assert forall j :: 0 <= j < |front| ==> front[j] == rows[j];
      PulledRowStored(m, front, i);
    }
  }

  /**
   * A row with a null `updated_at` pulled last stores the cursor text `"null"`; an ISO
   * timestamp (which starts with a digit) is never after `"null"`, so from then on
   * nothing of that table is pushed.
   */
  lemma NullStampWedgesCursor(m: map<string, RemoteRow>, rows: seq<RemoteRow>, now: string,
                              row: Row)
    requires rows != [] && rows[|rows| - 1].updated_at.None?
    requires 0 < |ChangeStamp(row)| && '0' <= ChangeStamp(row)[0] <= '9'
    ensures NextCursor(None, Pulled(rows), now) == Some("null")
    ensures !Selected(row, Some("null"))
  {
  }
}
