/**
 * The local record store (`src/lib/db.ts`): six object stores keyed by `id`, opened
 * lazily by `getDB`, which seeds or patches the singleton settings row on the first
 * open of a session. The tombstone log and `bulkPut` are used by the sync engine but
 * are not part of `db.ts`; they are declared here with the behaviour the engine
 * relies on.
 */
module Store {
  import opened Base
  import opened Records

  type Tables = map<Table, map<string, Row>>

  const SettingsId: string := "settings"

  /** The settings row `getDB` stores when none exists. */
  const DefaultSettings: Row := Blank.(
    id := Some(SettingsId), companyName := Some(""), address := Some(""),
    currency := Some("USD"), theme := Some("system"), invoiceTemplate := Some("simple"),
    invoicePrefix := Some(""), invoiceCounter := Some(0), invoiceNumberWidth := Some(5))

  /** The numbering fields `getDB` fills in on an existing settings row (`?? ''`, `?? 0`, `?? 5`). */
  function PatchSettings(s: Row): Row {
    s.(invoicePrefix := Some(s.invoicePrefix.GetOr("")),
       invoiceCounter := Some(s.invoiceCounter.GetOr(0)),
       invoiceNumberWidth := Some(s.invoiceNumberWidth.GetOr(5)))
  }

  /** The settings row after `getDB`, given the row it found (if any). */
  function OpenedSettings(found: Option<Row>): Row {
    if found.None? then DefaultSettings else PatchSettings(found.value)
  }

  /** `getDB` rewrites an existing settings row exactly when the patch changes it. */
  predicate SettingsNeedPatch(s: Row) {
    PatchSettings(s) != s
  }

  /** Every table exists and every row sits under its own id. */
  ghost predicate WellKeyed(tables: Tables) {
    && (forall t :: t in tables)
    && (forall t, k :: t in tables && k in tables[t] ==> tables[t][k].id == Some(k))
  }

  /** The tables as they stand after the first `getDB` of a session. */
  function OpenedTables(tables: Tables): Tables
    requires WellKeyed(tables)
  {
    var found := Lookup(tables[Settings], SettingsId);
    tables[Settings := tables[Settings][SettingsId := OpenedSettings(found)]]
  }

  /**
   * `rows` lists the table `m`: each row is the one `m` holds under its id, every row of
   * `m` appears, and no id appears twice. The order is whatever the database uses.
   */
  predicate Listing(rows: seq<Row>, m: map<string, Row>) {
    && (forall i :: 0 <= i < |rows| ==> rows[i].id.Some? && rows[i].id.value in m && m[rows[i].id.value] == rows[i])
    && (forall k :: k in m ==> m[k] in rows)
    && (forall i, j :: 0 <= i < j < |rows| ==> rows[i].id != rows[j].id)
  }

  /** `row.id ? row : { ...row, id: uid() }` with the generated id passed in. */
  function WithId(row: Row, freshId: string): Row {
    if Truthy(row.id) then row else row.(id := Some(freshId))
  }

  /** The timestamps `upsert` stamps: only customer and item rows get them. */
  function Stamped(table: Table, row: Row, now: string): Row {
    if table == Synced(Customers) || table == Synced(Items) then
      row.(updatedAt := Some(now), createdAt := if Truthy(row.createdAt) then row.createdAt else Some(now))
    else row
  }

  /** The rows `bulkPut` leaves in a table: each given row written under its id, later ones last. */
  function PutAll(m: map<string, Row>, rows: seq<Row>): (r: map<string, Row>)
    requires forall i :: 0 <= i < |rows| ==> rows[i].id.Some?
    ensures r.Keys == m.Keys + (set i | 0 <= i < |rows| :: rows[i].id.value)
  {
    if rows == [] then m
    else
      var last := rows[|rows| - 1];
      var r := PutAll(m, rows[..|rows| - 1])[last.id.value := last];
      assert forall i :: 0 <= i < |rows| - 1 ==> rows[..|rows| - 1][i] == rows[i];
      r
  }

  /** The tombstones `clearDeletes(keys)` keeps: those whose key is not listed. */
  function Without(log: seq<Tombstone>, keys: seq<string>): (r: seq<Tombstone>)
    ensures forall d :: d in r <==> d in log && d.key !in keys
  {
    if log == [] then []
    else
      var rest := Without(log[..|log| - 1], keys);
      var last := log[|log| - 1];
      assert log == log[..|log| - 1] + [last];
      if last.key in keys then rest else rest + [last]
  }

  // ---- properties of opening the store ----

  /** A first open stores the documented defaults. */
  lemma SeedsDefaults()
    ensures var s := OpenedSettings(None);
      && s.id == Some("settings") && s.currency == Some("USD") && s.theme == Some("system")
      && s.invoiceTemplate == Some("simple") && s.invoicePrefix == Some("")
      && s.invoiceCounter == Some(0) && s.invoiceNumberWidth == Some(5)
      && s.companyName == Some("") && s.address == Some("")
  {
  }

  /**
   * On an existing row only a missing prefix, counter or width is filled (with `''`, 0,
   * 5); every present value and every other field is kept.
   */
  lemma PatchFillsOnlyMissing(s: Row)
    ensures var p := PatchSettings(s);
      && (s.invoicePrefix.Some? ==> p.invoicePrefix == s.invoicePrefix)
      && (s.invoicePrefix.None? ==> p.invoicePrefix == Some(""))
      && (s.invoiceCounter.Some? ==> p.invoiceCounter == s.invoiceCounter)
      && (s.invoiceCounter.None? ==> p.invoiceCounter == Some(0))
      && (s.invoiceNumberWidth.Some? ==> p.invoiceNumberWidth == s.invoiceNumberWidth)
      && (s.invoiceNumberWidth.None? ==> p.invoiceNumberWidth == Some(5))
      && p.(invoicePrefix := s.invoicePrefix, invoiceCounter := s.invoiceCounter,
            invoiceNumberWidth := s.invoiceNumberWidth) == s
  {
  }

  /** The settings row is rewritten exactly when one of the three numbering fields is missing. */
  lemma PatchNeededIffMissing(s: Row)
    ensures SettingsNeedPatch(s) <==>
      s.invoicePrefix.None? || s.invoiceCounter.None? || s.invoiceNumberWidth.None?
  {
    if s.invoicePrefix.None? {
      assert PatchSettings(s).invoicePrefix != s.invoicePrefix;
    } else if s.invoiceCounter.None? {
      assert PatchSettings(s).invoiceCounter != s.invoiceCounter;
    } else if s.invoiceNumberWidth.None? {
      assert PatchSettings(s).invoiceNumberWidth != s.invoiceNumberWidth;
    }
  }

  /** Opening again (a new session over the same database) changes nothing more. */
  lemma OpenIdempotent(tables: Tables)
    requires WellKeyed(tables)
    ensures WellKeyed(OpenedTables(tables))
    ensures OpenedTables(OpenedTables(tables)) == OpenedTables(tables)
    ensures !SettingsNeedPatch(OpenedTables(tables)[Settings][SettingsId])
  {
    var once: Tables := OpenedTables(tables);
    var s := once[Settings][SettingsId];
    assert s.id == Some(SettingsId);
    assert PatchSettings(s) == s;
    assert once[Settings][SettingsId := PatchSettings(s)] == once[Settings];
  }

  // ---- properties of upsert ----

  /** `upsert` keeps a caller-supplied id and uses the generated one only when the row has none. */
  lemma UpsertId(table: Table, row: Row, now: string, freshId: string)
    ensures Stamped(table, WithId(row, freshId), now).id ==
      (if Truthy(row.id) then row.id else Some(freshId))
    ensures Stamped(table, WithId(row, freshId), now).(
        id := row.id, createdAt := row.createdAt, updatedAt := row.updatedAt) == row
  {
  }

  /**
   * Customers and items get `updatedAt = now` and keep a present `createdAt`, else get
   * `createdAt = now`; so a new record has equal timestamps.
   */
  lemma UpsertStampsCustomersAndItems(t: SyncTable, row: Row, now: string)
    requires t == Customers || t == Items
    ensures Stamped(Synced(t), row, now).updatedAt == Some(now)
    ensures Truthy(row.createdAt) ==> Stamped(Synced(t), row, now).createdAt == row.createdAt
    ensures !Truthy(row.createdAt) ==>
      Stamped(Synced(t), row, now).createdAt == Stamped(Synced(t), row, now).updatedAt
  {
  }

  /** Settings, invoices, purchases and payments are stored as given: no timestamps. */
  lemma UpsertLeavesOtherTablesUnstamped(table: Table, row: Row, now: string)
    requires table != Synced(Customers) && table != Synced(Items)
    ensures Stamped(table, row, now) == row
  {
  }

  /**
   * Saving the stored row again keeps `createdAt` fixed and moves `updatedAt` to the
   * later clock reading.
   */
  lemma RepeatedUpsertKeepsCreatedAt(t: SyncTable, row: Row, first: string, second: string)
    requires t == Customers || t == Items
    requires first != ""
    ensures var once := Stamped(Synced(t), row, first);
      && Stamped(Synced(t), once, second).createdAt == once.createdAt
      && Stamped(Synced(t), once, second).updatedAt == Some(second)
  {
  }

  /**
   * The local database. `isOpen` is the module's cached handle (`_db`); `tables` are the
   * object stores; `tombstones` is the deletion log the sync engine consumes.
   */
  class LocalStore {
    var isOpen: bool
    var tables: Tables
    var tombstones: seq<Tombstone>

    ghost predicate Valid()
      reads this
    {
      WellKeyed(tables)
    }

    /** The tables every operation sees: `getDB` runs first and opens the store if needed. */
    function AfterOpen(): Tables
      reads this
      requires Valid()
    {
      if isOpen then tables else OpenedTables(tables)
    }

    /** A new session over a persisted database: no handle cached yet. */
    constructor (persisted: Tables, log: seq<Tombstone>)
      requires WellKeyed(persisted)
      ensures Valid() && !isOpen && tables == persisted && tombstones == log
    {
      isOpen := false;
      tables := persisted;
      tombstones := log;
    }

    /** `getDB`: the first call of a session seeds or patches the settings row. */
    method GetDB()
      requires Valid()
      modifies this
      ensures Valid() && isOpen
      ensures tables == old(AfterOpen()) && tombstones == old(tombstones)
    {
      if isOpen {
        return;
      }
      var found := Lookup(tables[Settings], SettingsId);
      if found.None? {
        tables := tables[Settings := tables[Settings][SettingsId := DefaultSettings]];
      } else {
        var patched := PatchSettings(found.value);
        if patched != found.value {
          tables := tables[Settings := tables[Settings][SettingsId := patched]];
        } else {
          assert tables[Settings][SettingsId := patched] == tables[Settings];
        }
      }
      isOpen := true;
    }

    /** `list(table)`: every row of the table, each once. */
    method List(table: Table) returns (rows: seq<Row>)
      requires Valid()
      modifies this
      ensures Valid() && isOpen
      ensures tables == old(AfterOpen()) && tombstones == old(tombstones)
      ensures Listing(rows, tables[table])
    {
      GetDB();
      var m := tables[table];
      var keys := Enumerate(m);
      rows := seq(|keys|, i requires 0 <= i < |keys| => m[keys[i]]);
      assert forall i :: 0 <= i < |rows| ==> rows[i].id == Some(keys[i]);
      forall k | k in m
        ensures m[k] in rows
      {
        var i :| 0 <= i < |keys| && keys[i] == k;
        assert rows[i] == m[k];
      }
    }

    /** `get(table, id)`: the row stored under `id`, if any. */
    method Get(table: Table, id: string) returns (r: Option<Row>)
      requires Valid()
      modifies this
      ensures Valid() && isOpen
      ensures tables == old(AfterOpen()) && tombstones == old(tombstones)
      ensures r == Lookup(tables[table], id)
    {
      GetDB();
      r := Lookup(tables[table], id);
    }

    /** `getSettings()`: the row with id `'settings'`. */
    method GetSettings() returns (s: Option<Row>)
      requires Valid()
      modifies this
      ensures Valid() && isOpen
      ensures tables == old(AfterOpen()) && tombstones == old(tombstones)
      ensures s == Lookup(tables[Settings], SettingsId)
    {
      s := Get(Settings, SettingsId);
    }

    /**
     * `upsert(table, row)`: give the row an id if it has none, stamp customers and items,
     * store it under its id and return it. Nothing else in any table changes.
     */
    method Upsert(table: Table, row: Row, now: string, freshId: string) returns (stored: Row)
      requires Valid()
      requires !Truthy(row.id) ==> freshId != ""
      modifies this
      ensures Valid() && isOpen && tombstones == old(tombstones)
      ensures stored == Stamped(table, WithId(row, freshId), now)
      ensures stored.id.Some? && stored.id.value != ""
      ensures tables == old(AfterOpen())[table := old(AfterOpen())[table][stored.id.value := stored]]
    {
      GetDB();
      var withId := WithId(row, freshId);
      stored := Stamped(table, withId, now);
      tables := tables[table := tables[table][stored.id.value := stored]];
    }

    /** `remove(table, id)`: delete that row (absent ids are a no-op); no tombstone is written. */
    method Remove(table: Table, id: string)
      requires Valid()
      modifies this
      ensures Valid() && isOpen && tombstones == old(tombstones)
      ensures tables == old(AfterOpen())[table := old(AfterOpen())[table] - {id}]
    {
      GetDB();
      tables := tables[table := tables[table] - {id}];
    }

    /** `listDeletes()`: the tombstone log. */
    method ListDeletes() returns (log: seq<Tombstone>)
      requires Valid()
      modifies this
      ensures Valid() && isOpen
      ensures tables == old(AfterOpen()) && tombstones == old(tombstones)
      ensures log == tombstones
    {
      GetDB();
      log := tombstones;
    }

    /** `clearDeletes(keys)`: drop exactly the tombstones with those keys. */
    method ClearDeletes(keys: seq<string>)
      requires Valid()
      modifies this
      ensures Valid() && isOpen && tables == old(AfterOpen())
      ensures tombstones == Without(old(tombstones), keys)
    {
      GetDB();
      tombstones := Without(tombstones, keys);
    }

    /** `bulkPut(table, rows)`: write the rows as given, under their ids, without stamping them. */
    method BulkPut(table: Table, rows: seq<Row>)
      requires Valid()
      requires forall i :: 0 <= i < |rows| ==> rows[i].id.Some?
      modifies this
      ensures Valid() && isOpen && tombstones == old(tombstones)
      ensures tables == old(AfterOpen())[table := PutAll(old(AfterOpen())[table], rows)]
    {
      GetDB();
      PutAllKeyed(tables[table], rows);
      tables := tables[table := PutAll(tables[table], rows)];
    }
  }

  /** Rows written under their own ids keep a table well keyed. */
  lemma {:induction false} PutAllKeyed(m: map<string, Row>, rows: seq<Row>)
    requires forall i :: 0 <= i < |rows| ==> rows[i].id.Some?
    requires forall k :: k in m ==> m[k].id == Some(k)
    ensures forall k :: k in PutAll(m, rows) ==> PutAll(m, rows)[k].id == Some(k)
  {
    if rows != [] {
      PutAllKeyed(m, rows[..|rows| - 1]);
    }
  }
}
