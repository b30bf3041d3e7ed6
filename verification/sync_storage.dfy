/**
 * The browser key-value store the sync engine keeps its state in: one pull cursor
 * per user and table (`getLast`/`setLast`, `src/lib/sync.ts`) and the background-sync
 * preferences (`getSyncPrefs`/`setSyncPrefs`).
 */
module SyncStorage {
  import opened Base
  import opened Records
  import opened JsNumbers

  /** `localStorage`: string keys to string values. */
  class LocalStorage {
    var items: map<string, string>

    constructor (initial: map<string, string>)
      ensures items == initial
    {
      items := initial;
    }

    /** `localStorage.setItem(key, value)` */
    method SetItem(key: string, value: string)
      modifies this
      ensures items == old(items)[key := value]
    {
      items := items[key := value];
    }
  }

  /** `LAST(userId, table)`: the key of a table's pull cursor. */
  function LastKey(userId: string, t: SyncTable): string {
    "sync:last:" + userId + ":" + SyncTableName(t)
  }

  /** `getLast(userId, table)`: the stored cursor, or `null`. */
  function GetLast(items: map<string, string>, userId: string, t: SyncTable): Option<string> {
    Lookup(items, LastKey(userId, t))
  }

  const SyncAutoKey: string := "sync:auto"
  const SyncIntervalKey: string := "sync:interval"
  const DefaultInterval: int := 120000

  /** `{ auto, interval }`; an interval of `None` is `NaN`. */
  datatype SyncPrefs = SyncPrefs(auto: bool, interval: Option<int>)

  /** `getSyncPrefs()` */
  function GetSyncPrefs(items: map<string, string>): SyncPrefs {
    var auto := Lookup(items, SyncAutoKey).GetOr("true") == "true";
    var interval := match Lookup(items, SyncIntervalKey)
      case None => Some(DefaultInterval)
      case Some(text) => Number(text);
    SyncPrefs(auto, interval)
  }

  /** `String(b)` */
  function BoolString(b: bool): string {
    if b then "true" else "false"
  }

  /** The storage after `setSyncPrefs({ auto, interval })`: only the supplied fields are written. */
  function PrefsWritten(items: map<string, string>, auto: Option<bool>, interval: Option<int>)
    : map<string, string>
  {
    var afterAuto := if auto.Some? then items[SyncAutoKey := BoolString(auto.value)] else items;
    if interval.Some? then afterAuto[SyncIntervalKey := JsString(interval.value)] else afterAuto
  }

  /** `setSyncPrefs({ auto, interval })` */
  method SetSyncPrefs(storage: LocalStorage, auto: Option<bool>, interval: Option<int>)
    modifies storage
    ensures storage.items == PrefsWritten(old(storage.items), auto, interval)
  {
    if auto.Some? {
      storage.SetItem(SyncAutoKey, BoolString(auto.value));
    }
    if interval.Some? {
      storage.SetItem(SyncIntervalKey, JsString(interval.value));
    }
  }

  /** With nothing stored, background sync is on, every two minutes. */
  lemma PrefsDefaults(items: map<string, string>)
    requires SyncAutoKey !in items && SyncIntervalKey !in items
    ensures GetSyncPrefs(items) == SyncPrefs(true, Some(120000))
  {
  }

  /**
   * Reading the preferences after writing some gives back each value written, and the
   * value of the field not written is what it was.
   */
  lemma SetThenGetPrefs(items: map<string, string>, auto: Option<bool>, interval: Option<int>)
    ensures var after := GetSyncPrefs(PrefsWritten(items, auto, interval));
      && after.auto == (if auto.Some? then auto.value else GetSyncPrefs(items).auto)
      && after.interval == (if interval.Some? then interval else GetSyncPrefs(items).interval)
  {
    if interval.Some? {
      NumberOfString(interval.value);
    }
  }

  /** Writing the preferences leaves every other key, cursors included, untouched. */
  lemma PrefsWrittenOnlyTouchesPrefKeys(items: map<string, string>, auto: Option<bool>,
                                         interval: Option<int>, key: string)
    requires key != SyncAutoKey && key != SyncIntervalKey
    ensures Lookup(PrefsWritten(items, auto, interval), key) == Lookup(items, key)
  {
  }

  /** Table names contain no `:`. */
  lemma TableNameHasNoColon(t: SyncTable)
    ensures ':' !in SyncTableName(t)
  {
  }

  /** Distinct (user, table) pairs have distinct cursor keys, so each cursor is its own. */
  lemma {:induction false} LastKeyInjective(u1: string, t1: SyncTable, u2: string, t2: SyncTable)
    requires LastKey(u1, t1) == LastKey(u2, t2)
    ensures u1 == u2 && t1 == t2
  {
    var k1, k2 := LastKey(u1, t1), LastKey(u2, t2);
    TableNameHasNoColon(t1);
    TableNameHasNoColon(t2);
    var n1, n2 := SyncTableName(t1), SyncTableName(t2);
    var p := |"sync:last:"|;
    // the last ':' of the key sits just before the table name
    var i1, i2 := |k1| - 1 - |n1|, |k2| - 1 - |n2|;
    assert k1[i1] == ':' && k2[i2] == ':';
    assert k1[i1 + 1..] == n1 && k2[i2 + 1..] == n2;
    assert |u1| == |u2|;
    assert u1 == k1[p..p + |u1|] == k2[p..p + |u2|] == u2;
    assert n1 == k1[p + |u1| + 1..] == k2[p + |u2| + 1..] == n2;
  }

  /** No cursor key is a preference key. */
  lemma LastKeyIsNotAPrefKey(u: string, t: SyncTable)
    ensures LastKey(u, t) != SyncAutoKey && LastKey(u, t) != SyncIntervalKey
  {
    var k := LastKey(u, t);
    assert k[5] == 'l';
    assert SyncAutoKey[5] == 'a' && SyncIntervalKey[5] == 'i';
  }
}
