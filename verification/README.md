# Invoice Pro: local store, sync engine and reports, modelled in Dafny

Invoice Pro is a local-first invoicing application. Records (customers, items, invoices,
purchases, payments and one settings row) live in a browser object store and are
reconciled with a hosted database by a delta-sync engine. This project models:

- **the local store** (`src/lib/db.ts`): a class `Store.LocalStore` holding six tables of
  rows keyed by id, the lazily opened handle, and the tombstone log the sync engine
  reads. Opening seeds or patches the settings row. `upsert` assigns ids and stamps
  timestamps. `remove` deletes one row.
- **the remote mapping** (`toDate`, `toRemote`, `fromRemote` in `src/lib/sync.ts`): total
  functions between local rows and remote rows, with their defaults and the cut of dates
  to the calendar day.
- **`syncNow`**: the delete, push and pull phases as methods over the local store, the
  hosted database (`Remote.RemoteStore`) and the key-value store holding the per-table
  pull cursors (`SyncStorage.LocalStorage`). Each phase is proved against a function of
  the state before it, and lemmas then state what the phases guarantee.
- **the sync preferences** (`getSyncPrefs`/`setSyncPrefs`).
- **invoice numbering** (`src/lib/numbering.ts`) and the second padding routine
  `padInvoice` (`src/lib/settings-client.ts`).
- **the table sorting helpers** (`src/components/ui/sort.tsx`).
- **the two profit-and-loss aggregations**: `computePnl` (`src/lib/calc.ts`) and
  `buildMonthlyPnl` (`src/lib/reporting.ts`). Both group amounts by a key in a map, list
  the map's entries sorted by key, and add them up. Module `Ledger` proves once, for
  any key and amount, that the listing has one entry per key in ascending order and
  that its sums equal the plain totals.

## Modelling decisions

- Rows are untyped objects in the code (`type Row = any`). `Records.Row` is one record
  with every field any table uses, each optional. `None` stands for both `null` and
  `undefined`.
- Timestamps are strings. They are compared character by character by code point
  (`Base.Less`), where the code compares them with `>`. JavaScript compares UTF-16
  code units; the two orders agree on strings without characters from U+D800 upwards,
  which covers the ISO timestamps, ids and keys the code compares. `localeCompare` on
  the ISO date keys of the reports is modelled by the same order (`Base.Compare`).
- Amounts, quantities and counters are integers (cents for money).
- Every call to the hosted database is an input:
  - `deleteFails` lists the delete requests that fail;
  - `pushFails` lists the tables whose upsert fails;
  - `replies` holds what each table's pull query answers.
  `Remote.ValidPull` states what a correct answer to the pull query is. The clock
  (`now`) and the generated id (`freshId`) are parameters too.
- The order in which `list` returns rows is left open (`Base.Enumerate`). Every
  property is proved for any order.
- Timestamps a Date object would re-serialise are taken as already in the form
  `toISOString` writes. A stored date is `Records.DateTime`, a calendar day plus a
  time of day.

## Where the code and its design notes differ

The model follows the code in each case:

- `remove` (`src/lib/db.ts:81-84`) deletes the row but writes no tombstone. The design
  notes say every delete appends one. `Store.LocalStore.Remove` leaves the log
  unchanged.
- `upsert` stamps `createdAt`/`updatedAt` only on customers and items
  (`src/lib/db.ts:69-71`). The design notes say every record of the five synced tables
  is stamped. As a consequence, once a table has a cursor, an unstamped invoice,
  purchase or payment is never pushed again (`Sync.CursorSelectsChanged`).
- `db.ts` exports no `listDeletes`, `clearDeletes` or `bulkPut`, though `syncNow` calls
  them. The model declares them (`Store.LocalStore.ListDeletes`, `ClearDeletes`,
  `BulkPut`) with the behaviour the sync engine relies on. `bulkPut` writes rows as
  given, without stamping.
- The delete phase clears the tombstones it sent whatever the delete requests
  answered. The design notes clear them only after the whole batch succeeds
  (`Sync.ClearedTombstones`).
- There is no guard against two overlapping `syncNow` calls. None is modelled.
- A pulled row whose `updated_at` is `null` is stored as the cursor text `"null"`. No ISO
  timestamp is after it, so that table stops pushing (`Sync.NullStampWedgesCursor`).

## Model

| member | source | states |
|---|---|---|
| Base.Compare | src/lib/calc.ts:17 | `localeCompare` on date keys is negative, zero or positive exactly when the first key is before, equal to or after the second |
| Base.LessTransitive | src/lib/sync.ts:172 | string order on timestamps is transitive |
| Base.LessTotal | src/lib/sync.ts:172 | any two timestamps are equal or ordered one way round |
| Base.LessAsymmetric | src/lib/sync.ts:172 | no two timestamps are each after the other |
| Base.Less | src/lib/sync.ts:172 | `a > b` on timestamps, character by character by code point; irreflexive, transitive, total and asymmetric by the four lemmas below |
| Base.LessIrreflexive | src/lib/sync.ts:172 | no timestamp is after itself |
| Base.Enumerate | src/lib/db.ts:57 | `getAll` lists every key of a table once, in some order |
| Records.ParseSyncTable | src/lib/sync.ts:162 | `TABLES.includes(name)` answers the table of that name, and no table for any other name |
| Records.TablesListsEverySyncTable | src/lib/sync.ts:6 | `TABLES` lists all five synced tables |
| JsNumbers.Zeros | src/lib/settings-client.ts:52 | `'0'.repeat(k)` has length k and holds only zeros |
| JsNumbers.DecimalSpellsValue | src/lib/numbering.ts:5 | the decimal spelling of n is non-empty digits whose value is n, with no leading zero unless n is 0 |
| JsNumbers.NumberOfString | src/lib/sync.ts:215 | `Number(String(n)) == n`: what `setSyncPrefs` writes reads back as written |
| JsNumbers.JsStringLeadingChar | src/lib/numbering.ts:5 | `String(n)` starts with `0` exactly when n is 0 |
| JsNumbers.ZeroPaddedDecodes | src/lib/numbering.ts:5 | left-padding `String(n)` with zeros loses nothing: dropping the zeros reads back n |
| Store.PatchSettings | src/lib/db.ts:40-46 | the numbering fields `getDB` fills in; characterised by Store.PatchFillsOnlyMissing and Store.PatchNeededIffMissing |
| Store.WithId | src/lib/db.ts:68 | `row.id ? row : { ...row, id }`; characterised by Store.UpsertId |
| Store.Stamped | src/lib/db.ts:69-71 | the stamps `upsert` adds; characterised by Store.UpsertStampsCustomersAndItems, Store.UpsertLeavesOtherTablesUnstamped and Store.RepeatedUpsertKeepsCreatedAt |
| Store.PutAll | src/lib/sync.ts:190 | after `bulkPut` the table's ids are its old ids plus the ids of the written rows |
| Store.PutAllKeyed | src/lib/sync.ts:190 | `bulkPut` of rows that carry ids keeps every row under its own id |
| Store.Without | src/lib/sync.ts:166 | `clearDeletes(keys)` keeps exactly the tombstones whose key is not listed |
| Store.SeedsDefaults | src/lib/db.ts:24-37 | a first open stores currency `USD`, theme `system`, template `simple`, empty prefix, counter 0 and width 5 |
| Store.PatchFillsOnlyMissing | src/lib/db.ts:40-46 | on an existing settings row only a missing prefix, counter or width is filled (`''`, 0, 5); all else is kept |
| Store.PatchNeededIffMissing | src/lib/db.ts:47-49 | the settings row is rewritten exactly when one of the three numbering fields is missing |
| Store.OpenIdempotent | src/lib/db.ts:11-53 | opening an opened store changes nothing, and the opened settings row needs no further patch |
| Store.UpsertId | src/lib/db.ts:68 | `upsert` keeps a present id and uses the generated one only when the row has none; other fields are untouched apart from the stamps |
| Store.UpsertStampsCustomersAndItems | src/lib/db.ts:69-71 | customers and items get `updatedAt = now` and keep a present `createdAt`, else get `createdAt == updatedAt` |
| Store.UpsertLeavesOtherTablesUnstamped | src/lib/db.ts:69-71 | settings, invoices, purchases and payments are stored exactly as given |
| Store.RepeatedUpsertKeepsCreatedAt | src/lib/db.ts:69-71 | saving a stamped row again keeps `createdAt` and moves `updatedAt` to the new clock reading |
| Store.LocalStore.constructor | src/lib/db.ts:9 | a new session starts with no open handle over the persisted tables and log |
| Store.LocalStore.GetDB | src/lib/db.ts:11-53 | the first call seeds or patches the settings row; later calls change nothing |
| Store.LocalStore.List | src/lib/db.ts:55-58 | after opening, answers every row of the table once, each the row stored under its id |
| Store.LocalStore.Get | src/lib/db.ts:60-63 | after opening, answers the row stored under the id, or nothing |
| Store.LocalStore.GetSettings | src/lib/db.ts:86-88 | answers the row with id `settings` |
| Store.LocalStore.Upsert | src/lib/db.ts:65-79 | stores the id-assigned, stamped row under its non-empty id, returns it, and changes no other row or table |
| Store.LocalStore.Remove | src/lib/db.ts:81-84 | removes that id from that table only (a no-op for an absent id) and leaves the tombstone log unchanged |
| Store.LocalStore.ListDeletes | src/lib/sync.ts:161 | answers the tombstone log |
| Store.LocalStore.ClearDeletes | src/lib/sync.ts:166 | drops exactly the tombstones with the given keys |
| Store.LocalStore.BulkPut | src/lib/sync.ts:190 | writes the rows as given under their ids, later ones last, without stamping |
| RemoteMapping.ToDate | src/lib/sync.ts:10 | `toDate`; what it keeps and drops is stated by RemoteMapping.DatesCutToDay (the calendar day is kept, an absent date stays absent) and RemoteMapping.RoundTripFixesExactlyCanonical |
| RemoteMapping.FromDate | src/lib/sync.ts:113-114 | `new Date(d).toISOString()` on a pulled date; with ToDate it is stated by RemoteMapping.DatesCutToDay (dates come back at midnight of their day) |
| RemoteMapping.ToRemote | src/lib/sync.ts:12-78 | `toRemote`; characterised by RemoteMapping.ToRemoteBase, RemoteMapping.PushDefaults and, with FromRemote, by RemoteMapping.CustomerRoundTrip and RemoteMapping.CanonicalRoundTrip |
| RemoteMapping.FromRemote | src/lib/sync.ts:80-146 | `fromRemote`; characterised by RemoteMapping.RoundTripCanonical (its results are canonical) and RemoteMapping.RoundTripFixesExactlyCanonical |
| RemoteMapping.ToRemoteBase | src/lib/sync.ts:12-13 | `toRemote` carries the id and both timestamps unchanged and sets `user_id` to the user; the round trip keeps them too |
| RemoteMapping.CustomerRoundTrip | src/lib/sync.ts:15-25 | pushing and pulling a customer (lines 83-93 on the way back) keeps every customer field |
| RemoteMapping.DatesCutToDay | src/lib/sync.ts:45-46 | dates keep their calendar day and come back at midnight (lines 113-114); an absent date stays absent |
| RemoteMapping.PushDefaults | src/lib/sync.ts:32-35 | missing stock and unit price are sent as 0; missing purchase price and tax rate stay absent; missing status is sent as `draft` (invoice) or `unpaid` (purchase) |
| RemoteMapping.RoundTripCanonical | src/lib/sync.ts:80-146 | a row that comes back from the remote is canonical: only its table's fields, dates at midnight, defaults present |
| RemoteMapping.CanonicalRoundTrip | src/lib/sync.ts:12-146 | a canonical row survives a push and pull unchanged |
| RemoteMapping.RoundTripFixesExactlyCanonical | src/lib/sync.ts:12-146 | the round trip fixes exactly the canonical rows, and doing it twice equals doing it once |
| Remote.UpsertAll | src/lib/sync.ts:175 | the upserted table holds its old ids plus the ids of the batch |
| Remote.UpsertAllIsPartialOverride | src/lib/sync.ts:175 | a batch of a map's entries leaves the table overridden by the entries it names, in any order |
| Remote.UpsertAllIsOverride | src/lib/sync.ts:175 | a batch naming all of a map's entries leaves the table overridden by that map, in any order |
| Remote.RemoteStore.constructor | src/lib/sync.ts:164 | the hosted database starts from the given tables |
| Remote.RemoteStore.Delete | src/lib/sync.ts:164 | delete by id removes that row of that table; a failed request changes nothing |
| Remote.RemoteStore.Upsert | src/lib/sync.ts:175-176 | upsert on `id` writes the batch into that table; a failed request changes nothing and reports the error |
| Remote.PullPassesCursor | src/lib/sync.ts:184 | with a cursor, the last row of a non-empty pull is strictly after it |
| Remote.PullLastIsLatest | src/lib/sync.ts:184-191 | on a stamped table, or after a cursor, every pulled row is stamped and the last one is the latest pulled |
| Remote.PullCatchesUp | src/lib/sync.ts:184-191 | after a non-empty pull of a stamped table, or after a cursor, the new cursor is non-empty and no row of the table is after it |
| Remote.RepeatPullIsEmpty | src/lib/sync.ts:183-186 | repeating a non-empty pull at once with the new cursor answers nothing, on a stamped table or after a cursor |
| SyncStorage.LocalStorage.constructor | src/lib/sync.ts:148-155 | the key-value store starts from the given entries |
| SyncStorage.LocalStorage.SetItem | src/lib/sync.ts:154 | `setItem` sets that key and changes no other |
| SyncStorage.SetSyncPrefs | src/lib/sync.ts:218-221 | writes only the supplied preferences |
| SyncStorage.PrefsDefaults | src/lib/sync.ts:213-217 | with nothing stored, `auto` is true and `interval` 120000 |
| SyncStorage.SetThenGetPrefs | src/lib/sync.ts:213-221 | reading after writing gives back each written value and the old value of the field not written |
| SyncStorage.PrefsWrittenOnlyTouchesPrefKeys | src/lib/sync.ts:218-221 | writing the preferences leaves every other key unchanged |
| SyncStorage.LastKey | src/lib/sync.ts:8 | `LAST(userId, table)`; characterised by SyncStorage.LastKeyInjective and SyncStorage.LastKeyIsNotAPrefKey |
| SyncStorage.GetLast | src/lib/sync.ts:148-151 | `getLast`: the entry under the table's cursor key; how the pull phase moves it is stated by Sync.PulledItemsCursor and Sync.CursorMovesForward |
| SyncStorage.GetSyncPrefs | src/lib/sync.ts:213-217 | `getSyncPrefs`; characterised by SyncStorage.PrefsDefaults and SyncStorage.SetThenGetPrefs |
| SyncStorage.TableNameHasNoColon | src/lib/sync.ts:6 | no table name contains `:` |
| SyncStorage.LastKeyInjective | src/lib/sync.ts:8 | distinct (user, table) pairs have distinct cursor keys |
| SyncStorage.LastKeyIsNotAPrefKey | src/lib/sync.ts:8 | no cursor key is a preference key |
| Sync.DeleteTargets | src/lib/sync.ts:162 | keeps exactly the tombstones of the five synced tables |
| Sync.KeysOf | src/lib/sync.ts:166 | `toDelete.map(d => d.key)`; what clearing those keys leaves is stated by Sync.PushDeletes and Sync.ClearedTombstones |
| Sync.DeletedRemote | src/lib/sync.ts:163-165 | the remote after the delete requests; characterised by Sync.DeletedRemoteRows |
| Sync.DeletedRemoteRows | src/lib/sync.ts:163-165 | after the delete requests a remote row is gone exactly when a request for it went through; other rows are as they were |
| Sync.DeletedRemoteStep | src/lib/sync.ts:164 | one delete request changes at most its own table, by its own id |
| Sync.PushDeletes | src/lib/sync.ts:160-166 | sends a delete for each synced-table tombstone, clears exactly their keys, and leaves the local tables alone |
| Sync.ClearedTombstones | src/lib/sync.ts:161-166 | the delete phase clears exactly the synced-table tombstones whatever the remote answered; others remain |
| Sync.ChangeStamp | src/lib/sync.ts:172 | `r.updatedAt \|\| r.createdAt \|\| ''`; which rows it selects is stated by Sync.CursorSelectsChanged and Sync.NullStampWedgesCursor |
| Sync.FilterSelected | src/lib/sync.ts:172 | keeps exactly the rows whose change stamp is after the cursor |
| Sync.SelectChanged | src/lib/sync.ts:172 | with a cursor the rows changed strictly after it, without one every row |
| Sync.Payload | src/lib/sync.ts:174 | `changed.map(toRemote)`; that it names exactly the push set, each row in remote form under its id, is stated by Sync.PayloadIsPushSet, Sync.PayloadRowsArePushed and Sync.PushedRowsAreInPayload |
| Sync.PayloadIsPushSet | src/lib/sync.ts:171-175 | the filtered, mapped listing is a batch of the table's push set naming all of it, empty exactly when the push set is |
| Sync.PayloadRowsArePushed | src/lib/sync.ts:174 | every row of the batch is the push set's entry under its id |
| Sync.PushedRowsAreInPayload | src/lib/sync.ts:172-174 | every id of the push set is named by the batch |
| Sync.PushRows | src/lib/sync.ts:173-177 | no request when nothing changed; otherwise one upsert of the remote forms, which changes nothing when it fails |
| Sync.ListChanged | src/lib/sync.ts:171-172 | the rows to push, whatever order `list` used, are exactly the table's push set |
| Sync.PushTable | src/lib/sync.ts:170-177 | one table's push adds its push set to the remote table when the upsert is sent and lands, and changes nothing else |
| Sync.PushOutcome | src/lib/sync.ts:173-176 | upserting the changed rows equals adding the push set when it is sent and lands |
| Sync.PushedRemote | src/lib/sync.ts:169-178 | the remote after the push phase; characterised by Sync.PushedRemoteRows |
| Sync.PushedRemoteRows | src/lib/sync.ts:169-178 | after the push phase each remote table is its old rows overridden by its push set if its upsert landed, else unchanged |
| Sync.PushedRemoteStep | src/lib/sync.ts:169-178 | pushing one more table changes that table's rows only |
| Sync.Mapped | src/lib/sync.ts:189 | `data.map(fromRemote)`; that each pulled row ends up stored under its id in local form is stated by Sync.PulledRowStored, Sync.PulledRowKept and Sync.PullPhaseStores |
| Sync.MappedKeepsIds | src/lib/sync.ts:189 | mapping pulled rows to local form keeps their number and each row's id |
| Sync.NextCursor | src/lib/sync.ts:186-194 | the cursor after one table's pull; characterised by Sync.CursorMovesForward, Sync.FirstEmptyPullSetsNow, Sync.CursorCatchesUp and Sync.NullStampWedgesCursor |
| Sync.PulledTables | src/lib/sync.ts:181-195 | the local tables after the pull phase; characterised by Sync.PulledTablesRows and Sync.PulledTablesKeepSettings |
| Sync.PulledItems | src/lib/sync.ts:181-195 | the cursor store after the pull phase; characterised by Sync.PulledItemsCursor and Sync.PulledItemsOtherKeys |
| Sync.StorePulled | src/lib/sync.ts:188-190 | a non-empty answer is written into its table as given; otherwise nothing is written |
| Sync.MoveCursor | src/lib/sync.ts:189-193 | the cursor becomes the last row's `updated_at`, or `now` after an empty first pull; a failed pull leaves it |
| Sync.PullTable | src/lib/sync.ts:182-194 | one table's pull stores the rows, then moves that table's cursor |
| Sync.PushChanges | src/lib/sync.ts:168-178 | the push phase gives the remote the state of pushing each table in turn, and changes no local table or cursor |
| Sync.PullChanges | src/lib/sync.ts:180-195 | the pull phase writes each table's answer and moves each cursor in turn |
| Sync.SyncNow | src/lib/sync.ts:157-196 | the tombstones, remote tables, local tables and cursors after a sync are those of the three phases composed |
| Sync.NoCursorPushesAll | src/lib/sync.ts:172 | without a cursor every row of the table is pushed |
| Sync.CursorSelectsChanged | src/lib/sync.ts:172 | with a cursor a row is pushed exactly when its change stamp is strictly after it; a row with neither timestamp never is |
| Sync.PushReaches | src/lib/sync.ts:169-176 | a selected row of a table whose upsert lands reaches the remote in its remote form |
| Sync.PushedRowReachesRemote | src/lib/sync.ts:160-178 | a record deleted and recreated under the same id is live on the remote after the sync, when its push lands |
| Sync.RemoteAfterSyncWithoutPush | src/lib/sync.ts:160-178 | for a table that did not push, a remote row is gone after the sync exactly when a delete for it went through |
| Sync.PulledTablesRows | src/lib/sync.ts:181-195 | after the pull phase each synced table holds its rows with its pulled rows written over them |
| Sync.PulledTablesStep | src/lib/sync.ts:188-190 | pulling one more table changes that table's rows only |
| Sync.PulledTablesKeepSettings | src/lib/sync.ts:181-195 | the pull phase never touches the settings table |
| Sync.PulledItemsCursor | src/lib/sync.ts:181-195 | each table's cursor ends where its own pull put it |
| Sync.PulledItemsStep | src/lib/sync.ts:189-193 | pulling one more table moves that table's cursor only |
| Sync.PulledItemsOtherKeys | src/lib/sync.ts:189-193 | the pull phase writes no key but this user's cursors |
| Sync.SyncKeepsPrefs | src/lib/sync.ts:211-217 | a sync leaves the sync preferences as they were |
| Sync.CursorMovesForward | src/lib/sync.ts:186-194 | for any correct answer of the pull query, an existing cursor stays or moves strictly forward; a failed or empty pull leaves it |
| Sync.FirstEmptyPullSetsNow | src/lib/sync.ts:192-193 | an empty answer with no cursor sets the cursor to the sync's start time |
| Sync.CursorCatchesUp | src/lib/sync.ts:183-191 | after a non-empty pull of a stamped table, or after a cursor, no remote row of the table is after the new cursor |
| Sync.SyncPullsRemote | src/lib/sync.ts:157-196 | when a table's pull answers correctly from the remote as the delete and push phases of the same sync left it, every remote row after the old cursor is stored locally under its id in local form, and (stamped table or old cursor) no remote row is after the new cursor; with Sync.SyncNow's ensures this ties a sync's local tables and cursors to the remote |
| Sync.PullPhaseStores | src/lib/sync.ts:180-190 | for any remote table the pull answers from correctly, every row after the cursor is stored locally under its id in local form |
| Sync.PullPhaseCatchesUp | src/lib/sync.ts:183-194 | for any remote table the pull answers from correctly, when it is stamped or there was a cursor, no row is after the table's new cursor |
| Sync.PulledTableIsBatch | src/lib/sync.ts:187-190 | a table whose pull answered rows holds its old rows with the answer, in local form, written over them |
| Sync.PulledRowKept | src/lib/sync.ts:189-190 | a row of a pulled batch with distinct ids is stored under its id in local form |
| Sync.PulledRowStored | src/lib/sync.ts:189-190 | each pulled row is stored under its id in local form; no later row of the batch overwrites it |
| Sync.NullStampWedgesCursor | src/lib/sync.ts:191 | a last pulled row with `null` `updated_at` leaves the cursor `"null"`, after which no ISO-stamped row is pushed |
| Numbering.PadStart | src/lib/numbering.ts:5 | `padStart(width, fill)`; for the zero fill characterised by Numbering.PadShape |
| Numbering.Pad | src/lib/numbering.ts:4-6 | `pad(num, width)`; characterised by Numbering.PadShape, Numbering.PadDecodes and Numbering.PadInjective |
| Numbering.Filler | src/lib/numbering.ts:5 | the `padStart` filler has the requested length and repeats the fill string |
| Numbering.PadShape | src/lib/numbering.ts:4-6 | `pad(n, w)` is zeros then `String(n)`, of length max(len, w); unchanged when already long enough |
| Numbering.PadDecodes | src/lib/numbering.ts:4-6 | dropping the padding zeros from `pad(n, w)` reads back n |
| Numbering.PadInjective | src/lib/numbering.ts:4-6 | at one width, different numbers pad differently |
| Numbering.InvoiceNumber | src/lib/numbering.ts:10-13 | `${prefix}${pad(next, width)}` for a settings row; characterised by Numbering.InvoiceNumberParts and Numbering.DefaultNumber |
| Numbering.NextNumber | src/lib/numbering.ts:8-14 | the number preview and consume answer; stated by Numbering.PreviewNextInvoiceNumber, Numbering.FirstNumberOfNewStore and Numbering.SuccessiveNumbersDiffer |
| Numbering.Consumed | src/lib/numbering.ts:16-22 | the tables after a consume; characterised by Numbering.ConsumedChangesOnlyTheCounter |
| Numbering.InvoiceNumberParts | src/lib/numbering.ts:8-14 | a number is the prefix followed by counter+1 padded to at least the width |
| Numbering.DefaultNumber | src/lib/numbering.ts:10-13 | with no counter, width or prefix the number is `00001` |
| Numbering.FirstNumberOfNewStore | src/lib/numbering.ts:8-14 | a newly opened store numbers its first invoice `00001` |
| Numbering.ConsumedChangesOnlyTheCounter | src/lib/numbering.ts:21 | consuming changes only the settings row's counter, by one |
| Numbering.SuccessiveNumbersDiffer | src/lib/numbering.ts:16-23 | two consumes in a row hand out different numbers |
| Numbering.PreviewNextInvoiceNumber | src/lib/numbering.ts:8-14 | answers the next number and changes nothing beyond opening the store |
| Numbering.ConsumeNextInvoiceNumber | src/lib/numbering.ts:16-23 | answers what preview would and stores the incremented counter |
| SettingsClient.PadInvoice | src/lib/settings-client.ts:50-53 | `padInvoice(n, width = 5)`; characterised by SettingsClient.PadInvoiceShape and SettingsClient.PadInvoiceAgreesWithPad |
| SettingsClient.PadInvoiceShape | src/lib/settings-client.ts:50-53 | `String(n)` unchanged when long enough, else exactly w long, ending in `String(n)` after zeros only |
| SettingsClient.PadInvoiceDefaultWidth | src/lib/settings-client.ts:50 | an omitted width is 5 |
| SettingsClient.PadInvoiceAgreesWithPad | src/lib/settings-client.ts:50-53 | `padInvoice(n, w) == pad(n, w)` for every integer n, and at width 5 by default |
| Sort.NextDir | src/components/ui/sort.tsx:9-11 | `nextDir`; characterised by Sort.NextDirToggles |
| Sort.HeaderClick | src/components/ui/sort.tsx:16-22 | the sort state a header click sets; characterised by Sort.HeaderClickToggles |
| Sort.ApplySort | src/components/ui/sort.tsx:32-38 | `applySort`; characterised by Sort.ApplySortPermutes, Sort.ApplySortAscOrdered and Sort.ApplySortDescReversesAsc |
| Sort.NextDirToggles | src/components/ui/sort.tsx:9-11 | `asc` goes to `desc`, `desc` and none to `asc`; toggling twice is a no-op |
| Sort.HeaderClickToggles | src/components/ui/sort.tsx:16-22 | a click sorts by the clicked column, ascending when it was not active and in the other direction when it was |
| Sort.Insert | src/components/ui/sort.tsx:36 | insertion adds one element and keeps the others |
| Sort.SortBy | src/components/ui/sort.tsx:36 | the sorted copy is a permutation of the rows |
| Sort.InsertSorted | src/components/ui/sort.tsx:36 | with a consistent comparator insertion keeps a sorted sequence sorted |
| Sort.SortBySorted | src/components/ui/sort.tsx:36 | with a consistent comparator the sorted copy is in comparator order |
| Sort.Reverse | src/components/ui/sort.tsx:37 | `reverse()` puts element i at position n-1-i and keeps the elements |
| Sort.ReverseDescends | src/components/ui/sort.tsx:37 | a sorted sequence reversed is in the opposite order |
| Sort.ApplySortPermutes | src/components/ui/sort.tsx:32-36 | the result is a permutation of the rows, and the rows themselves without a sort or a comparator |
| Sort.ApplySortAscOrdered | src/components/ui/sort.tsx:36-37 | an ascending sort is in comparator order |
| Sort.ApplySortDescReversesAsc | src/components/ui/sort.tsx:36-37 | a descending sort is exactly the ascending result reversed, hence in the opposite order |
| Ledger.SumOverKeys | src/lib/calc.ts:18-19 | adding the per-key sums over distinct covering keys gives the total of all amounts |
| Ledger.OrderByKeyConsistent | src/lib/calc.ts:17 | comparing entries by `localeCompare` on their key is a consistent comparator |
| Ledger.SortedGroups | src/lib/reporting.ts:36 | the map's entries sorted by key list each entry once, every key, in strictly ascending order |
| Ledger.GroupedTotal | src/lib/reporting.ts:37-39 | entries holding per-key sums over strictly ascending covering keys add up to the total |
| Calc.BookSale | src/lib/calc.ts:8-10 | adding one sale into its date's entry extends the tally by that sale |
| Calc.BookPurchase | src/lib/calc.ts:13-15 | adding one purchase into its date's entry extends the tally by that purchase |
| Calc.TallySales | src/lib/calc.ts:7-11 | the map holds an entry for every sale date with that date's sales |
| Calc.TallyPurchases | src/lib/calc.ts:12-16 | the map gains every purchase date and each date's purchases |
| Calc.SortedEntries | src/lib/calc.ts:17 | the sorted entries are one per date, ascending, each with that date's sums |
| Calc.DailyTotals | src/lib/calc.ts:18-19 | the series' totals are the totals of all sales and of all purchases |
| Calc.ComputePnl | src/lib/calc.ts:2-21 | one entry per date in ascending order with that day's sales and purchases; totals of all sales and purchases; gross profit their difference |
| Reporting.Month | src/lib/reporting.ts:4 | `ym(d)`: the month key of a booking; the monthly sums per key are stated by Reporting.TallyInvoices, Reporting.TallyPurchases and Reporting.SortedMonths |
| Reporting.LineCost | src/lib/reporting.ts:21-23 | one line's purchase price times quantity; characterised, through InvoiceCogs, by Reporting.UnknownItemsCostNothing and Reporting.InvoiceCogsNonNegative |
| Reporting.InvoiceCogs | src/lib/reporting.ts:20-24 | an invoice's cost of goods sold; characterised by Reporting.InvoiceCogsAppend, Reporting.UnknownItemsCostNothing and Reporting.InvoiceCogsNonNegative |
| Reporting.ItemsById | src/lib/reporting.ts:12 | the item map has a key exactly for each item id |
| Reporting.ItemsByIdFinds | src/lib/reporting.ts:12 | with distinct ids, every item is found under its id |
| Reporting.ItemsByIdOfListing | src/lib/reporting.ts:7-12 | the map built from the items listing is the items table |
| Reporting.InvoiceCogsAppend | src/lib/reporting.ts:20-24 | the cost of two runs of lines is the sum of their costs |
| Reporting.UnknownItemsCostNothing | src/lib/reporting.ts:20-24 | lines without an item id or naming an unknown item cost nothing |
| Reporting.InvoiceCogsNonNegative | src/lib/reporting.ts:20-24 | with no negative price or quantity the cost of goods sold is not negative |
| Reporting.IncomeExpenses | src/lib/reporting.ts:45 | the chart points; what they hold is stated by Reporting.SummarizeMonths: one point per month of the series, in series order, with that month's income and `expenses = cogs + opex` |
| Reporting.BookInvoice | src/lib/reporting.ts:17-26 | adding one invoice into its month's entry extends the tally by its income and cost |
| Reporting.BookPurchase | src/lib/reporting.ts:30-33 | adding one purchase into its month's entry extends the tally by its expense |
| Reporting.TallyInvoices | src/lib/reporting.ts:16-27 | each month's income and cost of goods sold over the invoices |
| Reporting.TallyPurchases | src/lib/reporting.ts:29-34 | each month's operating expenses over the purchases, added to the map |
| Reporting.SortedMonths | src/lib/reporting.ts:36 | the sorted entries are one per month, ascending, each with that month's sums |
| Reporting.MonthlyTotals | src/lib/reporting.ts:37-39 | the column totals are the totals of all bookings |
| Reporting.SummarizeMonths | src/lib/reporting.ts:12-47 | the report over given listings: monthly series, totals, expenses, gross and net profit, and one chart point per month in series order with `expenses = cogs + opex` |
| Reporting.BuildMonthlyPnl | src/lib/reporting.ts:6-48 | lists the three tables and answers the report over them, with item prices from the items table |

## Left out

- The online and interval triggers (`initOnlineSync`, `initBackgroundSync`): event listeners and timers.
- The hosted database client, row-level security and the network. Remote answers and failures are inputs; an exception thrown by a request (which would abort `syncNow`) is not modelled.
- Date parsing and time zones. `toDate`, `new Date(d).toISOString()` in `fromRemote` and `ym` in the monthly report work on stored ISO strings; the `RangeError` an invalid date raises is not modelled.
- Reporting.Month: an invalid date string, which makes `ym` throw, is not modelled; dates are well-formed `DateTime` values.
- JavaScript number coercion and floating point: `Number(...)`, `NaN` amounts and fractional cents. Amounts are integers.
- The settings mirror in `localStorage` and the `settings:updated` event that `getDB` and `upsert` emit; the server-side branch where `localStorage` is undefined (`getLast`/`setLast` return early).
- The `useSettings` hook in `src/lib/settings-client.ts` (React state).
- `null` and `undefined` are not distinguished; both are `None`.
- Store.LocalStore.List: the order of the listing is left open; the code gets the object store's key order.
- Sort.SortBy: stability of the language's sort is not stated; only permutation and order are.
- Base.Compare: `localeCompare` is modelled as code-point order, which agrees with it on the ISO date keys the reports compare but not on arbitrary strings.
- Base.Less: JavaScript orders strings by UTF-16 code units, the model by code points; the two differ only on strings holding characters from U+D800 upwards, which timestamps, ids and keys do not.
- Numbering.SuccessiveNumbersDiffer: the counter is an unbounded integer. In the code it is a JavaScript number (`src/lib/numbering.ts:10,18`), and beyond 2^53 − 1 (`Number.MAX_SAFE_INTEGER`) adding 1 no longer changes it, so two consumes would hand out the same number.
- Numbering.ConsumeNextInvoiceNumber: the stored counter is `counter + 1` on unbounded integers; the code's double-precision addition is exact only up to 2^53 − 1.
- JsNumbers.JsString: `String(n)` is modelled as plain decimal digits for every integer; JavaScript writes exponent notation from 10^21 upwards, and the padding lemmas built on it (Numbering.PadShape, Numbering.PadDecodes, Numbering.PadInjective, SettingsClient.PadInvoiceShape) hold only below that.
- Reporting.ItemsById: items without an id are left out of the map; the code would store them under `undefined`, a key no line with an item id looks up.
- Remote.RemoteStore.Upsert: an upsert only writes the columns the batch sends in the code; the model replaces whole rows, and rows pushed by this engine always send every column of their table.
- The `clear` operation and the backup restore path of the store: not used by the modelled core.
