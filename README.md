# Bounded key/value cache: a Dafny model

This project models the core of a small HTTP key/value cache backed by a
document store. Clients set, get, list and delete string values by key.

- `src/controllers/CacheController.ts` is the bounded variant. Before every
  write it reads a snapshot of all documents, sorted ascending by
  `(expires, count)`. Once the store holds `CACHE_MAX_ENTRIES` documents,
  the write is redirected to the first document of that snapshot, the
  victim.
- `src/controllers/Cache.controller.ts` is the variant the router serves.
  It is an unbounded upsert / find-or-create with no counter and no expiry.
- `src/models/Cache.ts` gives the document shape and the schema defaults.

## Structure

- `wrappers.dfy`, module `Wrappers`: `Option`.
- `cache_model.dfy`, module `CacheModel`: the document (`CacheRecord`), the
  schema default count, and the update document (`Patch`).
- `ordering.dfy`, module `Ordering`: the two sort orders the controllers ask
  for, the store's sort as a stable insertion sort, and the proof that, over
  the store's creation order, it yields the order (expires, count, creation).
- `document_store.dfy`, module `DocumentStore`: the store as a value
  (`StoreState`, with the invariant `ValidState`) and as a class (`Store`,
  with one method per store call that writes). Those calls are
  `findOneAndUpdate` with upsert, `save`, `findOneAndDelete`, `deleteMany`
  and the background expiry sweep. The reads, `find().sort()` and
  `findOne`, are the functions `BoundedCache.Snapshot` and `FindOne`.
- `bounded_cache.dfy`, module `BoundedCache`: `getCounter`, `getExpiration`,
  `upsertKey` and the five handlers of CacheController.ts. `getCounter`,
  `getExpiration` and `getKeys` only compute, so they are functions. The
  handlers that write, and `upsertKey`, are specification functions on
  `StoreState`. Each also has a method on a `Store` proved equal to it, and
  lemmas about it.
- `unbounded_cache.dfy`, module `UnboundedCache`: the five handlers of
  Cache.controller.ts.
- `scenarios.dfy`, module `BoundedScenarios`: concrete runs with
  `maxEntries = 2`, `maxAge = 3600`.

Time is whole seconds passed in as `now`. `maxEntries` and `maxAge` are an
explicit `Config`. The generated value of a read miss is a parameter of
length 10.

## Behaviour worth knowing

The comment at CacheController.ts:33-55 describes the policy as least
recently used. A reader might expect keys to stay unique, and a get right
after a set to return the value just set. The code guarantees neither; the
model follows the code.

- At capacity, a write to a key that already has a document still
  overwrites the victim. The key index is not unique. Afterwards two
  documents can hold one key (`BoundedScenarios.DuplicateKeys`).
- A read hit at capacity writes only `{expires, count}` to the victim,
  whatever key the victim holds. When the victim holds another key, the
  document that was read is not refreshed (`BoundedScenarios.TouchLandsOnVictim`, `BoundedCache.GetDataHit`).
- That read returns the victim's document, with the victim's key and value
  (`BoundedScenarios.TouchLandsOnVictim`). So a `getData` right after a set
  made below capacity can return another key once the set filled the
  store, whenever the victim holds a different key.
- After these effects, a lookup can find an older duplicate of the key
  rather than the value just written (`BoundedScenarios.ReadAfterWriteReturnsOlderDuplicate`).
- The round trip holds when the store is below capacity both before and
  after the set (`BoundedCache.SetThenGetDataBelowCapacity`). It can fail
  in the two cases above.
- The counter written at capacity is the requested key's count plus one,
  not the victim's count. A miss at capacity therefore writes count 1.
- The schema's TTL is `CACHE_MAX_AGE` after `expires`, and `expires` is
  already `now + CACHE_MAX_AGE`. A document survives the sweep for two
  maximum ages after its last write (`BoundedCache.WrittenDocumentLifetime`).
- `getKeys` passes `maxEntries` to the store as a limit. A limit of 0 means
  no limit there, so with `maxEntries = 0` every key is listed (`BoundedCache.KeyLimit`).
  For writes the guard also needs a non-empty snapshot, so `maxEntries = 0`
  behaves as a capacity of 1 (`BoundedCache.Capacity`, `BoundedCache.AtCapacity`).
- The unbounded controller keeps keys unique when run sequentially
  (`UnboundedCache.SetDataKeepsKeysUnique` and its siblings). Its documents
  have no `expires`, so the sweep never removes them.

## Model

| member | source | states |
|---|---|---|
| `CacheModel.NewRecord` | src/models/Cache.ts:14-17 | a document created with only key and value takes the default count 1 and has no expiry |
| `Ordering.Sort` | src/controllers/CacheController.ts:69-75 | the snapshot is a permutation of the store's documents, sorted ascending by expiry (absent first), then count |
| `Ordering.SortByRankIsLexicographic` | src/controllers/CacheController.ts:48-51 | over creation order, the stable sort orders by expiry, then count, then creation (earliest created first on full ties) |
| `DocumentStore.FindFirst` | src/controllers/CacheController.ts:84-85 | the position of the first document in natural order that the filter matches, or none exactly when no document matches |
| `DocumentStore.FindOne` | src/controllers/CacheController.ts:149 | `findOne({key})` returns a matching document exactly when one exists, and it is the first match in natural order |
| `DocumentStore.Upsert` | src/controllers/CacheController.ts:84-95 | definition of `findOneAndUpdate` with `{new: true, upsert: true}`; see `DocumentStore.UpsertEffect` |
| `DocumentStore.UpsertEffect` | src/controllers/CacheController.ts:84-95 | an upsert rewrites only the first match, keeping its id and creation, or appends exactly one new document; present patch fields are written, absent ones keep their old values, and `updatedAt` is `now` |
| `CacheModel.Patched` | src/controllers/CacheController.ts:86-90 | definition of applying an update document; see `DocumentStore.UpsertEffect` |
| `DocumentStore.UpsertPreservesValid` | src/models/Cache.ts:15 | an upsert keeps ids distinct, creation order increasing and every count at least 1 |
| `DocumentStore.Create` | src/controllers/Cache.controller.ts:46-49 | `save` appends one fresh document with default count and no expiry, keeping the invariant |
| `DocumentStore.DeleteFirst` | src/controllers/CacheController.ts:221-223 | definition of `findOneAndDelete({key})`; see `DocumentStore.DeleteFirstEffect` |
| `DocumentStore.DeleteFirstEffect` | src/controllers/CacheController.ts:221-223 | delete-by-key removes exactly the first holder of the key and returns it, keeps all other documents in order, and returns nothing when no document holds the key |
| `DocumentStore.DeleteFirstKeepsValid` | src/controllers/Cache.controller.ts:85-87 | delete-by-key keeps the store invariant |
| `DocumentStore.DeleteAll` | src/controllers/CacheController.ts:251 | `deleteMany({})` empties the store and reports how many documents were removed |
| `DocumentStore.Purge` | src/models/Cache.ts:18 | the expiry sweep keeps exactly the documents without expiry or less than the TTL past it |
| `DocumentStore.PurgeKeepsValid` | src/models/Cache.ts:18 | the sweep keeps the store invariant |
| `DocumentStore.Store.FindOneAndUpdate` | src/controllers/CacheController.ts:84-95 | the store's new contents and returned document are those of `Upsert` |
| `DocumentStore.Store.Save` | src/controllers/Cache.controller.ts:46-49 | the store's new contents and returned document are those of `Create` |
| `DocumentStore.Store.FindOneAndDelete` | src/controllers/CacheController.ts:221-223 | the store's new contents and returned document are those of `DeleteFirst` |
| `DocumentStore.Store.DeleteMany` | src/controllers/CacheController.ts:251 | the store is emptied and the removed count is its old size |
| `DocumentStore.Store.PurgeExpired` | src/models/Cache.ts:18 | the store's new contents are those of `Purge` |
| `BoundedCache.Expiration` | src/controllers/CacheController.ts:17-21 | definition of `getExpiration` as `now + maxAge`; see `BoundedCache.UpsertKeyWrites` |
| `BoundedCache.AtCapacity` | src/controllers/CacheController.ts:78 | the guard holds exactly when the snapshot has reached `max(maxEntries, 1)` documents |
| `BoundedCache.WriteTarget` | src/controllers/CacheController.ts:78-82 | the write goes through the first snapshot entry's id exactly when the guard holds, otherwise through the caller's `{key}` |
| `BoundedCache.WritePatch` | src/controllers/CacheController.ts:86-90 | the update keeps the caller's key and value fields and always sets `expires = now + maxAge` and a count of at least 1 |
| `BoundedCache.UpsertKeyResult` | src/controllers/CacheController.ts:64-96 | definition of `upsertKey`; see `BoundedCache.UpsertAtCapacity`, `BoundedCache.UpsertBelowCapacity`, `BoundedCache.UpsertKeyWrites`, `BoundedCache.UpsertKeySize` |
| `BoundedCache.GetDataResult` | src/controllers/CacheController.ts:137-163 | definition of `getData`; see `BoundedCache.GetDataHit`, `BoundedCache.GetDataMiss` |
| `BoundedCache.Counter` | src/controllers/CacheController.ts:28-31 | the counter is at least 1: one more than the count of the first snapshot entry holding the key, or 1 when none does |
| `BoundedCache.CounterFollowsLeastHolder` | src/controllers/CacheController.ts:28-31 | the counter is 1 when no document holds the key, else one more than the count of the least holder in (expires, count, creation) order |
| `BoundedCache.VictimIsLeastValuable` | src/controllers/CacheController.ts:69-82 | the first snapshot entry is a stored document and the unique least one in (expires, count, creation) order |
| `BoundedCache.TieBreakByCount` | src/controllers/CacheController.ts:49 | of two documents with equal expiry, the one with the higher count is not the victim |
| `BoundedCache.TieBreakByExpiry` | src/controllers/CacheController.ts:50 | of two documents with equal count, the one expiring later is not the victim |
| `BoundedCache.TieBreakByCreation` | src/controllers/CacheController.ts:51 | of two documents with equal expiry and count, the later-created one is not the victim |
| `BoundedCache.UpsertAtCapacity` | src/controllers/CacheController.ts:78-90 | at or over capacity the victim is overwritten in place whatever key is asked for; it keeps its id and creation and takes the patch's key and value |
| `BoundedCache.UpsertBelowCapacity` | src/controllers/CacheController.ts:84-95 | below capacity the first holder of the key is updated in place, or one new document with that key is appended |
| `BoundedCache.UpsertKeyWrites` | src/controllers/CacheController.ts:17-21 | the written document has `expires = now + maxAge`, the snapshot's counter (at least 1) and `updatedAt = now`; every document with another id is unchanged |
| `BoundedCache.UpsertKeySize` | src/controllers/CacheController.ts:78-95 | at capacity the size is unchanged, below it grows by at most one, so a store within `max(maxEntries, 1)` stays within it |
| `BoundedCache.UpsertKeyPreservesValid` | src/controllers/CacheController.ts:84-90 | every upsert keeps the store invariant, counts at least 1 included |
| `BoundedCache.WrittenDocumentLifetime` | src/models/Cache.ts:18 | a document just written survives the sweep exactly until `2 * maxAge` seconds after the write |
| `BoundedCache.SetDataWrites` | src/controllers/CacheController.ts:111-117 | `setData` always writes the requested key and value, even onto an evicted document |
| `BoundedCache.SetThenGetBelowCapacity` | src/controllers/CacheController.ts:104-117 | below capacity, a lookup of the key after `setData` returns the document just written, with the new value |
| `BoundedCache.SetThenGetDataBelowCapacity` | src/controllers/CacheController.ts:149-163 | when the store is below capacity before and after `setData(key, value)`, a following `getData(key)` returns a document with that key and value |
| `BoundedCache.GetDataHit` | src/controllers/CacheController.ts:158-163 | a hit never inserts; the rewritten document keeps key and value, takes the new expiry and the hit key's counter, and is the victim at capacity |
| `BoundedCache.GetDataMiss` | src/controllers/CacheController.ts:152-157 | a miss writes the requested key with the generated 10-character value, count 1 and a fresh expiry |
| `BoundedCache.GetDataMissOnEmpty` | src/controllers/CacheController.ts:152-157 | a miss on an empty store creates exactly one document, with count 1 |
| `BoundedCache.RecentRecords` | src/controllers/CacheController.ts:190-192 | at most `limit` documents, newest `updatedAt` first, each left out updated no later than each kept |
| `BoundedCache.KeyLimit` | src/controllers/CacheController.ts:192 | `.limit(maxEntries)` lets through `min(n, maxEntries)` documents, or all of them when `maxEntries` is 0 |
| `BoundedCache.GetKeys` | src/controllers/CacheController.ts:190-196 | exactly `KeyLimit` keys (at most `maxEntries` when positive), those of the most recently updated documents, newest first |
| `BoundedCache.UpsertKey` | src/controllers/CacheController.ts:64-96 | the store's new contents and returned document are those of `UpsertKeyResult`; the invariant is kept |
| `BoundedCache.SetData` | src/controllers/CacheController.ts:104-117 | performs `upsertKey({key}, {key, value})` and returns a document with that key and value |
| `BoundedCache.GetData` | src/controllers/CacheController.ts:137-163 | the store's new contents and returned document are those of `GetDataResult` (full write on a miss, touch on a hit) |
| `BoundedCache.RemoveKey` | src/controllers/CacheController.ts:214-223 | the effect and result of `DeleteFirst` |
| `BoundedCache.RemoveAll` | src/controllers/CacheController.ts:245-251 | the store is emptied, the id counter is kept, and the removed count is its old size |
| `UnboundedCache.SetDataResult` | src/controllers/Cache.controller.ts:15-25 | definition of `setData`; see `UnboundedCache.SetDataEffect` |
| `UnboundedCache.GetDataResult` | src/controllers/Cache.controller.ts:41-52 | definition of `getData`; see `UnboundedCache.GetDataEffect` |
| `UnboundedCache.SetDataEffect` | src/controllers/Cache.controller.ts:15-25 | `setData` sets only the value on the first holder, keeping count and expiry; otherwise it appends exactly one document with default count and no expiry, at any size |
| `UnboundedCache.SetDataKeepsKeysUnique` | src/controllers/Cache.controller.ts:15-25 | `setData` never gives a key a second document |
| `UnboundedCache.GetDataEffect` | src/controllers/Cache.controller.ts:41-52 | a miss appends one document with the key, the generated 10-character value, count 1 and no expiry; a hit returns the first holder and leaves the store unchanged |
| `UnboundedCache.GetDataKeepsKeysUnique` | src/controllers/Cache.controller.ts:41-52 | `getData` never gives a key a second document |
| `UnboundedCache.RemoveKeyKeepsKeysUnique` | src/controllers/Cache.controller.ts:85-87 | `removeKey` never gives a key a second document |
| `UnboundedCache.GetKeys` | src/controllers/Cache.controller.ts:71 | the key of every document, in natural order, with no limit; a key is listed exactly when some document holds it |
| `UnboundedCache.SetData` | src/controllers/Cache.controller.ts:8-25 | the store's new contents and returned document are those of `SetDataResult` |
| `UnboundedCache.GetData` | src/controllers/Cache.controller.ts:34-52 | the store's new contents and returned document are those of `GetDataResult` |
| `UnboundedCache.RemoveKey` | src/controllers/Cache.controller.ts:79-87 | the effect and result of `DeleteFirst` |
| `UnboundedCache.RemoveAll` | src/controllers/Cache.controller.ts:94-99 | the store is emptied, the id counter is kept, and the removed count is its old size |
| `BoundedScenarios.TwoWrites` | src/controllers/CacheController.ts:84-95 | two writes to new keys on an empty store of capacity 2 insert both, each with count 1 |
| `BoundedScenarios.EvictEarliestExpiry` | src/controllers/CacheController.ts:78-82 | a third key evicts the document written first; the store then holds b and c |
| `BoundedScenarios.EvictLowerCountOnEqualExpiry` | src/controllers/CacheController.ts:49 | on equal expiry the document with count 1 sorts before the one with count 5, in either creation order |
| `BoundedScenarios.DuplicateKeys` | src/controllers/CacheController.ts:78-90 | at capacity, setting an existing key overwrites another document, leaving two documents with one key |
| `BoundedScenarios.TouchLandsOnVictim` | src/controllers/CacheController.ts:158-163 | a read hit at capacity refreshes the victim with the read key's count plus one, leaves the read document untouched, and returns the victim's document |
| `BoundedScenarios.ReadAfterWriteReturnsOlderDuplicate` | src/controllers/CacheController.ts:149 | after such a touch, setting a key at capacity lands on another document, and the next lookup returns the older value |

## Left out

- HTTP plumbing is not modelled: request parsing, status codes, JSON messages, logging and the try/catch error paths. A store failure is an exception there and is not modelled either.
- The database connection, schema registration and environment parsing are not modelled. `maxEntries` and `maxAge` are plain integer parameters. `Environment.ts` inverts its `isNaN` test, so numeric settings fall back to the defaults; the model does not capture this.
- `Date` arithmetic is replaced by integer seconds. `generateText` is replaced by a parameter that must have length 10.
- `DocumentStore.Purge` is an idealised sweep that runs at the instant given. The store's TTL monitor runs periodically, about once a minute, so a document becomes eligible for removal at `expires + CACHE_MAX_AGE` and disappears some time after. `BoundedCache.WrittenDocumentLifetime` is exact only for the idealised step.
- Concurrency is not modelled: each request runs to completion against the store. So the race between the snapshot and the upsert is outside the model.
- The store's sort is modelled as stable over natural order, with natural order equal to creation order. The creation tie-break (CacheController.ts:51) rests on this; the store does not guarantee it.
- The upsert branches that cannot happen sequentially are filled in without claiming fidelity: an insert with no value or key gets an empty string, and an insert through `{_id}` uses that id. `BoundedCache.GetDataHit` and `BoundedCache.UpsertAtCapacity` prove these branches are never taken.
- An upsert that inserts applies the schema default count, as the store library does by default from its version 6 on. An older version would insert the unbounded `setData` document without a count; this is not modelled.
- `UnboundedCache.GetKeys` returns the key strings. The source returns `{key}` objects.
- `BoundedCache.GetKeys` states the order through `RecentRecords`. Among documents with equal `updatedAt` the model keeps natural order, which the store does not promise.
