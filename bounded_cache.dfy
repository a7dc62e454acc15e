/**
 * The bounded cache of src/controllers/CacheController.ts: every write reads
 * a snapshot of all documents ordered by (expires, count), and once the
 * store holds `maxEntries` documents the write is redirected to the first
 * document of that snapshot, whatever key it holds.
 */
module BoundedCache {
  import opened Wrappers
  import opened CacheModel
  import opened Ordering
  import opened DocumentStore

  /** CACHE_MAX_ENTRIES and CACHE_MAX_AGE (seconds), passed in explicitly. */
  datatype Config = Config(maxEntries: nat, maxAge: int)

  /** The most documents the cache keeps: a store of zero is never full while empty. */
  function Capacity(cfg: Config): nat
  {
    if cfg.maxEntries == 0 then 1 else cfg.maxEntries
  }

  /** `getExpiration()` at time `now`. */
  function Expiration(cfg: Config, now: int): int
  {
    now + cfg.maxAge
  }

  /** The snapshot `upsertKey` reads: every document, by (expires, count). */
  function Snapshot(records: seq<CacheRecord>): seq<CacheRecord>
  {
    Sort(ByRank, records)
  }

  /**
   * `getCounter(records, {key})`: one more than the count of the first
   * snapshot entry holding `key`, or 1 when there is none.
   */
  function Counter(snapshot: seq<CacheRecord>, key: string): (c: nat)
    ensures c >= DefaultCount
    ensures (forall i :: 0 <= i < |snapshot| ==> snapshot[i].key != key) ==> c == 1
    ensures forall i ::
      (0 <= i < |snapshot| && snapshot[i].key == key && forall j :: 0 <= j < i ==> snapshot[j].key != key)
      ==> c == snapshot[i].count + 1
  {
    if |snapshot| == 0 then 1
    else
      match FindFirst(snapshot, ByKey(key))
      case None => 0 + 1
      case Some(i) => snapshot[i].count + 1
  }

  /** The guard `records.length && records.length >= CACHE_MAX_ENTRIES`. */
  predicate AtCapacity(size: nat, cfg: Config)
    ensures AtCapacity(size, cfg) <==> size >= Capacity(cfg)
  {
    size > 0 && size >= cfg.maxEntries
  }

  /** The filter `upsertKey` finally writes through. */
  function WriteTarget(snapshot: seq<CacheRecord>, key: string, cfg: Config): (f: Filter)
    ensures f.ById? <==> |snapshot| >= Capacity(cfg)
    ensures f.ById? ==> |snapshot| > 0 && f.id == snapshot[0].id
    ensures f.ByKey? ==> f.key == key
  {
    if AtCapacity(|snapshot|, cfg) then ById(snapshot[0].id) else ByKey(key)
  }

  /** The update document `{...data, expires, count}`. */
  function WritePatch(data: Patch, snapshot: seq<CacheRecord>, key: string, cfg: Config, now: int): (p: Patch)
    ensures p.key == data.key && p.value == data.value
    ensures p.expires == Some(now + cfg.maxAge)
    ensures p.count.Some? && p.count.value >= DefaultCount
  {
    data.(expires := Some(Expiration(cfg, now)), count := Some(Counter(snapshot, key)))
  }

  /** What `upsertKey({key}, data)` does to the store at time `now`. */
  function UpsertKeyResult(st: StoreState, cfg: Config, key: string, data: Patch, now: int): Written
  {
    var snapshot := Snapshot(st.records);
    Upsert(st, WriteTarget(snapshot, key, cfg), WritePatch(data, snapshot, key, cfg, now), now)
  }

  /** `{key, value}`: the patch of `setData`, and of `getData` on a miss. */
  function SetPatch(key: string, value: string): Patch
  {
    Patch(Some(key), Some(value), None, None)
  }

  /** `{expires}`: the patch of `getData` on a hit. */
  function TouchPatch(cfg: Config, now: int): Patch
  {
    Patch(None, None, Some(Expiration(cfg, now)), None)
  }

  /** What `getData(key)` does to the store at time `now`. */
  function GetDataResult(st: StoreState, cfg: Config, key: string, generated: string, now: int): Written
  {
    if FindOne(st.records, ByKey(key)).None? then
      UpsertKeyResult(st, cfg, key, SetPatch(key, generated), now)
    else
      UpsertKeyResult(st, cfg, key, TouchPatch(cfg, now), now)
  }

  // ----- The victim ---------------------------------------------------------

  /**
   * The first snapshot entry is the unique least document of the store in
   * the order (expires, count, creation): earliest expiry first, then lowest
   * count, then earliest created.
   */
  lemma VictimIsLeastValuable(st: StoreState)
    requires ValidState(st) && |st.records| > 0
    ensures Snapshot(st.records)[0] in st.records
    ensures forall r :: r in st.records ==> RankPrecedes(Snapshot(st.records)[0], r)
    ensures forall m :: m in st.records && (forall r :: r in st.records ==> RankPrecedes(m, r)) ==>
      m == Snapshot(st.records)[0]
  {
    var s := st.records;
    var snap := Snapshot(s);
    assert snap[0] in multiset(s) by { assert snap[0] in multiset(snap); }
    SortByRankIsLexicographic(s);
    forall r | r in s ensures RankPrecedes(snap[0], r) {
      assert r in multiset(snap) by { assert r in multiset(s); }
      var k :| 0 <= k < |snap| && snap[k] == r;
      if k > 0 { assert RankPrecedes(snap[0], snap[k]); }
    }
    forall m | m in s && (forall r :: r in s ==> RankPrecedes(m, r)) ensures m == snap[0] {
      RankAntisymmetric(m, snap[0]);
      SameCreationSameRecord(st, m, snap[0]);
    }
  }

  /** In a valid store the creation number identifies a document. */
  lemma SameCreationSameRecord(st: StoreState, a: CacheRecord, b: CacheRecord)
    requires ValidState(st) && a in st.records && b in st.records && a.created == b.created
    ensures a == b
  {
    var i :| 0 <= i < |st.records| && st.records[i] == a;
    var j :| 0 <= j < |st.records| && st.records[j] == b;
    assert !(i < j) && !(j < i);
  }

  /** In a valid store the `_id` identifies a document. */
  lemma SameIdSameIndex(st: StoreState, i: nat, j: nat)
    requires ValidState(st) && i < |st.records| && j < |st.records|
    requires st.records[i].id == st.records[j].id
    ensures i == j
  {
    assert !(i < j) && !(j < i);
  }

  /** Of two documents with equal expiry, the one with the higher count is never the victim. */
  lemma TieBreakByCount(st: StoreState, a: CacheRecord, b: CacheRecord)
    requires ValidState(st) && a in st.records && b in st.records
    requires a.expires == b.expires && a.count < b.count
    ensures Snapshot(st.records)[0] != b
  {
    VictimIsLeastValuable(st);
  }

  /** Of two documents with equal count, the one expiring later is never the victim. */
  lemma TieBreakByExpiry(st: StoreState, a: CacheRecord, b: CacheRecord)
    requires ValidState(st) && a in st.records && b in st.records
    requires a.count == b.count && ExpiresBefore(a.expires, b.expires)
    ensures Snapshot(st.records)[0] != b
  {
    VictimIsLeastValuable(st);
  }

  /** Of two documents with equal expiry and count, the later-created one is never the victim. */
  lemma TieBreakByCreation(st: StoreState, a: CacheRecord, b: CacheRecord)
    requires ValidState(st) && a in st.records && b in st.records
    requires a.expires == b.expires && a.count == b.count && a.created < b.created
    ensures Snapshot(st.records)[0] != b
  {
    VictimIsLeastValuable(st);
  }

  /**
   * The counter follows the least document (in eviction order) that holds
   * the key, and is 1 when no document holds it.
   */
  lemma CounterFollowsLeastHolder(st: StoreState, key: string)
    requires ValidState(st)
    ensures (forall r :: r in st.records ==> r.key != key) ==> Counter(Snapshot(st.records), key) == 1
    ensures (exists r :: r in st.records && r.key == key) ==>
      exists m :: m in st.records && m.key == key &&
        (forall r :: r in st.records && r.key == key ==> RankPrecedes(m, r)) &&
        Counter(Snapshot(st.records), key) == m.count + 1
  {
    var s := st.records;
    var snap := Snapshot(s);
    SortMembers(ByRank, s);
    var f := FindFirst(snap, ByKey(key));
    if f.Some? {
      var k := f.value;
      SortByRankIsLexicographic(s);
      FirstHolderPrecedes(snap, k, key);
      assert Counter(snap, key) == snap[k].count + 1;
      forall r | r in s && r.key == key ensures RankPrecedes(snap[k], r) {
        var j :| 0 <= j < |snap| && snap[j] == r;
      }
    } else {
      forall r | r in s ensures r.key != key {
        var j :| 0 <= j < |snap| && snap[j] == r;
      }
    }
  }

  // ----- One upsert ---------------------------------------------------------

  /**
   * At capacity the write lands on the victim, whatever key was asked for:
   * the victim keeps its `_id` and creation, takes the patch's key and
   * value when present, and nothing else in the store changes.
   */
  lemma UpsertAtCapacity(st: StoreState, cfg: Config, key: string, data: Patch, now: int)
    requires ValidState(st) && AtCapacity(|st.records|, cfg)
    ensures var victim := Snapshot(st.records)[0];
      var w := UpsertKeyResult(st, cfg, key, data, now);
      && w.state.nextSeq == st.nextSeq
      && (exists i :: 0 <= i < |st.records| && st.records[i] == victim &&
            w.state.records == st.records[i := w.doc])
      && w.doc.id == victim.id && w.doc.created == victim.created
      && w.doc.key == data.key.GetOr(victim.key)
      && w.doc.value == data.value.GetOr(victim.value)
  {
    var s := st.records;
    var snap := Snapshot(s);
    VictimIsLeastValuable(st);
    var p := WritePatch(data, snap, key, cfg, now);
    var k :| 0 <= k < |s| && s[k] == snap[0];
    var f := FindFirst(s, ById(snap[0].id));
    assert f.Some?;
    SameIdSameIndex(st, f.value, k);
    UpsertEffect(st, ById(snap[0].id), p, now);
    assert s[k := Upsert(st, ById(snap[0].id), p, now).doc] == Upsert(st, ById(snap[0].id), p, now).state.records;
  }

  /**
   * Below capacity the write goes through the caller's `{key}`: the first
   * document holding the key is updated in place, or, when none holds it,
   * one new document is appended.
   */
  lemma UpsertBelowCapacity(st: StoreState, cfg: Config, key: string, data: Patch, now: int)
    requires !AtCapacity(|st.records|, cfg)
    ensures var w := UpsertKeyResult(st, cfg, key, data, now);
      match FindFirst(st.records, ByKey(key))
      case Some(i) =>
        && w.state.records == st.records[i := w.doc]
        && w.doc.id == st.records[i].id && w.doc.created == st.records[i].created
        && w.doc.key == data.key.GetOr(key)
        && w.doc.value == data.value.GetOr(st.records[i].value)
      case None =>
        && w.state.records == st.records + [w.doc]
        && w.doc.id == st.nextSeq && w.doc.created == st.nextSeq
        && w.doc.key == data.key.GetOr(key)
        && w.doc.value == data.value.GetOr("")
  {
    var snap := Snapshot(st.records);
    var w := UpsertKeyResult(st, cfg, key, data, now);
    UpsertEffect(st, ByKey(key), WritePatch(data, snap, key, cfg, now), now);
    match FindFirst(st.records, ByKey(key))
    case Some(i) =>
      assert w.state.records == st.records[i := w.doc];
    case None =>
  }

  /**
   * Every upsert writes `expires = now + maxAge`, the snapshot's counter for
   * the requested key and `updatedAt = now`; every document with another
   * `_id` is left as it was.
   */
  lemma UpsertKeyWrites(st: StoreState, cfg: Config, key: string, data: Patch, now: int)
    requires ValidState(st)
    ensures var w := UpsertKeyResult(st, cfg, key, data, now);
      && w.doc.expires == Some(now + cfg.maxAge)
      && w.doc.count == Counter(Snapshot(st.records), key)
      && w.doc.count >= DefaultCount
      && w.doc.updatedAt == now
      && w.doc in w.state.records
      && |w.state.records| >= |st.records|
      && (forall j :: 0 <= j < |st.records| && st.records[j].id != w.doc.id ==>
            w.state.records[j] == st.records[j])
  {
    var snap := Snapshot(st.records);
    var f := WriteTarget(snap, key, cfg);
    var p := WritePatch(data, snap, key, cfg, now);
    UpsertEffect(st, f, p, now);
    var w := Upsert(st, f, p, now);
    match FindFirst(st.records, f)
    case Some(i) =>
      assert w.doc == w.state.records[i];
    case None =>
      assert w.doc == w.state.records[|st.records|];
      forall j | 0 <= j < |st.records| ensures w.state.records[j] == st.records[j] {
      }
  }

  /**
   * Store size: below capacity an upsert adds at most one document; at
   * capacity it adds none; so a store within the bound stays within it.
   */
  lemma UpsertKeySize(st: StoreState, cfg: Config, key: string, data: Patch, now: int)
    ensures var n := |st.records|;
      var n' := |UpsertKeyResult(st, cfg, key, data, now).state.records|;
      && (AtCapacity(n, cfg) ==> n' == n)
      && (!AtCapacity(n, cfg) ==> n <= n' <= n + 1)
      && (n <= Capacity(cfg) ==> n' <= Capacity(cfg))
  {
    var s := st.records;
    var snap := Snapshot(s);
    var f := WriteTarget(snap, key, cfg);
    UpsertEffect(st, f, WritePatch(data, snap, key, cfg, now), now);
    if AtCapacity(|s|, cfg) {
      assert snap[0] in multiset(s) by { assert snap[0] in multiset(snap); }
      var k :| 0 <= k < |s| && s[k] == snap[0];
      assert Matches(s[k], f);
    }
  }

  /** Every upsert keeps the store's invariant. */
  lemma UpsertKeyPreservesValid(st: StoreState, cfg: Config, key: string, data: Patch, now: int)
    requires ValidState(st)
    ensures ValidState(UpsertKeyResult(st, cfg, key, data, now).state)
  {
    var snap := Snapshot(st.records);
    UpsertPreservesValid(st, WriteTarget(snap, key, cfg), WritePatch(data, snap, key, cfg, now), now);
  }

  /**
   * The store's sweep, whose lifetime is also `maxAge`, removes a document
   * `maxAge` seconds after its `expires`: a document just written survives
   * exactly until `2 * maxAge` seconds after the write.
   */
  lemma WrittenDocumentLifetime(st: StoreState, cfg: Config, key: string, data: Patch, now: int, t: int)
    requires ValidState(st)
    ensures Live(UpsertKeyResult(st, cfg, key, data, now).doc, t, cfg.maxAge) <==> t < now + 2 * cfg.maxAge
  {
    UpsertKeyWrites(st, cfg, key, data, now);
  }

  // ----- The handlers -------------------------------------------------------

  /** `setData` always writes the requested key and value, even onto an evicted document. */
  lemma SetDataWrites(st: StoreState, cfg: Config, key: string, value: string, now: int)
    ensures var w := UpsertKeyResult(st, cfg, key, SetPatch(key, value), now);
      w.doc.key == key && w.doc.value == value && w.doc in w.state.records
  {
    var snap := Snapshot(st.records);
    var f := WriteTarget(snap, key, cfg);
    UpsertEffect(st, f, WritePatch(SetPatch(key, value), snap, key, cfg, now), now);
  }

  /**
   * Below capacity, a read right after `setData(key, value)` finds the value
   * just written.
   */
  lemma SetThenGetBelowCapacity(st: StoreState, cfg: Config, key: string, value: string, now: int)
    requires !AtCapacity(|st.records|, cfg)
    ensures var w := UpsertKeyResult(st, cfg, key, SetPatch(key, value), now);
      FindOne(w.state.records, ByKey(key)) == Some(w.doc) && w.doc.value == value
  {
    var s := st.records;
    var w := UpsertKeyResult(st, cfg, key, SetPatch(key, value), now);
    UpsertBelowCapacity(st, cfg, key, SetPatch(key, value), now);
    match FindFirst(s, ByKey(key))
    case Some(i) =>
      FindFirstAfterRewrite(s, i, w.doc, key);
    case None =>
      FindFirstAfterAppend(s, w.doc, key);
  }

  /**
   * Below capacity before and after, `getData` right after
   * `setData(key, value)` returns a document with that key and value.
   */
  lemma SetThenGetDataBelowCapacity(st: StoreState, cfg: Config, key: string, value: string,
                                    now: int, generated: string, later: int)
    requires !AtCapacity(|st.records|, cfg)
    requires !AtCapacity(|UpsertKeyResult(st, cfg, key, SetPatch(key, value), now).state.records|, cfg)
    ensures var w := UpsertKeyResult(st, cfg, key, SetPatch(key, value), now);
      var r := GetDataResult(w.state, cfg, key, generated, later).doc;
      r.key == key && r.value == value
  {
    var w := UpsertKeyResult(st, cfg, key, SetPatch(key, value), now);
    SetThenGetBelowCapacity(st, cfg, key, value, now);
    UpsertBelowCapacity(w.state, cfg, key, TouchPatch(cfg, later), later);
  }

  /**
   * A read hit is a touch: it never inserts, and the document it writes
   * keeps its key and value while taking a new expiry and the hit key's
   * counter. Below capacity that document is the first one holding the key;
   * at capacity it is the victim, whatever key the victim holds.
   */
  lemma GetDataHit(st: StoreState, cfg: Config, key: string, generated: string, now: int)
    requires ValidState(st) && FindOne(st.records, ByKey(key)).Some?
    ensures var w := GetDataResult(st, cfg, key, generated, now);
      && |w.state.records| == |st.records|
      && w.state.nextSeq == st.nextSeq
      && w.doc.expires == Some(now + cfg.maxAge)
      && w.doc.count == Counter(Snapshot(st.records), key)
      && exists i :: 0 <= i < |st.records| &&
           w.state.records == st.records[i := w.doc]
           && w.doc.key == st.records[i].key && w.doc.value == st.records[i].value
           && w.doc.id == st.records[i].id
           && (!AtCapacity(|st.records|, cfg) ==> Some(st.records[i]) == FindOne(st.records, ByKey(key)))
           && (AtCapacity(|st.records|, cfg) ==> st.records[i] == Snapshot(st.records)[0])
  {
    var s := st.records;
    var p := TouchPatch(cfg, now);
    var w := UpsertKeyResult(st, cfg, key, p, now);
    UpsertKeyWrites(st, cfg, key, p, now);
    if AtCapacity(|s|, cfg) {
      UpsertAtCapacity(st, cfg, key, p, now);
      var i :| 0 <= i < |s| && s[i] == Snapshot(s)[0] && w.state.records == s[i := w.doc];
      assert w.state.records == s[i := w.doc];
    } else {
      UpsertBelowCapacity(st, cfg, key, p, now);
      var i := FindFirst(s, ByKey(key)).value;
      assert w.state.records == s[i := w.doc];
    }
  }

  /**
   * A read miss writes the requested key with the generated value, and its
   * counter starts at 1 because no document holds the key.
   */
  lemma GetDataMiss(st: StoreState, cfg: Config, key: string, generated: string, now: int)
    requires ValidState(st) && FindOne(st.records, ByKey(key)).None?
    requires |generated| == GeneratedLength
    ensures var w := GetDataResult(st, cfg, key, generated, now);
      && w.doc.key == key && w.doc.value == generated && |w.doc.value| == 10
      && w.doc.count == 1
      && w.doc.expires == Some(now + cfg.maxAge)
      && w.doc in w.state.records
  {
    SetDataWrites(st, cfg, key, generated, now);
    UpsertKeyWrites(st, cfg, key, SetPatch(key, generated), now);
    CounterFollowsLeastHolder(st, key);
  }

  /** A read miss on an empty store creates exactly one document, with count 1. */
  lemma GetDataMissOnEmpty(cfg: Config, nextSeq: nat, key: string, generated: string, now: int)
    requires |generated| == GeneratedLength
    ensures var w := GetDataResult(StoreState([], nextSeq), cfg, key, generated, now);
      && w.state.records == [w.doc]
      && w.doc == CacheRecord(nextSeq, key, generated, 1, Some(now + cfg.maxAge), nextSeq, now)
  {
    assert Snapshot([]) == [];
  }

  /**
   * `getKeys`' selection: at most `limit` documents, newest `updatedAt`
   * first, every document left out updated no later than every one kept.
   */
  function RecentRecords(records: seq<CacheRecord>, limit: nat): (top: seq<CacheRecord>)
    ensures |top| == if |records| < limit then |records| else limit
    ensures multiset(top) <= multiset(records)
    ensures forall i, j :: 0 <= i < j < |top| ==> top[i].updatedAt >= top[j].updatedAt
    ensures forall x, y :: x in multiset(records) - multiset(top) && y in top ==> x.updatedAt <= y.updatedAt
  {
    var sorted := Sort(ByRecency, records);
    var n := if |records| < limit then |records| else limit;
    PrefixOfSorted(sorted, n);
    sorted[..n]
  }

  /** The properties of `RecentRecords` for any sequence sorted newest first. */
  lemma PrefixOfSorted(s: seq<CacheRecord>, n: nat)
    requires Sorted(ByRecency, s) && n <= |s|
    ensures multiset(s[..n]) <= multiset(s)
    ensures forall x, y :: x in multiset(s) - multiset(s[..n]) && y in s[..n] ==> x.updatedAt <= y.updatedAt
  {
    assert s == s[..n] + s[n..];
    assert multiset(s) - multiset(s[..n]) == multiset(s[n..]);
    SortedSplit(ByRecency, s, n);
  }

  /** The number of documents `.limit(maxEntries)` lets through: a limit of 0 means no limit. */
  function KeyLimit(records: seq<CacheRecord>, cfg: Config): (n: nat)
    ensures n <= |records|
    ensures cfg.maxEntries == 0 ==> n == |records|
    ensures cfg.maxEntries > 0 ==> n == if |records| < cfg.maxEntries then |records| else cfg.maxEntries
  {
    if cfg.maxEntries == 0 || |records| < cfg.maxEntries then |records| else cfg.maxEntries
  }

  /**
   * `getKeys()`: the keys of the `maxEntries` most recently updated
   * documents, newest first (all of them when `maxEntries` is 0).
   */
  function GetKeys(records: seq<CacheRecord>, cfg: Config): (keys: seq<string>)
    ensures |keys| == KeyLimit(records, cfg)
    ensures |keys| == |RecentRecords(records, KeyLimit(records, cfg))|
    ensures cfg.maxEntries > 0 ==> |keys| <= cfg.maxEntries
    ensures forall i :: 0 <= i < |keys| ==> keys[i] == RecentRecords(records, KeyLimit(records, cfg))[i].key
  {
    var top := RecentRecords(records, KeyLimit(records, cfg));
    seq(|top|, i requires 0 <= i < |top| => top[i].key)
  }

  // ----- The controller over a store object ---------------------------------

  /** `upsertKey({key}, data)`. */
  method UpsertKey(store: Store, cfg: Config, key: string, data: Patch, now: int) returns (doc: CacheRecord)
    requires store.Valid()
    modifies store
    ensures store.Valid()
    ensures Written(store.State(), doc) == UpsertKeyResult(old(store.State()), cfg, key, data, now)
  {
    var snapshot := Snapshot(store.records);
    var filter := ByKey(key);
    if AtCapacity(|snapshot|, cfg) {
      filter := ById(snapshot[0].id);
    }
    doc := store.FindOneAndUpdate(filter, WritePatch(data, snapshot, key, cfg, now), now);
  }

  /** `setData(key, value)`. */
  method SetData(store: Store, cfg: Config, key: string, value: string, now: int) returns (doc: CacheRecord)
    requires store.Valid()
    modifies store
    ensures store.Valid()
    ensures Written(store.State(), doc) == UpsertKeyResult(old(store.State()), cfg, key, SetPatch(key, value), now)
    ensures doc.key == key && doc.value == value
  {
    SetDataWrites(store.State(), cfg, key, value, now);
    doc := UpsertKey(store, cfg, key, SetPatch(key, value), now);
  }

  /** `getData(key)`; `generated` stands for `generateText(10)`. */
  method GetData(store: Store, cfg: Config, key: string, generated: string, now: int) returns (doc: CacheRecord)
    requires store.Valid()
    requires |generated| == GeneratedLength
    modifies store
    ensures store.Valid()
    ensures Written(store.State(), doc) == GetDataResult(old(store.State()), cfg, key, generated, now)
  {
    var found := FindOne(store.records, ByKey(key));
    if found.None? {
      doc := UpsertKey(store, cfg, key, SetPatch(key, generated), now);
    } else {
      doc := UpsertKey(store, cfg, key, TouchPatch(cfg, now), now);
    }
  }

  /** `removeKey(key)`: the document removed, if any. */
  method RemoveKey(store: Store, key: string) returns (removed: Option<CacheRecord>)
    requires store.Valid()
    modifies store
    ensures store.Valid()
    ensures (store.State(), removed) == DeleteFirst(old(store.State()), key)
  {
    removed := store.FindOneAndDelete(key);
  }

  /** `removeAll()`: the number of documents removed. */
  method RemoveAll(store: Store) returns (deletedCount: nat)
    requires store.Valid()
    modifies store
    ensures store.Valid() && store.records == [] && store.nextSeq == old(store.nextSeq)
    ensures deletedCount == |old(store.records)|
  {
    deletedCount := store.DeleteMany();
  }
}
