/**
 * The cache of src/controllers/Cache.controller.ts, the one the router
 * serves: a plain upsert/find-or-create over the store, with no capacity,
 * no counter and no expiry.
 */
module UnboundedCache {
  import opened Wrappers
  import opened CacheModel
  import opened DocumentStore

  /** No two documents hold the same key. */
  predicate UniqueKeys(records: seq<CacheRecord>)
  {
    forall i, j :: 0 <= i < j < |records| ==> records[i].key != records[j].key
  }

  /** What `setData(key, value)` does: `findOneAndUpdate({key}, {value, key}, upsert)`. */
  function SetDataResult(st: StoreState, key: string, value: string, now: int): Written
  {
    Upsert(st, ByKey(key), Patch(Some(key), Some(value), None, None), now)
  }

  /**
   * `setData` writes only the key and the value: an existing first holder
   * of the key keeps its count and expiry; otherwise exactly one document
   * is appended, with the schema's default count and no expiry, however
   * many documents the store already holds.
   */
  lemma SetDataEffect(st: StoreState, key: string, value: string, now: int)
    ensures var w := SetDataResult(st, key, value, now);
      match FindFirst(st.records, ByKey(key))
      case Some(i) =>
        && w.state.records == st.records[i := w.doc]
        && w.doc == st.records[i].(value := value, updatedAt := now)
      case None =>
        && w.state.records == st.records + [w.doc]
        && |w.state.records| == |st.records| + 1
        && w.doc == NewRecord(st.nextSeq, st.nextSeq, key, value, now)
  {
    UpsertEffect(st, ByKey(key), Patch(Some(key), Some(value), None, None), now);
  }

  /** `setData` never gives a key a second document. */
  lemma SetDataKeepsKeysUnique(st: StoreState, key: string, value: string, now: int)
    requires UniqueKeys(st.records)
    ensures UniqueKeys(SetDataResult(st, key, value, now).state.records)
  {
    SetDataEffect(st, key, value, now);
    var s' := SetDataResult(st, key, value, now).state.records;
    match FindFirst(st.records, ByKey(key))
    case Some(i) =>
      forall a, b | 0 <= a < b < |s'| ensures s'[a].key != s'[b].key {
        if a != i && b != i { assert s'[a] == st.records[a] && s'[b] == st.records[b]; }
      }
    case None =>
  }

  /** What `getData(key)` does; `generated` stands for `generateText(10)`. */
  function GetDataResult(st: StoreState, key: string, generated: string, now: int): Written
  {
    match FindOne(st.records, ByKey(key))
    case None => Create(st, key, generated, now)
    case Some(r) => Written(st, r)
  }

  /**
   * A miss appends one new document with the requested key, the generated
   * ten-character value, count 1 and no expiry; a hit returns the first
   * holder of the key and leaves the store exactly as it was.
   */
  lemma GetDataEffect(st: StoreState, key: string, generated: string, now: int)
    requires |generated| == GeneratedLength
    ensures var w := GetDataResult(st, key, generated, now);
      && ((forall r :: r in st.records ==> r.key != key) ==>
            && w.state.records == st.records + [w.doc]
            && w.doc.key == key && w.doc.value == generated && |w.doc.value| == 10
            && w.doc.count == 1 && w.doc.expires.None?)
      && ((exists r :: r in st.records && r.key == key) ==>
            && w.state == st
            && w.doc.key == key && w.doc in st.records
            && exists i :: 0 <= i < |st.records| && st.records[i] == w.doc &&
                 forall j :: 0 <= j < i ==> st.records[j].key != key)
  {
    var f := FindFirst(st.records, ByKey(key));
    if f.None? {
      forall i | 0 <= i < |st.records| ensures st.records[i].key != key {
        assert !Matches(st.records[i], ByKey(key));
      }
    } else {
      var i := f.value;
      assert st.records[i] in st.records;
    }
  }

  /** `getData` never gives a key a second document. */
  lemma GetDataKeepsKeysUnique(st: StoreState, key: string, generated: string, now: int)
    requires UniqueKeys(st.records) && |generated| == GeneratedLength
    ensures UniqueKeys(GetDataResult(st, key, generated, now).state.records)
  {
    GetDataEffect(st, key, generated, now);
  }

  /** `removeKey` never gives a key a second document. */
  lemma RemoveKeyKeepsKeysUnique(st: StoreState, key: string)
    requires UniqueKeys(st.records)
    ensures UniqueKeys(DeleteFirst(st, key).0.records)
  {
    match FindFirst(st.records, ByKey(key))
    case None =>
    case Some(i) =>
      var s := st.records;
      var s' := s[..i] + s[i + 1..];
      forall a | 0 <= a < |s'| ensures s'[a] == s[if a < i then a else a + 1] {
      }
  }

  /**
   * `getKeys()`: the key of every document, in the store's natural order,
   * with neither a limit nor a sort.
   */
  function GetKeys(records: seq<CacheRecord>): (keys: seq<string>)
    ensures |keys| == |records|
    ensures forall i :: 0 <= i < |records| ==> keys[i] == records[i].key
    ensures forall k :: k in keys <==> exists r :: r in records && r.key == k
  {
    if records == [] then []
    else
      var rest := GetKeys(records[1..]);
      assert forall r :: r in records[1..] ==> r in records;
      assert forall r :: r in records ==> r == records[0] || r in records[1..];
      [records[0].key] + rest
  }

  // ----- The controller over a store object ---------------------------------

  /** `setData(key, value)`. */
  method SetData(store: Store, key: string, value: string, now: int) returns (doc: CacheRecord)
    requires store.Valid()
    modifies store
    ensures store.Valid()
    ensures Written(store.State(), doc) == SetDataResult(old(store.State()), key, value, now)
  {
    doc := store.FindOneAndUpdate(ByKey(key), Patch(Some(key), Some(value), None, None), now);
  }

  /** `getData(key)`; `generated` stands for `generateText(10)`. */
  method GetData(store: Store, key: string, generated: string, now: int) returns (doc: CacheRecord)
    requires store.Valid()
    requires |generated| == GeneratedLength
    modifies store
    ensures store.Valid()
    ensures Written(store.State(), doc) == GetDataResult(old(store.State()), key, generated, now)
  {
    var found := FindOne(store.records, ByKey(key));
    if found.None? {
      doc := store.Save(key, generated, now);
    } else {
      doc := found.value;
    }
  }

  /** `removeKey(key)`: the document removed, if any. */
  method RemoveKey(store: Store, key: string) returns (removed: Option<CacheRecord>)
    requires store.Valid()
    modifies store
    ensures store.Valid()
    ensures (store.State(), removed) == DeleteFirst(old(store.State()), key)
  {
    removed := store.FindOneAndDelete(key);
  }

  /** `removeAll()`: the number of documents removed. */
  method RemoveAll(store: Store) returns (deletedCount: nat)
    requires store.Valid()
    modifies store
    ensures store.Valid() && store.records == [] && store.nextSeq == old(store.nextSeq)
    ensures deletedCount == |old(store.records)|
  {
    deletedCount := store.DeleteMany();
  }
}
