/**
 * The document store both controllers talk to, modelled abstractly: the
 * operations of the store's model that the controllers call
 * (`find`/`sort`/`limit`, `findOne`, `findOneAndUpdate` with
 * `{new: true, upsert: true}`, `save`, `findOneAndDelete`, `deleteMany`)
 * and the store's background expiry of documents past their `expires`.
 * Records are kept in the store's natural order, which is creation order.
 */
module DocumentStore {
  import opened Wrappers
  import opened CacheModel

  /** A query filter: `{key}` or `{_id}`. */
  datatype Filter = ByKey(key: string) | ById(id: nat)

  predicate Matches(r: CacheRecord, f: Filter)
  {
    match f
    case ByKey(k) => r.key == k
    case ById(i) => r.id == i
  }

  /** The position of the first document, in natural order, that `f` matches. */
  function FindFirst(records: seq<CacheRecord>, f: Filter): (r: Option<nat>)
    ensures r.Some? ==> r.value < |records| && Matches(records[r.value], f)
    ensures r.Some? ==> forall j :: 0 <= j < r.value ==> !Matches(records[j], f)
    ensures r.None? <==> forall j :: 0 <= j < |records| ==> !Matches(records[j], f)
  {
    if records == [] then None
    else if Matches(records[0], f) then Some(0)
    else
      match FindFirst(records[1..], f)
      case None => None
      case Some(i) => Some(i + 1)
  }

  /** Rewriting the first holder of a key with a document of that key keeps it the first holder. */
  lemma FindFirstAfterRewrite(s: seq<CacheRecord>, i: nat, doc: CacheRecord, key: string)
    requires FindFirst(s, ByKey(key)) == Some(i) && doc.key == key
    ensures FindFirst(s[i := doc], ByKey(key)) == Some(i)
  {
    assert Matches(s[i := doc][i], ByKey(key));
  }

  /** Appending a document of a key no document holds makes it the first holder. */
  lemma FindFirstAfterAppend(s: seq<CacheRecord>, doc: CacheRecord, key: string)
    requires FindFirst(s, ByKey(key)) == None && doc.key == key
    ensures FindFirst(s + [doc], ByKey(key)) == Some(|s|)
  {
    assert Matches((s + [doc])[|s|], ByKey(key));
  }

  /** The store's contents, and the next fresh `_id`/creation number. */
  datatype StoreState = StoreState(records: seq<CacheRecord>, nextSeq: nat)

  /**
   * What holds of every state the store reaches: creation order is strictly
   * increasing along the natural order, identifiers are distinct and below
   * `nextSeq`, and every count is at least the schema default.
   */
  predicate ValidState(st: StoreState)
  {
    && (forall i, j :: 0 <= i < j < |st.records| ==>
          st.records[i].created < st.records[j].created && st.records[i].id != st.records[j].id)
    && (forall i :: 0 <= i < |st.records| ==>
          st.records[i].created < st.nextSeq && st.records[i].id < st.nextSeq &&
          st.records[i].count >= DefaultCount)
  }

  /** The result of a write: the new state and the document as written. */
  datatype Written = Written(state: StoreState, doc: CacheRecord)

  /** `findOne(filter)`: the first matching document in natural order. */
  function FindOne(records: seq<CacheRecord>, f: Filter): (r: Option<CacheRecord>)
    ensures r.Some? <==> exists i :: 0 <= i < |records| && Matches(records[i], f)
    ensures r.Some? ==> r.value in records && Matches(r.value, f)
    ensures r.Some? ==>
      exists i :: 0 <= i < |records| && records[i] == r.value && (forall j :: 0 <= j < i ==> !Matches(records[j], f))
  {
    match FindFirst(records, f)
    case None => None
    case Some(i) => Some(records[i])
  }

  /**
   * The document an upsert creates when nothing matches: the filter's own
   * field, the schema default count, creation number `nextSeq`; then the
   * patch is applied. A string field that neither the filter nor the patch
   * supplies is empty.
   */
  function UpsertSeed(f: Filter, nextSeq: nat, now: int): CacheRecord
  {
    match f
    case ByKey(k) => CacheRecord(nextSeq, k, "", DefaultCount, None, nextSeq, now)
    case ById(i) => CacheRecord(i, "", "", DefaultCount, None, nextSeq, now)
  }

  /** `findOneAndUpdate(f, p, {new: true, upsert: true})` at time `now`. */
  function Upsert(st: StoreState, f: Filter, p: Patch, now: int): Written
  {
    match FindFirst(st.records, f)
    case Some(i) =>
      var doc := Patched(st.records[i], p, now);
      Written(StoreState(st.records[i := doc], st.nextSeq), doc)
    case None =>
      var doc := Patched(UpsertSeed(f, st.nextSeq, now), p, now);
      var next := if f.ById? && f.id >= st.nextSeq then f.id + 1 else st.nextSeq + 1;
      Written(StoreState(st.records + [doc], next), doc)
  }

  /**
   * An upsert rewrites the first matching document in place and leaves
   * every other document where and as it was; when nothing matches it
   * appends exactly one new document that the filter matches.
   */
  lemma UpsertEffect(st: StoreState, f: Filter, p: Patch, now: int)
    ensures var w := Upsert(st, f, p, now);
      match FindFirst(st.records, f)
      case Some(i) =>
        && |w.state.records| == |st.records|
        && w.state.records[i] == w.doc
        && w.doc.id == st.records[i].id && w.doc.created == st.records[i].created
        && (forall j :: 0 <= j < |st.records| && j != i ==> w.state.records[j] == st.records[j])
        && (p.key.None? ==> w.doc.key == st.records[i].key)
        && (p.value.None? ==> w.doc.value == st.records[i].value)
        && (p.expires.None? ==> w.doc.expires == st.records[i].expires)
        && (p.count.None? ==> w.doc.count == st.records[i].count)
      case None =>
        && w.state.records == st.records + [w.doc]
        && (p.key.None? ==> Matches(w.doc, f))
    ensures Upsert(st, f, p, now).doc.updatedAt == now
    ensures p.count.Some? ==> Upsert(st, f, p, now).doc.count == p.count.value
    ensures p.expires.Some? ==> Upsert(st, f, p, now).doc.expires == p.expires
    ensures p.value.Some? ==> Upsert(st, f, p, now).doc.value == p.value.value
    ensures p.key.Some? ==> Upsert(st, f, p, now).doc.key == p.key.value
  {
  }

  /** An upsert keeps the store's invariant, provided any count it writes is positive. */
  lemma UpsertPreservesValid(st: StoreState, f: Filter, p: Patch, now: int)
    requires ValidState(st)
    requires p.count.Some? ==> p.count.value >= DefaultCount
    ensures ValidState(Upsert(st, f, p, now).state)
  {
    var w := Upsert(st, f, p, now);
    match FindFirst(st.records, f)
    case Some(i) =>
    case None =>
      assert w.state.records == st.records + [w.doc];
      if f.ById? {
        var r := w.state.records;
        forall j | 0 <= j < |st.records| ensures r[j].id != w.doc.id {
          assert !Matches(st.records[j], f);
        }
      }
  }

  /** `new Cache({value, key}).save()` at time `now`. */
  function Create(st: StoreState, key: string, value: string, now: int): (w: Written)
    ensures w.doc == NewRecord(st.nextSeq, st.nextSeq, key, value, now)
    ensures w.state.records == st.records + [w.doc]
    ensures ValidState(st) ==> ValidState(w.state)
  {
    var doc := NewRecord(st.nextSeq, st.nextSeq, key, value, now);
    Written(StoreState(st.records + [doc], st.nextSeq + 1), doc)
  }

  /**
   * `findOneAndDelete({key})`: removes the first document with `key` and
   * returns it, or returns nothing and leaves the store unchanged.
   */
  function DeleteFirst(st: StoreState, key: string): (StoreState, Option<CacheRecord>)
  {
    match FindFirst(st.records, ByKey(key))
    case None => (st, None)
    case Some(i) =>
      (StoreState(st.records[..i] + st.records[i + 1..], st.nextSeq), Some(st.records[i]))
  }

  /**
   * Deleting by key removes exactly one document, the first one holding
   * the key, if there is one, and keeps every other document in order.
   */
  lemma DeleteFirstEffect(st: StoreState, key: string)
    ensures var (st', removed) := DeleteFirst(st, key);
      && (removed.Some? <==> exists i :: 0 <= i < |st.records| && st.records[i].key == key)
      && (removed.None? ==> st' == st)
      && (removed.Some? ==>
            && removed.value.key == key
            && |st'.records| == |st.records| - 1
            && multiset(st'.records) + multiset{removed.value} == multiset(st.records)
            && (forall r :: r in st.records && r.key != key ==> r in st'.records)
            && (exists i :: 0 <= i < |st.records| && st.records[i] == removed.value &&
                  (forall j :: 0 <= j < i ==> st.records[j].key != key) &&
                  st'.records == st.records[..i] + st.records[i + 1..]))
  {
    match FindFirst(st.records, ByKey(key))
    case None =>
    case Some(i) =>
      var s := st.records;
      var s' := s[..i] + s[i + 1..];
      RemoveAtEffect(s, i);
      forall r | r in s && r.key != key ensures r in s' {
        assert r in multiset(s);
      }
  }

  /** Removing position `i` removes exactly that element. */
  lemma RemoveAtEffect(s: seq<CacheRecord>, i: nat)
    requires i < |s|
    ensures multiset(s[..i] + s[i + 1..]) + multiset{s[i]} == multiset(s)
  {
    assert s == s[..i] + [s[i]] + s[i + 1..];
  }

  /** Deleting by key keeps the store's invariant. */
  lemma DeleteFirstKeepsValid(st: StoreState, key: string)
    requires ValidState(st)
    ensures ValidState(DeleteFirst(st, key).0)
  {
    match FindFirst(st.records, ByKey(key))
    case None =>
    case Some(i) =>
      var s := st.records;
      var s' := s[..i] + s[i + 1..];
      forall a | 0 <= a < |s'| ensures s'[a] == s[if a < i then a else a + 1] {
      }
  }

  /** `deleteMany({})`: the store is emptied and the number removed reported. */
  function DeleteAll(st: StoreState): (r: (StoreState, nat))
    ensures r.0.records == [] && r.0.nextSeq == st.nextSeq
    ensures r.1 == |st.records|
  {
    (StoreState([], st.nextSeq), |st.records|)
  }

  /** Whether the store's expiry sweep keeps `r` at time `now`. */
  predicate Live(r: CacheRecord, now: int, ttl: int)
  {
    r.expires.None? || now < r.expires.value + ttl
  }

  /**
   * The store's expiry sweep: a document is removed once `ttl` seconds have
   * passed since its `expires`; a document without `expires` is never removed.
   */
  function Purge(records: seq<CacheRecord>, now: int, ttl: int): (r: seq<CacheRecord>)
    ensures |r| <= |records|
    ensures forall x :: x in r <==> x in records && Live(x, now, ttl)
  {
    if records == [] then []
    else if Live(records[0], now, ttl) then [records[0]] + Purge(records[1..], now, ttl)
    else Purge(records[1..], now, ttl)
  }

  /** The expiry sweep keeps the store's invariant. */
  lemma {:induction false} PurgeKeepsValid(st: StoreState, now: int, ttl: int)
    requires ValidState(st)
    ensures ValidState(StoreState(Purge(st.records, now, ttl), st.nextSeq))
    decreases |st.records|
  {
    var s := st.records;
    if s != [] {
      var rest := StoreState(s[1..], st.nextSeq);
      PurgeKeepsValid(rest, now, ttl);
      if Live(s[0], now, ttl) {
        var r := Purge(s, now, ttl);
        var t := Purge(s[1..], now, ttl);
        assert r == [s[0]] + t;
        forall j | 0 < j < |r| ensures r[0].created < r[j].created && r[0].id != r[j].id {
          assert r[j] == t[j - 1];
          assert r[j] in s[1..];
          var k :| 0 <= k < |s[1..]| && s[1..][k] == r[j];
          assert s[k + 1] == r[j];
        }
      }
    }
  }

  class Store {
    var records: seq<CacheRecord>
    var nextSeq: nat

    function State(): StoreState
      reads this
    {
      StoreState(records, nextSeq)
    }

    ghost predicate Valid()
      reads this
    {
      ValidState(State())
    }

    constructor ()
      ensures Valid() && records == []
    {
      records := [];
      nextSeq := 0;
    }

    method FindOneAndUpdate(f: Filter, p: Patch, now: int) returns (doc: CacheRecord)
      requires Valid()
      requires p.count.Some? ==> p.count.value >= DefaultCount
      modifies this
      ensures Valid()
      ensures Written(State(), doc) == Upsert(old(State()), f, p, now)
    {
      UpsertPreservesValid(State(), f, p, now);
      var w := Upsert(State(), f, p, now);
      records, nextSeq, doc := w.state.records, w.state.nextSeq, w.doc;
    }

    method Save(key: string, value: string, now: int) returns (doc: CacheRecord)
      requires Valid()
      modifies this
      ensures Valid()
      ensures Written(State(), doc) == Create(old(State()), key, value, now)
    {
      var w := Create(State(), key, value, now);
      records, nextSeq, doc := w.state.records, w.state.nextSeq, w.doc;
    }

    method FindOneAndDelete(key: string) returns (removed: Option<CacheRecord>)
      requires Valid()
      modifies this
      ensures Valid()
      ensures (State(), removed) == DeleteFirst(old(State()), key)
    {
      DeleteFirstKeepsValid(State(), key);
      var res := DeleteFirst(State(), key);
      records, nextSeq, removed := res.0.records, res.0.nextSeq, res.1;
    }

    method DeleteMany() returns (deletedCount: nat)
      requires Valid()
      modifies this
      ensures Valid()
      ensures records == [] && nextSeq == old(nextSeq)
      ensures deletedCount == |old(records)|
    {
      deletedCount := |records|;
      records := [];
    }

    /** The store's background expiry, run at time `now` with lifetime `ttl`. */
    method PurgeExpired(now: int, ttl: int)
      requires Valid()
      modifies this
      ensures Valid()
      ensures records == Purge(old(records), now, ttl) && nextSeq == old(nextSeq)
    {
      PurgeKeepsValid(State(), now, ttl);
      records := Purge(records, now, ttl);
    }
  }
}
