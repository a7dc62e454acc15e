/**
 * Concrete runs of the bounded cache with `maxEntries = 2` and
 * `maxAge = 3600`, one request per second from an empty store.
 */
module BoundedScenarios {
  import opened Wrappers
  import opened CacheModel
  import opened Ordering
  import opened DocumentStore
  import opened BoundedCache

  const Cfg := Config(2, 3600)

  /** The store after `setData("a", "1")` at 0 and `setData("b", "2")` at 1. */
  const A1 := CacheRecord(0, "a", "1", 1, Some(3600), 0, 0)
  const B1 := CacheRecord(1, "b", "2", 1, Some(3601), 1, 1)

  lemma TwoWrites()
    ensures var w1 := UpsertKeyResult(StoreState([], 0), Cfg, "a", SetPatch("a", "1"), 0);
      && w1.state == StoreState([A1], 1)
      && UpsertKeyResult(w1.state, Cfg, "b", SetPatch("b", "2"), 1).state == StoreState([A1, B1], 2)
  {
    assert Snapshot([]) == [];
    assert Snapshot([A1]) == [A1];
    assert FindFirst([A1], ByKey("b")) == None by {
      assert FindFirst([A1][1..], ByKey("b")) == None;
    }
  }

  /** The snapshot of that store: `a` expires first. */
  lemma SnapshotOfTwo()
    ensures Snapshot([A1, B1]) == [A1, B1]
  {
    assert [A1, B1][1..] == [B1];
    assert Sort(ByRank, [B1]) == [B1];
  }

  /** Writing a third key evicts `a`, the earliest to expire: the store holds b and c. */
  lemma EvictEarliestExpiry()
    ensures UpsertKeyResult(StoreState([A1, B1], 2), Cfg, "c", SetPatch("c", "3"), 2).state.records
      == [CacheRecord(0, "c", "3", 1, Some(3602), 0, 2), B1]
  {
    SnapshotOfTwo();
    assert FindFirst([A1, B1], ByKey("c")) == None by {
      assert [A1, B1][1..] == [B1];
      assert FindFirst([B1][1..], ByKey("c")) == None;
    }
  }

  /** On equal expiry the lower count is evicted: `x` (count 1) goes before `y` (count 5). */
  lemma EvictLowerCountOnEqualExpiry()
    ensures var x := CacheRecord(0, "x", "1", 1, Some(100), 0, 0);
      var y := CacheRecord(1, "y", "2", 5, Some(100), 1, 0);
      Snapshot([y, x])[0] == x && Snapshot([x, y])[0] == x
  {
    var x := CacheRecord(0, "x", "1", 1, Some(100), 0, 0);
    var y := CacheRecord(1, "y", "2", 5, Some(100), 1, 0);
    assert [y, x][1..] == [x] && [x, y][1..] == [y];
    assert Sort(ByRank, [x]) == [x] && Sort(ByRank, [y]) == [y];
    assert [x][1..] == [];
  }

  /**
   * At capacity, `setData("b", "9")` overwrites `a` even though `b` already
   * has a document: two documents now hold the key `b`.
   */
  lemma DuplicateKeys()
    ensures var s := UpsertKeyResult(StoreState([A1, B1], 2), Cfg, "b", SetPatch("b", "9"), 2).state.records;
      s == [CacheRecord(0, "b", "9", 2, Some(3602), 0, 2), B1]
      && s[0].key == s[1].key
  {
    SnapshotOfTwo();
    assert Counter([A1, B1], "b") == 2;
  }

  /**
   * At capacity, a read hit on `b` refreshes `a` instead: `a` takes the new
   * expiry and `b`'s count plus one, `b` itself is left untouched, and the
   * read returns `a`'s document, key "a" and value "1".
   */
  lemma TouchLandsOnVictim()
    ensures var w := GetDataResult(StoreState([A1, B1], 2), Cfg, "b", "xxxxxxxxxx", 2);
      && w.state.records == [CacheRecord(0, "a", "1", 2, Some(3602), 0, 2), B1]
      && w.doc == CacheRecord(0, "a", "1", 2, Some(3602), 0, 2)
  {
    SnapshotOfTwo();
    assert FindOne([A1, B1], ByKey("b")) == Some(B1) by {
      assert [A1, B1][1..] == [B1];
    }
    assert Counter([A1, B1], "b") == 2;
  }

  /** The store after that touch: `b` now expires first. */
  const A2 := CacheRecord(0, "a", "1", 2, Some(3602), 0, 2)

  /**
   * After the touch, `setData("a", "v")` evicts `b` and writes `a` there; the
   * older document of `a` stays first, so the next read of `a` returns the
   * old value "1", not "v".
   */
  lemma ReadAfterWriteReturnsOlderDuplicate()
    ensures var s := UpsertKeyResult(StoreState([A2, B1], 2), Cfg, "a", SetPatch("a", "v"), 3).state.records;
      && s == [A2, CacheRecord(1, "a", "v", 3, Some(3603), 1, 3)]
      && FindOne(s, ByKey("a")) == Some(A2)
      && FindOne(s, ByKey("a")).value.value == "1"
  {
    assert [A2, B1][1..] == [B1] && [B1, A2][1..] == [A2];
    assert Sort(ByRank, [B1]) == [B1];
    assert Sort(ByRank, [A2, B1]) == [B1, A2];
    assert Counter([B1, A2], "a") == 3;
  }
}
