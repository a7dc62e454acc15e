/**
 * The two sort orders the controllers ask the store for, and the store's
 * sort itself, modelled as a stable insertion sort over the store's natural
 * (creation) order.
 */
module Ordering {
  import opened Wrappers
  import opened CacheModel

  /**
   * `ByRank` is `.sort({expires: 1, count: 1})`; `ByRecency` is
   * `.sort("-updatedAt")`.
   */
  datatype Order = ByRank | ByRecency

  /** Ascending order on an optional time: an absent value sorts first. */
  predicate ExpiresBefore(a: Option<int>, b: Option<int>)
  {
    (a.None? && b.Some?) || (a.Some? && b.Some? && a.value < b.value)
  }

  /** `a` may come before `b` under order `o` (a total preorder). */
  predicate Le(o: Order, a: CacheRecord, b: CacheRecord)
  {
    match o
    case ByRank =>
      ExpiresBefore(a.expires, b.expires) || (a.expires == b.expires && a.count <= b.count)
    case ByRecency =>
      a.updatedAt >= b.updatedAt
  }

  predicate Sorted(o: Order, s: seq<CacheRecord>)
  {
    forall i, j :: 0 <= i < j < |s| ==> Le(o, s[i], s[j])
  }

  /**
   * The full eviction order: expiry, then count, then creation order.
   * This is the order the comment at CacheController.ts lines 48-51 promises.
   */
  predicate RankPrecedes(a: CacheRecord, b: CacheRecord)
  {
    || ExpiresBefore(a.expires, b.expires)
    || (a.expires == b.expires && a.count < b.count)
    || (a.expires == b.expires && a.count == b.count && a.created <= b.created)
  }

  /** The natural order of the store: strictly increasing creation order. */
  predicate CreationOrdered(s: seq<CacheRecord>)
  {
    forall i, j :: 0 <= i < j < |s| ==> s[i].created < s[j].created
  }

  lemma LeTotal(o: Order, a: CacheRecord, b: CacheRecord)
    ensures Le(o, a, b) || Le(o, b, a)
  {
  }

  lemma LeTransitive(o: Order, a: CacheRecord, b: CacheRecord, c: CacheRecord)
    requires Le(o, a, b) && Le(o, b, c)
    ensures Le(o, a, c)
  {
  }

  /** Places `x` before the first element it may precede, after all others. */
  function Insert(o: Order, x: CacheRecord, s: seq<CacheRecord>): (r: seq<CacheRecord>)
    ensures multiset(r) == multiset(s) + multiset{x}
    ensures |r| == |s| + 1
  {
    if s == [] then [x]
    else if Le(o, x, s[0]) then [x] + s
    else
      assert s == [s[0]] + s[1..];
      [s[0]] + Insert(o, x, s[1..])
  }

  /** The stable sort: earlier elements stay ahead of later equal ones. */
  function Sort(o: Order, s: seq<CacheRecord>): (r: seq<CacheRecord>)
    ensures multiset(r) == multiset(s)
    ensures |r| == |s|
    ensures Sorted(o, r)
  {
    if s == [] then []
    else
      assert s == [s[0]] + s[1..];
      InsertSorted(o, s[0], Sort(o, s[1..]));
      Insert(o, s[0], Sort(o, s[1..]))
  }

  lemma {:induction false} InsertSorted(o: Order, x: CacheRecord, s: seq<CacheRecord>)
    requires Sorted(o, s)
    ensures Sorted(o, Insert(o, x, s))
  {
    if s == [] {
    } else if Le(o, x, s[0]) {
      forall j | 0 < j < |s| + 1 ensures Le(o, x, ([x] + s)[j]) {
        LeTransitive(o, x, s[0], s[j - 1]);
      }
    } else {
      LeTotal(o, x, s[0]);
      var t := Insert(o, x, s[1..]);
      InsertSorted(o, x, s[1..]);
      forall j | 0 <= j < |t| ensures Le(o, s[0], t[j]) {
        assert t[j] in multiset(s[1..]) + multiset{x} by { assert t[j] in multiset(t); }
        if t[j] != x {
          assert t[j] in s[1..];
        }
      }
    }
  }

  /**
   * Sorting a creation-ordered sequence by rank yields the full eviction
   * order: on equal expiry and count the earlier-created record comes first.
   */
  lemma {:induction false} SortByRankIsLexicographic(s: seq<CacheRecord>)
    requires CreationOrdered(s)
    ensures forall i, j :: 0 <= i < j < |Sort(ByRank, s)| ==>
      RankPrecedes(Sort(ByRank, s)[i], Sort(ByRank, s)[j])
  {
    if s != [] {
      var t := Sort(ByRank, s[1..]);
      SortByRankIsLexicographic(s[1..]);
      forall y | y in t ensures s[0].created < y.created {
        assert y in multiset(s[1..]) by { assert y in multiset(t); }
        var k :| 0 <= k < |s[1..]| && s[1..][k] == y;
        assert s[k + 1] == y;
      }
      InsertLexicographic(s[0], t);
    }
  }

  lemma {:induction false} InsertLexicographic(x: CacheRecord, s: seq<CacheRecord>)
    requires forall i, j :: 0 <= i < j < |s| ==> RankPrecedes(s[i], s[j])
    requires forall y :: y in s ==> x.created < y.created
    ensures forall i, j :: 0 <= i < j < |Insert(ByRank, x, s)| ==>
      RankPrecedes(Insert(ByRank, x, s)[i], Insert(ByRank, x, s)[j])
  {
    if s == [] {
    } else if Le(ByRank, x, s[0]) {
      var r := [x] + s;
      forall j | 0 < j < |r| ensures RankPrecedes(x, r[j]) {
        assert r[j] == s[j - 1];
        assert RankPrecedes(x, s[0]);
        RankTransitive(x, s[0], s[j - 1]);
      }
    } else {
      var t := Insert(ByRank, x, s[1..]);
      InsertLexicographic(x, s[1..]);
      forall j | 0 <= j < |t| ensures RankPrecedes(s[0], t[j]) {
        assert t[j] in multiset(s[1..]) + multiset{x} by { assert t[j] in multiset(t); }
        if t[j] != x {
          assert t[j] in s[1..];
        }
      }
    }
  }

  /** The first element holding `key` in a sequence in eviction order precedes every other holder. */
  lemma FirstHolderPrecedes(s: seq<CacheRecord>, k: nat, key: string)
    requires forall i, j :: 0 <= i < j < |s| ==> RankPrecedes(s[i], s[j])
    requires k < |s| && s[k].key == key
    requires forall j :: 0 <= j < k ==> s[j].key != key
    ensures forall j :: 0 <= j < |s| && s[j].key == key ==> RankPrecedes(s[k], s[j])
  {
    forall j | 0 <= j < |s| && s[j].key == key ensures RankPrecedes(s[k], s[j]) {
      if j > k { assert RankPrecedes(s[k], s[j]); }
    }
  }

  /** In a sorted sequence, everything in a prefix may precede everything after it. */
  lemma SortedSplit(o: Order, s: seq<CacheRecord>, n: nat)
    requires Sorted(o, s) && n <= |s|
    ensures forall x, y :: x in s[n..] && y in s[..n] ==> Le(o, y, x)
  {
    forall x, y | x in s[n..] && y in s[..n] ensures Le(o, y, x) {
      var a :| 0 <= a < n && s[..n][a] == y;
      var b :| 0 <= b < |s| - n && s[n..][b] == x;
      assert s[a] == y && s[n + b] == x;
    }
  }

  /** Sorting keeps exactly the same elements. */
  lemma SortMembers(o: Order, s: seq<CacheRecord>)
    ensures forall x :: x in Sort(o, s) <==> x in s
  {
    var r := Sort(o, s);
    forall x ensures x in r <==> x in s {
      assert x in r <==> x in multiset(r);
      assert x in s <==> x in multiset(s);
    }
  }

  lemma RankTransitive(a: CacheRecord, b: CacheRecord, c: CacheRecord)
    requires RankPrecedes(a, b) && RankPrecedes(b, c)
    ensures RankPrecedes(a, c)
  {
  }

  /** Two records that each precede the other have equal creation order. */
  lemma RankAntisymmetric(a: CacheRecord, b: CacheRecord)
    requires RankPrecedes(a, b) && RankPrecedes(b, a)
    ensures a.created == b.created
  {
  }
}
