/**
 Ordering and sorting used by both analysis functions: Python's string
 ordering, a three-part ranking key (weight descending, tie-break ascending,
 label ascending), a stable insertion sort by that key (Python's sorted), and
 Python's xs[:k] slice.
 */
module Ranking {

  /** Python's str < : lexicographic by code point, a proper prefix first. */
  predicate StrLt(a: string, b: string)
    decreases |a|
  {
    if a == [] then b != []
    else if b == [] then false
    else if a[0] != b[0] then a[0] < b[0]
    else StrLt(a[1..], b[1..])
  }

  predicate StrLe(a: string, b: string) {
    a == b || StrLt(a, b)
  }

  lemma {:induction false} StrLtIrreflexive(a: string)
    ensures !StrLt(a, a)
    decreases |a|
  {
    if a != [] {
      StrLtIrreflexive(a[1..]);
    }
  }

  /** Any two strings are ordered one way or the other. */
  lemma {:induction false} StrLtTotal(a: string, b: string)
    ensures a == b || StrLt(a, b) || StrLt(b, a)
    decreases |a|
  {
    if a != [] && b != [] && a[0] == b[0] {
      StrLtTotal(a[1..], b[1..]);
      if a[1..] == b[1..] {
        assert a == [a[0]] + a[1..] && b == [b[0]] + b[1..];
      }
    }
  }

  /** The string order is strict: never both ways. */
  lemma {:induction false} StrLtAsymmetric(a: string, b: string)
    ensures !(StrLt(a, b) && StrLt(b, a))
    decreases |a|
  {
    if a != [] && b != [] && a[0] == b[0] {
      StrLtAsymmetric(a[1..], b[1..]);
    }
  }

  /** The string order is transitive. */
  lemma {:induction false} StrLtTransitive(a: string, b: string, c: string)
    requires StrLt(a, b) && StrLt(b, c)
    ensures StrLt(a, c)
    decreases |a|
  {
    if a != [] && a[0] == b[0] && b[0] == c[0] {
      StrLtTransitive(a[1..], b[1..], c[1..]);
    }
  }

  /**
   A sort key: larger weight first, then smaller tie-break, then text in
   string order. Python's (-score, popularity, name) tuple comparison.
   */
  datatype RankKey = RankKey(weight: int, tiebreak: int, text: string)

  /** key a may come before key b. */
  predicate RankLe(a: RankKey, b: RankKey) {
    || a.weight > b.weight
    || (a.weight == b.weight && a.tiebreak < b.tiebreak)
    || (a.weight == b.weight && a.tiebreak == b.tiebreak && StrLe(a.text, b.text))
  }

  /** RankLe is a total preorder in which only equal keys precede each other both ways. */
  lemma RankLeTotal(a: RankKey, b: RankKey)
    ensures RankLe(a, b) || RankLe(b, a)
  {
    StrLtTotal(a.text, b.text);
  }

  lemma RankLeAntisymmetric(a: RankKey, b: RankKey)
    requires RankLe(a, b) && RankLe(b, a)
    ensures a == b
  {
    StrLtAsymmetric(a.text, b.text);
  }

  lemma RankLeTransitive(a: RankKey, b: RankKey, c: RankKey)
    requires RankLe(a, b) && RankLe(b, c)
    ensures RankLe(a, c)
  {
    if a.weight == b.weight == c.weight && a.tiebreak == b.tiebreak == c.tiebreak
       && StrLt(a.text, b.text) && StrLt(b.text, c.text) {
      StrLtTransitive(a.text, b.text, c.text);
    }
  }

  /** Every earlier element's key may precede every later one's. */
  ghost predicate SortedBy<T>(s: seq<T>, key: T -> RankKey) {
    forall i, j :: 0 <= i < j < |s| ==> RankLe(key(s[i]), key(s[j]))
  }

  /** The elements of s whose key is exactly k, in their order in s. */
  function WithKey<T>(s: seq<T>, key: T -> RankKey, k: RankKey): (r: seq<T>)
    ensures |r| <= |s|
  {
    if s == [] then []
    else (if key(s[0]) == k then [s[0]] else []) + WithKey(s[1..], key, k)
  }

  lemma {:induction false} WithKeyConcat<T>(a: seq<T>, b: seq<T>, key: T -> RankKey, k: RankKey)
    ensures WithKey(a + b, key, k) == WithKey(a, key, k) + WithKey(b, key, k)
    decreases |a|
  {
    if a != [] {
      assert (a + b)[1..] == a[1..] + b;
      WithKeyConcat(a[1..], b, key, k);
    } else {
      assert a + b == b;
    }
  }

  /** Inserts x before the first element whose key x's key may precede. */
  function Insert<T>(x: T, s: seq<T>, key: T -> RankKey): (r: seq<T>)
    ensures |r| == |s| + 1
    ensures multiset(r) == multiset(s) + multiset{x}
    decreases |s|
  {
    if s == [] then [x]
    else if RankLe(key(x), key(s[0])) then [x] + s
    else
      assert s == [s[0]] + s[1..];
      [s[0]] + Insert(x, s[1..], key)
  }

  /** Inserting into a sorted sequence keeps it sorted. */
  lemma {:induction false} InsertSorted<T>(x: T, s: seq<T>, key: T -> RankKey)
    requires SortedBy(s, key)
    ensures SortedBy(Insert(x, s, key), key)
    decreases |s|
  {
    if s == [] {
    } else if RankLe(key(x), key(s[0])) {
      forall j | 0 <= j < |s|
        ensures RankLe(key(x), key(s[j]))
      {
        if j > 0 {
          RankLeTransitive(key(x), key(s[0]), key(s[j]));
        }
      }
      assert Insert(x, s, key) == [x] + s;
    } else {
      var rest := Insert(x, s[1..], key);
      InsertSorted(x, s[1..], key);
      RankLeTotal(key(x), key(s[0]));
      assert s == [s[0]] + s[1..];
      forall j | 0 <= j < |rest|
        ensures RankLe(key(s[0]), key(rest[j]))
      {
        var y := rest[j];
        assert y in multiset(rest);
        assert y in multiset(s[1..]) + multiset{x};
        if y != x {
          assert y in s[1..];
          var m :| 0 <= m < |s[1..]| && s[1..][m] == y;
          assert s[m + 1] == y;
        }
      }
      assert Insert(x, s, key) == [s[0]] + rest;
    }
  }

  /** x is the first of its key in the result; nothing else of any key moves relative to its peers. */
  lemma {:induction false} InsertWithKey<T>(x: T, s: seq<T>, key: T -> RankKey, k: RankKey)
    ensures WithKey(Insert(x, s, key), key, k) == (if key(x) == k then [x] else []) + WithKey(s, key, k)
    decreases |s|
  {
    if s == [] {
      assert Insert(x, s, key) == [x] + [];
      WithKeyConcat([x], [], key, k);
    } else if RankLe(key(x), key(s[0])) {
      WithKeyConcat([x], s, key, k);
      assert WithKey([x], key, k) == (if key(x) == k then [x] else []) + WithKey([x][1..], key, k);
    } else {
      InsertWithKey(x, s[1..], key, k);
      assert key(s[0]) != key(x) by {
        if key(s[0]) == key(x) {
          StrLtIrreflexive(key(x).text);
        }
      }
      var rest := Insert(x, s[1..], key);
      assert Insert(x, s, key) == [s[0]] + rest;
      assert ([s[0]] + rest)[1..] == rest;
    }
  }

  /**
   Python's sorted(s, key=...): a stable insertion sort. The result is a
   permutation of s (see SortBySorted and SortByStable for its order).
   */
  function SortBy<T>(s: seq<T>, key: T -> RankKey): (r: seq<T>)
    ensures |r| == |s|
    ensures multiset(r) == multiset(s)
    decreases |s|
  {
    if s == [] then []
    else
      assert s == [s[0]] + s[1..];
      Insert(s[0], SortBy(s[1..], key), key)
  }

  /** The sorted result is ordered by key. */
  lemma {:induction false} SortBySorted<T>(s: seq<T>, key: T -> RankKey)
    ensures SortedBy(SortBy(s, key), key)
    decreases |s|
  {
    if s != [] {
      SortBySorted(s[1..], key);
      InsertSorted(s[0], SortBy(s[1..], key), key);
    }
  }

  /** The sort is stable: the elements of any one key appear in the order they had in s. */
  lemma {:induction false} SortByStable<T>(s: seq<T>, key: T -> RankKey, k: RankKey)
    ensures WithKey(SortBy(s, key), key, k) == WithKey(s, key, k)
    decreases |s|
  {
    if s != [] {
      SortByStable(s[1..], key, k);
      InsertWithKey(s[0], SortBy(s[1..], key), key, k);
    }
  }

  /** Python's s[:k], including its meaning for a negative k (drop -k from the end). */
  function Prefix<T>(s: seq<T>, k: int): (r: seq<T>)
    ensures k >= 0 ==> |r| == if k < |s| then k else |s|
    ensures k < 0 ==> |r| == if |s| + k > 0 then |s| + k else 0
    ensures r == s[..|r|]
  {
    if k >= 0 then
      (if k < |s| then s[..k] else s)
    else
      (if |s| + k > 0 then s[..|s| + k] else [])
  }

  /** The first k of a sorted sequence are still sorted. */
  lemma TopSorted<T>(s: seq<T>, key: T -> RankKey, k: int)
    ensures SortedBy(Prefix(SortBy(s, key), k), key)
  {
    SortBySorted(s, key);
    var sorted := SortBy(s, key);
    var top := Prefix(sorted, k);
    assert forall i :: 0 <= i < |top| ==> top[i] == sorted[i];
  }

  /**
   sorted(s)[:k] keeps the best: it is a sub-multiset of s, and every
   element left out has a key that each kept key may precede.
   */
  lemma TopKeepsBest<T>(s: seq<T>, key: T -> RankKey, k: int)
    ensures var top := Prefix(SortBy(s, key), k);
      && multiset(top) <= multiset(s)
      && forall x, y | x in top && y in multiset(s) - multiset(top) :: RankLe(key(x), key(y))
  {
    var sorted := SortBy(s, key);
    var top := Prefix(sorted, k);
    SortBySorted(s, key);
    var rest := sorted[|top|..];
    assert sorted == top + rest;
    assert multiset(sorted) == multiset(top) + multiset(rest);
    forall x, y | x in top && y in multiset(s) - multiset(top)
      ensures RankLe(key(x), key(y))
    {
      assert y in rest;
      var j :| 0 <= j < |rest| && rest[j] == y;
      var i :| 0 <= i < |top| && top[i] == x;
      assert sorted[i] == x && sorted[|top| + j] == y;
    }
  }

  /** Within sorted(s)[:k], the elements of any one key keep their order in s, and are its first ones. */
  lemma TopStable<T>(s: seq<T>, key: T -> RankKey, k: int, kk: RankKey)
    ensures var same := WithKey(Prefix(SortBy(s, key), k), key, kk);
      var all := WithKey(s, key, kk);
      |same| <= |all| && same == all[..|same|]
  {
    var sorted := SortBy(s, key);
    var top := Prefix(sorted, k);
    assert sorted == top + sorted[|top|..];
    WithKeyConcat(top, sorted[|top|..], key, kk);
    SortByStable(s, key, kk);
  }
}
