/** Stable sorting by a key. Both `Array.prototype.sort` (stable since ES2019) and
    Python's `sorted` are stable, and every comparator in the system compares at
    most two numeric fields, so a comparator becomes a key of two integers ordered
    lexicographically. A descending field is keyed by its negation. */
module Sorting {

  datatype Rank = Rank(major: int, minor: int)

  /** Lexicographic order on ranks. */
  predicate Le(a: Rank, b: Rank) {
    a.major < b.major || (a.major == b.major && a.minor <= b.minor)
  }

  predicate Lt(a: Rank, b: Rank) {
    Le(a, b) && a != b
  }

  predicate SortedBy<T>(s: seq<T>, key: T -> Rank) {
    forall i, j :: 0 <= i < j < |s| ==> Le(key(s[i]), key(s[j]))
  }

  /** Places x after every element whose key is not greater than x's key. */
  function Insert<T(==)>(x: T, s: seq<T>, key: T -> Rank): (r: seq<T>)
    ensures |r| == |s| + 1
    ensures multiset(r) == multiset(s) + multiset{x}
    decreases |s|
  {
    if s == [] then [x]
    else if Lt(key(x), key(s[0])) then [x] + s
    else
      var rest := Insert(x, s[1..], key);
      assert s == [s[0]] + s[1..];
      [s[0]] + rest
  }

  lemma InsertSortedFront<T>(x: T, s: seq<T>, key: T -> Rank)
    requires SortedBy(s, key) && s != [] && Lt(key(x), key(s[0]))
    ensures SortedBy(Insert(x, s, key), key)
  {
    InsertFront(x, s, key);
    ConsSorted(x, s, key);
  }

  lemma InsertFront<T>(x: T, s: seq<T>, key: T -> Rank)
    requires s != [] && Lt(key(x), key(s[0]))
    ensures Insert(x, s, key) == [x] + s
  {
  }

  lemma InsertSkip<T>(x: T, s: seq<T>, key: T -> Rank)
    requires s != [] && !Lt(key(x), key(s[0]))
    ensures Insert(x, s, key) == [s[0]] + Insert(x, s[1..], key)
  {
  }

  /** An element not above the head of a sorted sequence can be put in front. */
  lemma ConsSorted<T>(x: T, s: seq<T>, key: T -> Rank)
    requires SortedBy(s, key) && s != [] && Le(key(x), key(s[0]))
    ensures SortedBy([x] + s, key)
  {
    forall j | 0 <= j < |s|
      ensures Le(key(x), key(s[j]))
    {
      assert j == 0 || Le(key(s[0]), key(s[j]));
    }
    ConsSortedAll(x, s, key);
  }

  lemma InsertSortedSkip<T>(x: T, s: seq<T>, key: T -> Rank)
    requires SortedBy(s, key) && s != [] && !Lt(key(x), key(s[0]))
    requires SortedBy(Insert(x, s[1..], key), key)
    ensures SortedBy(Insert(x, s, key), key)
  {
    InsertSkip(x, s, key);
    InsertAbove(x, s, key);
    ConsSortedAll(s[0], Insert(x, s[1..], key), key);
  }

  /** What is inserted behind the head of a sorted sequence stays above the head. */
  lemma InsertAbove<T>(x: T, s: seq<T>, key: T -> Rank)
    requires SortedBy(s, key) && s != [] && !Lt(key(x), key(s[0]))
    ensures forall j :: 0 <= j < |Insert(x, s[1..], key)| ==> Le(key(s[0]), key(Insert(x, s[1..], key)[j]))
  {
    var rest := Insert(x, s[1..], key);
    forall j | 0 <= j < |rest|
      ensures Le(key(s[0]), key(rest[j]))
    {
      assert rest[j] in multiset(s[1..]) + multiset{x};
      if rest[j] != x {
        var m :| 0 <= m < |s[1..]| && s[1..][m] == rest[j];
        assert s[1..][m] == s[m + 1];
      }
    }
  }

  /** A head not above any element of a sorted tail gives a sorted sequence. */
  lemma ConsSortedAll<T>(h: T, t: seq<T>, key: T -> Rank)
    requires SortedBy(t, key) && forall j :: 0 <= j < |t| ==> Le(key(h), key(t[j]))
    ensures SortedBy([h] + t, key)
  {
    var r := [h] + t;
    forall i, j | 0 <= i < j < |r|
      ensures Le(key(r[i]), key(r[j]))
    {
      assert r[j] == t[j - 1];
      if i > 0 {
        assert r[i] == t[i - 1];
      }
    }
  }

  /** Inserting into a sorted sequence keeps it sorted. */
  lemma {:induction false} InsertSorted<T>(x: T, s: seq<T>, key: T -> Rank)
    requires SortedBy(s, key)
    ensures SortedBy(Insert(x, s, key), key)
    decreases |s|
  {
    if s == [] {
    } else if Lt(key(x), key(s[0])) {
      InsertSortedFront(x, s, key);
    } else {
      InsertSorted(x, s[1..], key);
      InsertSortedSkip(x, s, key);
    }
  }

  /** Insertion sort: the prefix is sorted, then the last element is inserted. */
  function SortBy<T(==)>(s: seq<T>, key: T -> Rank): (r: seq<T>)
    ensures |r| == |s|
    ensures multiset(r) == multiset(s)
    ensures SortedBy(r, key)
    decreases |s|
  {
    if s == [] then []
    else
      assert s == s[..|s| - 1] + [s[|s| - 1]];
      InsertSorted(s[|s| - 1], SortBy(s[..|s| - 1], key), key);
      Insert(s[|s| - 1], SortBy(s[..|s| - 1], key), key)
  }

  /** Sorting neither adds nor drops an element. */
  lemma SortedMember<T>(s: seq<T>, key: T -> Rank, x: T)
    ensures x in SortBy(s, key) <==> x in s
  {
    assert x in SortBy(s, key) <==> x in multiset(SortBy(s, key));
  }

  // ---------------------------------------------------------------------------
  // Stability

  /** The elements of s whose key is k, in their order in s. */
  function WithRank<T>(s: seq<T>, key: T -> Rank, k: Rank): seq<T>
    decreases |s|
  {
    if s == [] then [] else (if key(s[0]) == k then [s[0]] else []) + WithRank(s[1..], key, k)
  }

  lemma {:induction false} WithRankAppend<T>(a: seq<T>, b: seq<T>, key: T -> Rank, k: Rank)
    ensures WithRank(a + b, key, k) == WithRank(a, key, k) + WithRank(b, key, k)
    decreases |a|
  {
    if a == [] {
      assert a + b == b;
    } else {
      assert (a + b)[1..] == a[1..] + b;
      WithRankAppend(a[1..], b, key, k);
    }
  }

  lemma {:induction false} WithRankNone<T>(s: seq<T>, key: T -> Rank, k: Rank)
    requires forall i :: 0 <= i < |s| ==> key(s[i]) != k
    ensures WithRank(s, key, k) == []
    decreases |s|
  {
    if s != [] {
      WithRankNone(s[1..], key, k);
    }
  }

  lemma WithRankCons<T>(y: T, s: seq<T>, key: T -> Rank, k: Rank)
    ensures WithRank([y] + s, key, k) == (if key(y) == k then [y] else []) + WithRank(s, key, k)
  {
    assert ([y] + s)[1..] == s;
  }

  /** x goes in front when its key is below the first one. */
  lemma InsertStableFront<T>(x: T, t: seq<T>, key: T -> Rank, k: Rank)
    requires SortedBy(t, key) && t != [] && Lt(key(x), key(t[0]))
    ensures WithRank(Insert(x, t, key), key, k)
            == WithRank(t, key, k) + (if key(x) == k then [x] else [])
  {
    assert Insert(x, t, key) == [x] + t;
    WithRankCons(x, t, key, k);
    if key(x) == k {
      forall i | 0 <= i < |t|
        ensures key(t[i]) != k
      {
        assert i == 0 || Le(key(t[0]), key(t[i]));
      }
      WithRankNone(t, key, k);
    }
  }

  lemma InsertStableSkip<T>(x: T, t: seq<T>, key: T -> Rank, k: Rank)
    requires t != [] && !Lt(key(x), key(t[0]))
    requires WithRank(Insert(x, t[1..], key), key, k)
             == WithRank(t[1..], key, k) + (if key(x) == k then [x] else [])
    ensures WithRank(Insert(x, t, key), key, k)
            == WithRank(t, key, k) + (if key(x) == k then [x] else [])
  {
    var own := if key(x) == k then [x] else [];
    var head := if key(t[0]) == k then [t[0]] else [];
    var rest := Insert(x, t[1..], key);
    var tail := WithRank(t[1..], key, k);
    assert WithRank(Insert(x, t, key), key, k) == head + WithRank(rest, key, k) by {
      assert Insert(x, t, key) == [t[0]] + rest;
      WithRankCons(t[0], rest, key, k);
    }
    assert WithRank(t, key, k) == head + tail by {
      ConsSplit(t);
      WithRankCons(t[0], t[1..], key, k);
    }
    AppendAssoc(head, tail, own);
  }

  lemma {:induction false} InsertStable<T>(x: T, t: seq<T>, key: T -> Rank, k: Rank)
    requires SortedBy(t, key)
    ensures WithRank(Insert(x, t, key), key, k)
            == WithRank(t, key, k) + (if key(x) == k then [x] else [])
    decreases |t|
  {
    if t == [] {
      assert Insert(x, t, key) == [x] + t;
      WithRankCons(x, t, key, k);
    } else if Lt(key(x), key(t[0])) {
      InsertStableFront(x, t, key, k);
    } else {
      InsertStable(x, t[1..], key, k);
      InsertStableSkip(x, t, key, k);
    }
  }

  lemma SplitLast<T>(s: seq<T>)
    requires s != []
    ensures s == s[..|s| - 1] + [s[|s| - 1]]
  {
  }

  /** Elements with equal keys keep their relative order: the sort is stable. */
  lemma {:induction false} SortStable<T>(s: seq<T>, key: T -> Rank, k: Rank)
    ensures WithRank(SortBy(s, key), key, k) == WithRank(s, key, k)
    decreases |s|
  {
    if s != [] {
      var init, last := s[..|s| - 1], s[|s| - 1];
      var sorted := SortBy(init, key);
      assert SortBy(s, key) == Insert(last, sorted, key);
      SortStable(init, key, k);
      InsertStable(last, sorted, key, k);
      SplitLast(s);
      WithRankAppend(init, [last], key, k);
      assert WithRank([last], key, k) == (if key(last) == k then [last] else []);
    }
  }

  // ---------------------------------------------------------------------------
  // Images of permutations

  /** The image of a sequence under f, element by element. */
  function Map<T, U>(s: seq<T>, f: T -> U): (r: seq<U>)
    ensures |r| == |s| && forall k :: 0 <= k < |s| ==> r[k] == f(s[k])
    decreases |s|
  {
    if s == [] then [] else [f(s[0])] + Map(s[1..], f)
  }

  lemma {:induction false} MapAppend<T, U>(a: seq<T>, b: seq<T>, f: T -> U)
    ensures Map(a + b, f) == Map(a, f) + Map(b, f)
    decreases |a|
  {
    if a != [] {
      assert (a + b)[1..] == a[1..] + b;
      MapAppend(a[1..], b, f);
    } else {
      assert a + b == b;
    }
  }

  lemma ConsSplit<T>(t: seq<T>)
    requires t != []
    ensures t == [t[0]] + t[1..]
  {
    assert t == t[..1] + t[1..];
    assert t[..1] == [t[0]];
  }

  lemma AppendAssoc<T>(a: seq<T>, b: seq<T>, c: seq<T>)
    ensures a + (b + c) == (a + b) + c
  {
  }

  lemma SplitAt<T>(b: seq<T>, i: nat)
    requires i < |b|
    ensures b == b[..i] + ([b[i]] + b[i + 1..])
  {
    assert b == b[..i] + b[i..];
    assert b[i..] == [b[i]] + b[i + 1..];
  }

  lemma MapRemove<T, U>(b: seq<T>, i: nat, f: T -> U)
    requires i < |b|
    ensures multiset(Map(b, f)) == multiset(Map(b[..i] + b[i + 1..], f)) + multiset{f(b[i])}
  {
    var p, q, y := b[..i], b[i + 1..], b[i];
    var mp, mq := multiset(Map(p, f)), multiset(Map(q, f));
    assert multiset(Map(b, f)) == mp + multiset(Map([y] + q, f)) by {
      SplitAt(b, i);
      MapAppend(p, [y] + q, f);
    }
    assert multiset(Map([y] + q, f)) == multiset{f(y)} + mq by {
      assert ([y] + q)[1..] == q;
      assert Map([y] + q, f) == [f(y)] + Map(q, f);
    }
    assert multiset(Map(p + q, f)) == mp + mq by {
      MapAppend(p, q, f);
    }
  }

  lemma RemoveOne<T>(b: seq<T>, i: nat)
    requires i < |b|
    ensures multiset(b[..i] + b[i + 1..]) == multiset(b) - multiset{b[i]}
  {
    SplitAt(b, i);
  }

  lemma IndexOf<T>(b: seq<T>, x: T) returns (i: nat)
    requires x in multiset(b)
    ensures i < |b| && b[i] == x
  {
    assert x in b;
    i :| 0 <= i < |b| && b[i] == x;
  }

  /** Removing the first element of a and a matching element of b keeps the two
      permutations of each other. */
  lemma RemoveMatching<T>(a: seq<T>, b: seq<T>, i: nat)
    requires multiset(a) == multiset(b) && a != [] && i < |b| && b[i] == a[0]
    ensures multiset(a[1..]) == multiset(b[..i] + b[i + 1..])
  {
    RemoveOne(b, i);
    ConsSplit(a);
  }

  lemma MapPermuteStep<T, U>(a: seq<T>, b: seq<T>, i: nat, f: T -> U)
    requires a != [] && i < |b| && b[i] == a[0]
    requires multiset(Map(a[1..], f)) == multiset(Map(b[..i] + b[i + 1..], f))
    ensures multiset(Map(a, f)) == multiset(Map(b, f))
  {
    MapRemove(b, i, f);
    assert Map(a, f) == [f(a[0])] + Map(a[1..], f);
  }

  /** Permuting a sequence permutes its image. */
  lemma {:induction false} MapPermute<T, U>(a: seq<T>, b: seq<T>, f: T -> U)
    requires multiset(a) == multiset(b)
    ensures multiset(Map(a, f)) == multiset(Map(b, f))
    decreases |a|
  {
    if a == [] {
      assert |b| == |multiset(b)| == 0;
    } else {
      var i := IndexOf(b, a[0]);
      RemoveMatching(a, b, i);
      MapPermute(a[1..], b[..i] + b[i + 1..], f);
      MapPermuteStep(a, b, i, f);
    }
  }

}
