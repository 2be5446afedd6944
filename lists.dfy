/** The list operations the frontend state containers repeat for tasks, quizzes and
    teachers: `filter`, and `map`/`filter`/`find` keyed by an id field. A record
    type supplies its id as a function `id: T -> int`. */
module Lists {
  import opened Wrappers

  /** `s.filter(p)`. */
  function Filter<T>(s: seq<T>, p: T -> bool): (r: seq<T>)
    ensures |r| <= |s|
    decreases |s|
  {
    if s == [] then []
    else if p(s[0]) then [s[0]] + Filter(s[1..], p)
    else Filter(s[1..], p)
  }

  /** An element is kept exactly when it was there and passes the test. */
  lemma {:induction false} FilterMember<T>(s: seq<T>, p: T -> bool, x: T)
    ensures x in Filter(s, p) <==> x in s && p(x)
    decreases |s|
  {
    if s != [] {
      FilterMember(s[1..], p, x);
      assert x in s <==> x == s[0] || x in s[1..];
    }
  }

  /** Filtering works piece by piece, so the kept elements stay in their order. */
  lemma {:induction false} FilterAppend<T>(a: seq<T>, b: seq<T>, p: T -> bool)
    ensures Filter(a + b, p) == Filter(a, p) + Filter(b, p)
    decreases |a|
  {
    if a != [] {
      assert (a + b)[1..] == a[1..] + b;
      FilterAppend(a[1..], b, p);
    } else {
      assert a + b == b;
    }
  }

  /** A list whose elements all pass is kept whole. */
  lemma {:induction false} FilterAllPass<T>(s: seq<T>, p: T -> bool)
    requires forall k :: 0 <= k < |s| ==> p(s[k])
    ensures Filter(s, p) == s
    decreases |s|
  {
    if s != [] {
      FilterAllPass(s[1..], p);
      assert s == [s[0]] + s[1..];
    }
  }

  /** The ids of a list, in order. */
  function Ids<T>(s: seq<T>, id: T -> int): (r: seq<int>)
    ensures |r| == |s| && forall k :: 0 <= k < |s| ==> r[k] == id(s[k])
  {
    seq(|s|, k requires 0 <= k < |s| => id(s[k]))
  }

  /** `s.map(t => t.id === key ? f(t) : t)`. */
  function UpdateById<T>(s: seq<T>, id: T -> int, key: int, f: T -> T): (r: seq<T>)
    ensures |r| == |s|
  {
    seq(|s|, k requires 0 <= k < |s| => if id(s[k]) == key then f(s[k]) else s[k])
  }

  /** Only the elements carrying the id are rewritten; every other one is kept. */
  lemma UpdateByIdAt<T>(s: seq<T>, id: T -> int, key: int, f: T -> T, k: nat)
    requires k < |s|
    ensures id(s[k]) == key ==> UpdateById(s, id, key, f)[k] == f(s[k])
    ensures id(s[k]) != key ==> UpdateById(s, id, key, f)[k] == s[k]
  {
  }

  /** An update that keeps the id keeps every id of the list: nothing is added,
      dropped or moved. */
  lemma UpdateByIdKeepsIds<T>(s: seq<T>, id: T -> int, key: int, f: T -> T)
    requires forall k :: 0 <= k < |s| && id(s[k]) == key ==> id(f(s[k])) == key
    ensures Ids(UpdateById(s, id, key, f), id) == Ids(s, id)
  {
    var r := UpdateById(s, id, key, f);
    forall k | 0 <= k < |s|
      ensures Ids(r, id)[k] == Ids(s, id)[k]
    {
      UpdateByIdAt(s, id, key, f, k);
    }
  }

  /** With no element carrying the id, the list is unchanged. */
  lemma UpdateByIdAbsent<T>(s: seq<T>, id: T -> int, key: int, f: T -> T)
    requires forall k :: 0 <= k < |s| ==> id(s[k]) != key
    ensures UpdateById(s, id, key, f) == s
  {
    var r := UpdateById(s, id, key, f);
    forall k | 0 <= k < |s|
      ensures r[k] == s[k]
    {
      UpdateByIdAt(s, id, key, f, k);
    }
  }

  /** `s.map(t => t.id === u.id ? u : t)`. */
  function ReplaceById<T>(s: seq<T>, id: T -> int, u: T): (r: seq<T>)
    ensures |r| == |s|
  {
    seq(|s|, k requires 0 <= k < |s| => if id(s[k]) == id(u) then u else s[k])
  }

  /** Every element with u's id becomes u; every other element is kept. */
  lemma ReplaceByIdAt<T>(s: seq<T>, id: T -> int, u: T, k: nat)
    requires k < |s|
    ensures id(s[k]) == id(u) ==> ReplaceById(s, id, u)[k] == u
    ensures id(s[k]) != id(u) ==> ReplaceById(s, id, u)[k] == s[k]
  {
  }

  /** Replacing keeps the ids, in order: nothing is added, dropped or moved. */
  lemma ReplaceByIdKeepsIds<T>(s: seq<T>, id: T -> int, u: T)
    ensures Ids(ReplaceById(s, id, u), id) == Ids(s, id)
  {
    var r := ReplaceById(s, id, u);
    forall k | 0 <= k < |s|
      ensures Ids(r, id)[k] == Ids(s, id)[k]
    {
      ReplaceByIdAt(s, id, u, k);
    }
  }

  /** Replacing twice with the same element is replacing once. */
  lemma ReplaceByIdIdempotent<T>(s: seq<T>, id: T -> int, u: T)
    ensures ReplaceById(ReplaceById(s, id, u), id, u) == ReplaceById(s, id, u)
  {
    var r := ReplaceById(s, id, u);
    var rr := ReplaceById(r, id, u);
    forall k | 0 <= k < |s|
      ensures rr[k] == r[k]
    {
      ReplaceByIdAt(s, id, u, k);
      ReplaceByIdAt(r, id, u, k);
    }
  }

  /** Replacing with u and then with t, both carrying the same id, gives back a list
      that already held t wherever that id occurs. */
  lemma ReplaceByIdRevert<T>(s: seq<T>, id: T -> int, u: T, t: T)
    requires id(u) == id(t)
    requires forall k :: 0 <= k < |s| && id(s[k]) == id(t) ==> s[k] == t
    ensures ReplaceById(ReplaceById(s, id, u), id, t) == s
  {
    var r := ReplaceById(s, id, u);
    var rr := ReplaceById(r, id, t);
    forall k | 0 <= k < |s|
      ensures rr[k] == s[k]
    {
      ReplaceByIdAt(s, id, u, k);
      ReplaceByIdAt(r, id, t, k);
    }
  }

  /** `us.find(u => u.id === key)`: the first element with the id. */
  function FindById<T>(us: seq<T>, id: T -> int, key: int): (r: Option<T>)
    ensures r.Some? ==> r.value in us && id(r.value) == key
    ensures r.None? ==> forall k :: 0 <= k < |us| ==> id(us[k]) != key
    decreases |us|
  {
    if us == [] then None
    else if id(us[0]) == key then Some(us[0])
    else FindById(us[1..], id, key)
  }

  /** Position i holds the first element of us with the id. */
  predicate FirstWithId<T>(us: seq<T>, id: T -> int, key: int, i: int) {
    0 <= i < |us| && id(us[i]) == key && forall j :: 0 <= j < i ==> id(us[j]) != key
  }

  /** The search returns the first element with the id. */
  lemma {:induction false} FindByIdFirst<T>(us: seq<T>, id: T -> int, key: int)
    ensures FindById(us, id, key).Some? ==>
              exists i :: FirstWithId(us, id, key, i) && FindById(us, id, key).value == us[i]
    decreases |us|
  {
    if us != [] {
      if id(us[0]) == key {
        assert FirstWithId(us, id, key, 0);
      } else {
        FindByIdFirst(us[1..], id, key);
        if FindById(us, id, key).Some? {
          var i :| FirstWithId(us[1..], id, key, i) && FindById(us[1..], id, key).value == us[1..][i];
          forall j | 0 <= j < i + 1
            ensures id(us[j]) != key
          {
            if j > 0 {
              assert us[j] == us[1..][j - 1];
            }
          }
          assert FirstWithId(us, id, key, i + 1);
        }
      }
    }
  }

  /** The bulk update: each element whose id occurs among the updates becomes the
      first update with that id; the others are kept. */
  function BulkReplace<T>(s: seq<T>, us: seq<T>, id: T -> int): (r: seq<T>)
    ensures |r| == |s|
  {
    seq(|s|, k requires 0 <= k < |s| =>
      match FindById(us, id, id(s[k]))
      case Some(u) => u
      case None => s[k])
  }

  /** A bulk update never adds or drops an element and keeps every id in place. */
  lemma BulkReplaceKeepsIds<T>(s: seq<T>, us: seq<T>, id: T -> int)
    ensures Ids(BulkReplace(s, us, id), id) == Ids(s, id)
  {
    var r := BulkReplace(s, us, id);
    forall k | 0 <= k < |s|
      ensures Ids(r, id)[k] == Ids(s, id)[k]
    {
      assert r[k] == match FindById(us, id, id(s[k])) case Some(u) => u case None => s[k];
    }
  }

  /** Element by element: an element no update carries the id of is kept, and any
      other becomes the first update with its id. */
  lemma BulkReplaceAt<T>(s: seq<T>, us: seq<T>, id: T -> int, k: nat)
    requires k < |s|
    ensures (forall j :: 0 <= j < |us| ==> id(us[j]) != id(s[k])) ==> BulkReplace(s, us, id)[k] == s[k]
    ensures forall i :: FirstWithId(us, id, id(s[k]), i) ==> BulkReplace(s, us, id)[k] == us[i]
  {
    FindByIdFirst(us, id, id(s[k]));
  }

  /** A bulk update with a single element is the single update. */
  lemma BulkReplaceSingle<T>(s: seq<T>, u: T, id: T -> int)
    ensures BulkReplace(s, [u], id) == ReplaceById(s, id, u)
  {
    var r := BulkReplace(s, [u], id);
    forall k | 0 <= k < |s|
      ensures r[k] == ReplaceById(s, id, u)[k]
    {
      ReplaceByIdAt(s, id, u, k);
      assert [u][1..] == [];
    }
  }

  /** `s.filter(t => t.id !== key)`. */
  function RemoveById<T>(s: seq<T>, id: T -> int, key: int): (r: seq<T>)
    ensures |r| <= |s|
    decreases |s|
  {
    if s == [] then []
    else if id(s[0]) != key then [s[0]] + RemoveById(s[1..], id, key)
    else RemoveById(s[1..], id, key)
  }

  /** Exactly the elements without the id survive. */
  lemma {:induction false} RemoveByIdMember<T>(s: seq<T>, id: T -> int, key: int, x: T)
    ensures x in RemoveById(s, id, key) <==> x in s && id(x) != key
    decreases |s|
  {
    if s != [] {
      RemoveByIdMember(s[1..], id, key, x);
      assert x in s <==> x == s[0] || x in s[1..];
    }
  }

  /** Removal works piece by piece, so the survivors keep their order. */
  lemma {:induction false} RemoveByIdAppend<T>(a: seq<T>, b: seq<T>, id: T -> int, key: int)
    ensures RemoveById(a + b, id, key) == RemoveById(a, id, key) + RemoveById(b, id, key)
    decreases |a|
  {
    if a != [] {
      assert (a + b)[1..] == a[1..] + b;
      RemoveByIdAppend(a[1..], b, id, key);
    } else {
      assert a + b == b;
    }
  }

  /** With no element carrying the id, nothing is removed. */
  lemma {:induction false} RemoveByIdAbsent<T>(s: seq<T>, id: T -> int, key: int)
    requires forall k :: 0 <= k < |s| ==> id(s[k]) != key
    ensures RemoveById(s, id, key) == s
    decreases |s|
  {
    if s != [] {
      RemoveByIdAbsent(s[1..], id, key);
      assert s == [s[0]] + s[1..];
    }
  }

  /** Adding an element and then removing its id is removing the id. */
  lemma AddThenRemove<T>(s: seq<T>, t: T, id: T -> int)
    ensures RemoveById(s + [t], id, id(t)) == RemoveById(s, id, id(t))
  {
    RemoveByIdAppend(s, [t], id, id(t));
    assert RemoveById([t], id, id(t)) == RemoveById([], id, id(t));
  }
}
