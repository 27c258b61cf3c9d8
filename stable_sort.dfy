/**
 * The stable descending sort that `List.sort` and `Stream.sorted` perform
 * with a reversed key comparator: larger keys first, equal keys in their
 * original order.
 */
module StableSort {

  /** Non-increasing by key. */
  ghost predicate SortedDesc<T>(s: seq<T>, key: T -> real)
  {
    forall i, j :: 0 <= i < j < |s| ==> key(s[i]) >= key(s[j])
  }

  /** Insert `x` before the first element whose key is not larger than its own. */
  function Insert<T>(x: T, s: seq<T>, key: T -> real): (r: seq<T>)
    ensures |r| == |s| + 1
    ensures multiset(r) == multiset(s) + multiset{x}
  {
    if s == [] then [x]
    else if key(s[0]) <= key(x) then [x] + s
    else
      assert s == [s[0]] + s[1..];
      [s[0]] + Insert(x, s[1..], key)
  }

  /** Insertion sort from the back of the list, which keeps ties in input order. */
  function SortDesc<T>(s: seq<T>, key: T -> real): (r: seq<T>)
    ensures |r| == |s|
    ensures multiset(r) == multiset(s)
  {
    if s == [] then []
    else
      assert s == [s[0]] + s[1..];
      Insert(s[0], SortDesc(s[1..], key), key)
  }

  /** The elements whose key equals `v`, in order. */
  function WithKey<T>(s: seq<T>, key: T -> real, v: real): seq<T>
  {
    if s == [] then []
    else (if key(s[0]) == v then [s[0]] else []) + WithKey(s[1..], key, v)
  }

  /** Every key in `s` is at most `b`. */
  ghost predicate KeysAtMost<T>(s: seq<T>, key: T -> real, b: real)
  {
    forall i :: 0 <= i < |s| ==> key(s[i]) <= b
  }

  lemma {:induction false} InsertKeysAtMost<T>(x: T, s: seq<T>, key: T -> real, b: real)
    requires KeysAtMost(s, key, b) && key(x) <= b
    ensures KeysAtMost(Insert(x, s, key), key, b)
  {
    if s != [] && key(s[0]) > key(x) {
      InsertKeysAtMost(x, s[1..], key, b);
      var t := Insert(x, s[1..], key);
      assert Insert(x, s, key) == [s[0]] + t;
    }
  }

  lemma {:induction false} InsertSorted<T>(x: T, s: seq<T>, key: T -> real)
    requires SortedDesc(s, key)
    ensures SortedDesc(Insert(x, s, key), key)
  {
    if s == [] {
    } else if key(s[0]) <= key(x) {
      var r := [x] + s;
      assert forall j :: 1 <= j < |r| ==> r[j] == s[j - 1];
    } else {
      InsertSorted(x, s[1..], key);
      InsertKeysAtMost(x, s[1..], key, key(s[0]));
      var t := Insert(x, s[1..], key);
      var r := [s[0]] + t;
      assert r == Insert(x, s, key);
      assert forall j :: 1 <= j < |r| ==> r[j] == t[j - 1];
    }
  }

  /** The sort's result is ordered by non-increasing key. */
  lemma {:induction false} SortDescIsSorted<T>(s: seq<T>, key: T -> real)
    ensures SortedDesc(SortDesc(s, key), key)
  {
    if s != [] {
      SortDescIsSorted(s[1..], key);
      InsertSorted(s[0], SortDesc(s[1..], key), key);
    }
  }

  lemma WithKeyCons<T>(y: T, t: seq<T>, key: T -> real, v: real)
    ensures WithKey([y] + t, key, v) == (if key(y) == v then [y] else []) + WithKey(t, key, v)
  {
    assert ([y] + t)[1..] == t;
  }

  lemma {:induction false} WithKeyInsert<T>(x: T, s: seq<T>, key: T -> real, v: real)
    ensures WithKey(Insert(x, s, key), key, v) == (if key(x) == v then [x] else []) + WithKey(s, key, v)
  {
    if s == [] || key(s[0]) <= key(x) {
      WithKeyInsertFront(x, s, key, v);
    } else {
      WithKeyInsert(x, s[1..], key, v);
      WithKeyInsertStep(x, s, key, v);
    }
  }

  /** `x` goes in front: its key is at least the first one's. */
  lemma WithKeyInsertFront<T>(x: T, s: seq<T>, key: T -> real, v: real)
    requires s == [] || key(s[0]) <= key(x)
    ensures WithKey(Insert(x, s, key), key, v) == (if key(x) == v then [x] else []) + WithKey(s, key, v)
  {
    assert Insert(x, s, key) == [x] + s;
    WithKeyCons(x, s, key, v);
  }

  /** `x` goes after the first element, whose key is larger and so cannot equal `v` when `x`'s does. */
  lemma WithKeyInsertStep<T>(x: T, s: seq<T>, key: T -> real, v: real)
    requires s != [] && key(s[0]) > key(x)
    requires WithKey(Insert(x, s[1..], key), key, v) == (if key(x) == v then [x] else []) + WithKey(s[1..], key, v)
    ensures WithKey(Insert(x, s, key), key, v) == (if key(x) == v then [x] else []) + WithKey(s, key, v)
  {
    var t := Insert(x, s[1..], key);
    assert Insert(x, s, key) == [s[0]] + t;
    var xs: seq<T> := if key(x) == v then [x] else [];
    var hs: seq<T> := if key(s[0]) == v then [s[0]] else [];
    var w := WithKey(s[1..], key, v);
    assert WithKey(s, key, v) == hs + w;
    WithKeyCons(s[0], t, key, v);
    Swap(hs, xs, w);
  }

  lemma Swap<T>(a: seq<T>, b: seq<T>, c: seq<T>)
    requires a == [] || b == []
    ensures a + (b + c) == b + (a + c)
  {
  }

  /** Stability: the elements sharing any one key keep their relative order. */
  lemma {:induction false} SortDescIsStable<T>(s: seq<T>, key: T -> real, v: real)
    ensures WithKey(SortDesc(s, key), key, v) == WithKey(s, key, v)
  {
    if s != [] {
      SortDescIsStable(s[1..], key, v);
      WithKeyInsert(s[0], SortDesc(s[1..], key), key, v);
    }
  }

  /** `limit(k)` / the first `min(k, size)` elements; nothing for a negative k. */
  function Take<T>(s: seq<T>, k: int): (r: seq<T>)
    ensures |r| == if k <= 0 then 0 else if k < |s| then k else |s|
    ensures r == s[..|r|]
  {
    if k <= 0 then [] else if k < |s| then s[..k] else s
  }

  lemma TakeSorted<T>(s: seq<T>, k: int, key: T -> real)
    requires SortedDesc(s, key)
    ensures SortedDesc(Take(s, k), key)
  {
  }
}
