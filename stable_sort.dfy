/** Order-preserving filtering and the stable descending sort that both
    Python's `list.sort(key=..., reverse=True)` and JavaScript's
    `Array.prototype.sort` (stable since ES2019) perform. The sort is an
    insertion sort: each element goes in front of the first element whose
    key is not larger, so elements with equal keys keep their input order. */
module StableSort {

  /** The elements of `s` satisfying `p`, in order (a list comprehension
      with a condition, `Array.prototype.filter`). */
  function Filter<T>(s: seq<T>, p: T -> bool): (r: seq<T>)
    ensures |r| <= |s|
    ensures forall k :: 0 <= k < |r| ==> p(r[k])
    ensures forall k :: 0 <= k < |s| && p(s[k]) ==> s[k] in r
    ensures forall x :: x in r ==> x in s
  {
    if s == [] then []
    else (if p(s[0]) then [s[0]] else []) + Filter(s[1..], p)
  }

  lemma {:induction false} FilterAppend<T>(a: seq<T>, b: seq<T>, p: T -> bool)
    ensures Filter(a + b, p) == Filter(a, p) + Filter(b, p)
  {
    if a == [] {
      assert a + b == b;
    } else {
      assert (a + b)[1..] == a[1..] + b;
      FilterAppend(a[1..], b, p);
    }
  }

  /** Keys never increase from left to right. */
  predicate SortedDesc<T>(s: seq<T>, key: T -> real) {
    forall i, j :: 0 <= i < j < |s| ==> key(s[i]) >= key(s[j])
  }

  /** The elements of `s` whose key is exactly `v`, in order. Stability means
      the sort leaves every such subsequence as it was. */
  function WithKey<T>(s: seq<T>, key: T -> real, v: real): (r: seq<T>)
    ensures |r| <= |s|
  {
    if s == [] then []
    else (if key(s[0]) == v then [s[0]] else []) + WithKey(s[1..], key, v)
  }

  /** `x` placed in front of the first element of `t` whose key is not
      larger than its own. */
  function Insert<T>(x: T, t: seq<T>, key: T -> real): (r: seq<T>)
    ensures |r| == |t| + 1
    ensures multiset(r) == multiset(t) + multiset{x}
  {
    if t == [] || key(t[0]) <= key(x) then [x] + t
    else
      assert t == [t[0]] + t[1..];
      [t[0]] + Insert(x, t[1..], key)
  }

  /** Inserting into a sorted sequence keeps it sorted. */
  lemma {:induction false} InsertSorted<T>(x: T, t: seq<T>, key: T -> real)
    requires SortedDesc(t, key)
    ensures SortedDesc(Insert(x, t, key), key)
  {
    if t != [] && key(t[0]) > key(x) {
      var rest := Insert(x, t[1..], key);
      InsertSorted(x, t[1..], key);
      forall y | y in rest ensures key(t[0]) >= key(y) {
        assert y in multiset(rest);
        assert y == x || y in multiset(t[1..]);
      }
      var r := [t[0]] + rest;
      forall i, j | 0 <= i < j < |r| ensures key(r[i]) >= key(r[j]) {
        if i == 0 { assert r[j] in rest; }
      }
    }
  }

  /** The stable descending sort by `key`. */
  function SortDesc<T>(s: seq<T>, key: T -> real): (r: seq<T>)
    ensures |r| == |s|
    ensures SortedDesc(r, key)
    ensures multiset(r) == multiset(s)
  {
    if s == [] then []
    else
      assert s == [s[0]] + s[1..];
      InsertSorted(s[0], SortDesc(s[1..], key), key);
      Insert(s[0], SortDesc(s[1..], key), key)
  }

  lemma {:induction false} InsertStable<T>(x: T, t: seq<T>, key: T -> real, v: real)
    ensures WithKey(Insert(x, t, key), key, v) == (if key(x) == v then [x] else []) + WithKey(t, key, v)
  {
    var hx := if key(x) == v then [x] else [];
    if t == [] || key(t[0]) <= key(x) {
      assert Insert(x, t, key) == [x] + t;
      assert ([x] + t)[1..] == t;
      assert WithKey([x] + t, key, v) == hx + WithKey(t, key, v);
    } else {
      var rest := Insert(x, t[1..], key);
      var h0 := if key(t[0]) == v then [t[0]] else [];
      InsertStable(x, t[1..], key, v);
      assert Insert(x, t, key) == [t[0]] + rest;
      assert ([t[0]] + rest)[1..] == rest;
      assert WithKey([t[0]] + rest, key, v) == h0 + (hx + WithKey(t[1..], key, v));
      assert WithKey(t, key, v) == h0 + WithKey(t[1..], key, v);
      assert h0 == [] || hx == [];
    }
  }

  /** Stability: among elements with equal keys the sorted order is the
      input order. */
  lemma {:induction false} SortDescStable<T>(s: seq<T>, key: T -> real, v: real)
    ensures WithKey(SortDesc(s, key), key, v) == WithKey(s, key, v)
  {
    if s != [] {
      SortDescStable(s[1..], key, v);
      InsertStable(s[0], SortDesc(s[1..], key), key, v);
    }
  }

  /** Selecting by key distributes over concatenation. */
  lemma {:induction false} WithKeyAppend<T>(a: seq<T>, b: seq<T>, key: T -> real, v: real)
    ensures WithKey(a + b, key, v) == WithKey(a, key, v) + WithKey(b, key, v)
  {
    if a == [] {
      assert a + b == b;
    } else {
      var head := if key(a[0]) == v then [a[0]] else [];
      assert (a + b)[0] == a[0];
      assert (a + b)[1..] == a[1..] + b;
      WithKeyAppend(a[1..], b, key, v);
      assert WithKey(a + b, key, v) == head + WithKey(a[1..] + b, key, v);
      assert WithKey(a, key, v) == head + WithKey(a[1..], key, v);
    }
  }

  /** The first `n` elements (`s[:n]`, `s.slice(0, n)`). */
  function Take<T>(s: seq<T>, n: nat): (r: seq<T>)
    ensures |r| == if |s| <= n then |s| else n
    ensures r == s[..|r|]
  {
    if |s| <= n then s else s[..n]
  }

  /** After a descending sort, everything kept by `Take` has a key at least as
      large as everything dropped, and kept and dropped together are the
      input. */
  lemma TakeOfSortedIsTop<T>(s: seq<T>, key: T -> real, n: nat)
    ensures var sorted := SortDesc(s, key);
            var kept := Take(sorted, n);
            multiset(kept) + multiset(sorted[|kept|..]) == multiset(s) &&
            forall a, b :: a in kept && b in sorted[|kept|..] ==> key(a) >= key(b)
  {
    var sorted := SortDesc(s, key);
    var kept := Take(sorted, n);
    assert sorted == kept + sorted[|kept|..];
    forall a, b | a in kept && b in sorted[|kept|..] ensures key(a) >= key(b) {
      var i :| 0 <= i < |kept| && kept[i] == a;
      var j :| 0 <= j < |sorted| - |kept| && sorted[|kept|..][j] == b;
      assert sorted[i] == a && sorted[|kept| + j] == b;
    }
  }
}
