/**
 * `Array.prototype.filter` and the stable `Array.prototype.sort` with a
 * numeric comparator `(a, b) => key(a) - key(b)`, as functions on sequences.
 */
module Ordering {

  /** `s.filter(p)`: the elements satisfying `p`, in their order. */
  function Filter<T(!new)>(s: seq<T>, p: T -> bool): (r: seq<T>)
    ensures |r| <= |s|
    ensures forall k :: 0 <= k < |r| ==> p(r[k])
    ensures forall x :: multiset(r)[x] == if p(x) then multiset(s)[x] else 0
  {
    if s == [] then []
    else
      var init := s[..|s| - 1];
      assert s == init + [s[|s| - 1]];
      if p(s[|s| - 1]) then Filter(init, p) + [s[|s| - 1]] else Filter(init, p)
  }

  /** An element is kept exactly when it satisfies `p`. */
  lemma FilterMembers<T(!new)>(s: seq<T>, p: T -> bool, x: T)
    ensures x in Filter(s, p) <==> x in s && p(x)
  {
    assert x in Filter(s, p) <==> multiset(Filter(s, p))[x] > 0;
    assert x in s <==> multiset(s)[x] > 0;
  }

  /** A filter every element passes keeps the whole sequence. */
  lemma {:induction false} FilterAll<T(!new)>(s: seq<T>, p: T -> bool)
    requires forall k :: 0 <= k < |s| ==> p(s[k])
    ensures Filter(s, p) == s
  {
    if s != [] {
      FilterAll(s[..|s| - 1], p);
    }
  }

  /** A filter no element passes keeps nothing. */
  lemma {:induction false} FilterNone<T(!new)>(s: seq<T>, p: T -> bool)
    requires forall k :: 0 <= k < |s| ==> !p(s[k])
    ensures Filter(s, p) == []
  {
    if s != [] {
      FilterNone(s[..|s| - 1], p);
    }
  }

  /** `a` is `b` with some elements left out, the rest kept in order. */
  predicate Subsequence<T(==)>(a: seq<T>, b: seq<T>)
    decreases |b|
  {
    if a == [] then true
    else if b == [] then false
    else if a[|a| - 1] == b[|b| - 1] && Subsequence(a[..|a| - 1], b[..|b| - 1]) then true
    else Subsequence(a, b[..|b| - 1])
  }

  /** Filtering keeps an order-preserving selection of the elements. */
  lemma {:induction false} FilterSubsequence<T(!new)>(s: seq<T>, p: T -> bool)
    ensures Subsequence(Filter(s, p), s)
  {
    if s != [] {
      var init := s[..|s| - 1];
      FilterSubsequence(init, p);
      if p(s[|s| - 1]) {
        assert (Filter(init, p) + [s[|s| - 1]])[..|Filter(init, p)|] == Filter(init, p);
      } else if Filter(s, p) != [] {
        assert Filter(s, p) == Filter(init, p);
      }
    }
  }

  predicate SortedBy<T(!new)>(s: seq<T>, key: T -> int) {
    forall i, j :: 0 <= i < j < |s| ==> key(s[i]) <= key(s[j])
  }

  /** The elements whose key is `v`, in order. */
  function WithKey<T(!new)>(s: seq<T>, key: T -> int, v: int): (r: seq<T>)
    ensures forall k :: 0 <= k < |r| ==> key(r[k]) == v
  {
    if s == [] then []
    else WithKey(s[..|s| - 1], key, v) + (if key(s[|s| - 1]) == v then [s[|s| - 1]] else [])
  }

  /** Insertion of `x` into a sorted sequence, after every element whose key is not larger. */
  function Insert<T(!new)>(t: seq<T>, x: T, key: T -> int): (r: seq<T>)
    requires SortedBy(t, key)
    ensures |r| == |t| + 1
    ensures multiset(r) == multiset(t) + multiset{x}
    ensures SortedBy(r, key)
    ensures forall k :: 0 <= k < |r| ==> r[k] == x || r[k] in t
  {
    if t == [] || key(t[|t| - 1]) <= key(x) then t + [x]
    else
      var init := t[..|t| - 1];
      assert t == init + [t[|t| - 1]];
      var r := Insert(init, x, key) + [t[|t| - 1]];
      assert forall k :: 0 <= k < |r| - 1 ==> key(r[k]) <= key(t[|t| - 1]) by {
        forall k | 0 <= k < |r| - 1
          ensures key(r[k]) <= key(t[|t| - 1])
        {
          assert r[k] == x || r[k] in init;
        }
      }
      r
  }

  /**
   * The stable sort: insertion sort, each element placed after every earlier
   * element whose key is not larger.
   */
  function SortBy<T(!new)>(s: seq<T>, key: T -> int): (r: seq<T>)
    ensures |r| == |s|
    ensures multiset(r) == multiset(s)
    ensures SortedBy(r, key)
  {
    if s == [] then []
    else
      assert s == s[..|s| - 1] + [s[|s| - 1]];
      Insert(SortBy(s[..|s| - 1], key), s[|s| - 1], key)
  }

  /** Inserting keeps the elements of every key in their order, with `x` last. */
  lemma {:induction false} InsertStable<T(!new)>(t: seq<T>, x: T, key: T -> int, v: int)
    requires SortedBy(t, key)
    ensures WithKey(Insert(t, x, key), key, v) == WithKey(t, key, v) + (if key(x) == v then [x] else [])
    decreases |t|
  {
    if t == [] || key(t[|t| - 1]) <= key(x) {
      WithKeySnoc(t, x, key, v);
    } else {
      InsertStableStep(t, x, key, v);
    }
  }

  /** Inserting before the last element of a sorted sequence. */
  lemma InsertBeforeLast<T(!new)>(t: seq<T>, x: T, key: T -> int)
    requires SortedBy(t, key) && t != [] && key(x) < key(t[|t| - 1])
    ensures SortedBy(t[..|t| - 1], key)
    ensures Insert(t, x, key) == Insert(t[..|t| - 1], x, key) + [t[|t| - 1]]
  {
  }

  lemma {:induction false} InsertStableStep<T(!new)>(t: seq<T>, x: T, key: T -> int, v: int)
    requires SortedBy(t, key) && t != [] && key(x) < key(t[|t| - 1])
    ensures WithKey(Insert(t, x, key), key, v) == WithKey(t, key, v) + (if key(x) == v then [x] else [])
    decreases |t|, 0
  {
    var init := t[..|t| - 1];
    var last := t[|t| - 1];
    InsertBeforeLast(t, x, key);
    InsertStable(init, x, key, v);
    WithKeySnoc(Insert(init, x, key), last, key, v);
    WithKeySnoc(init, last, key, v);
    assert t == init + [last];
    SwapEmpty(WithKey(init, key, v), if key(x) == v then [x] else [], if key(last) == v then [last] else []);
  }

  lemma WithKeySnoc<T(!new)>(s: seq<T>, y: T, key: T -> int, v: int)
    ensures WithKey(s + [y], key, v) == WithKey(s, key, v) + (if key(y) == v then [y] else [])
  {
    assert (s + [y])[..|s|] == s;
  }

  lemma SwapEmpty<T>(a: seq<T>, b: seq<T>, c: seq<T>)
    requires b == [] || c == []
    ensures (a + b) + c == (a + c) + b
  {
  }

  /**
   * The sort is stable: among elements with equal keys the input order is
   * kept.  With `SortedBy` and the permutation this fixes the result.
   */
  lemma {:induction false} SortStable<T(!new)>(s: seq<T>, key: T -> int, v: int)
    ensures WithKey(SortBy(s, key), key, v) == WithKey(s, key, v)
  {
    if s != [] {
      var init := s[..|s| - 1];
      var last := s[|s| - 1];
      assert s == init + [last];
      SortStable(init, key, v);
      InsertStable(SortBy(init, key), last, key, v);
    }
  }
}
