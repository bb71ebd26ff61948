/**
 * Python's `sorted(xs, key=k)` and `list.sort(key=k)` on an integer key: a
 * stable sort. It is modelled as insertion sort, and the three facts that
 * characterise a stable sort are proved about it: the result is ordered by
 * key, it is a permutation of the input, and elements with equal keys keep
 * their input order.
 */
module Sorting {

  ghost predicate SortedBy<T>(s: seq<T>, key: T -> int) {
    forall i, j :: 0 <= i < j < |s| ==> key(s[i]) <= key(s[j])
  }

  /** The elements of `s` whose key is `k`, in the order of `s`. */
  function WithKey<T>(s: seq<T>, key: T -> int, k: int): seq<T> {
    if s == [] then []
    else (if key(s[0]) == k then [s[0]] else []) + WithKey(s[1..], key, k)
  }

  /** Places `x` before the first element whose key is not smaller than its own. */
  function Insert<T>(x: T, s: seq<T>, key: T -> int): (r: seq<T>)
    ensures |r| == |s| + 1
    ensures r[0] == x || (s != [] && r[0] == s[0])
    ensures multiset(r) == multiset(s) + multiset{x}
  {
    if s == [] then [x]
    else if key(x) <= key(s[0]) then [x] + s
    else
      assert s == [s[0]] + s[1..];
      [s[0]] + Insert(x, s[1..], key)
  }

  /** Inserting into an ordered list keeps it ordered. */
  lemma {:induction false} InsertKeepsOrder<T>(x: T, s: seq<T>, key: T -> int)
    requires SortedBy(s, key)
    ensures SortedBy(Insert(x, s, key), key)
  {
    if s != [] && key(x) > key(s[0]) {
      var t := Insert(x, s[1..], key);
      InsertKeepsOrder(x, s[1..], key);
      assert key(s[0]) <= key(t[0]);
      assert forall j :: 0 <= j < |t| ==> key(t[0]) <= key(t[j]);
      assert Insert(x, s, key) == [s[0]] + t;
    }
  }

  /** `sorted(s, key=key)`. */
  function SortBy<T>(s: seq<T>, key: T -> int): (r: seq<T>)
    ensures |r| == |s|
    ensures multiset(r) == multiset(s)
    ensures SortedBy(r, key)
  {
    if s == [] then []
    else
      assert s == [s[0]] + s[1..];
      InsertKeepsOrder(s[0], SortBy(s[1..], key), key);
      Insert(s[0], SortBy(s[1..], key), key)
  }

  lemma WithKeyCons<T>(y: T, t: seq<T>, key: T -> int, k: int)
    ensures WithKey([y] + t, key, k) == (if key(y) == k then [y] else []) + WithKey(t, key, k)
  {
    assert ([y] + t)[0] == y && ([y] + t)[1..] == t;
  }

  /** An element with a smaller key can move in front of `y` without changing any key's list. */
  lemma PassSmaller<T>(x: T, y: T, t: seq<T>, rest: seq<T>, key: T -> int, k: int)
    requires key(x) > key(y)
    requires WithKey(t, key, k) == (if key(x) == k then [x] else []) + WithKey(rest, key, k)
    ensures WithKey([y] + t, key, k) == (if key(x) == k then [x] else []) + WithKey([y] + rest, key, k)
  {
    WithKeyCons(y, t, key, k);
    WithKeyCons(y, rest, key, k);
    var xs: seq<T> := if key(x) == k then [x] else [];
    var ys: seq<T> := if key(y) == k then [y] else [];
    assert xs == [] || ys == [];
    assert ys + (xs + WithKey(rest, key, k)) == xs + (ys + WithKey(rest, key, k));
  }

  lemma {:induction false} WithKeyOfInsert<T>(x: T, s: seq<T>, key: T -> int, k: int)
    ensures WithKey(Insert(x, s, key), key, k)
         == (if key(x) == k then [x] else []) + WithKey(s, key, k)
  {
    if s == [] || key(x) <= key(s[0]) {
      WithKeyCons(x, s, key, k);
    } else {
      WithKeyOfInsert(x, s[1..], key, k);
      PassSmaller(x, s[0], Insert(x, s[1..], key), s[1..], key, k);
      assert [s[0]] + s[1..] == s;
    }
  }

  /** Stability: for every key, the elements with that key keep their input order. */
  lemma {:induction false} SortByStable<T>(s: seq<T>, key: T -> int, k: int)
    ensures WithKey(SortBy(s, key), key, k) == WithKey(s, key, k)
  {
    if s != [] {
      SortByStable(s[1..], key, k);
      WithKeyOfInsert(s[0], SortBy(s[1..], key), key, k);
    }
  }

  /** A list whose keys are all equal is left as it is. */
  lemma {:induction false} SortByConstantKey<T>(s: seq<T>, key: T -> int, k: int)
    requires forall i :: 0 <= i < |s| ==> key(s[i]) == k
    ensures SortBy(s, key) == s
  {
    if s != [] {
      SortByConstantKey(s[1..], key, k);
      var t := SortBy(s[1..], key);
      assert t == s[1..];
      if t != [] {
        assert key(t[0]) == k;
      }
      assert Insert(s[0], t, key) == [s[0]] + s[1..];
      assert [s[0]] + s[1..] == s;
    }
  }
}
