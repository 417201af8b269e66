/** Python's `sorted(xs, key=k)` for an integer key: a stable sort. It is
    modelled as insertion sort, which the lemmas below show to be ordered by
    the key, a permutation of its input, and order-preserving among elements
    of equal key (so its result is the one Python's sort returns). */
module StableSort {

  /** Inserts x before the first element whose key is not smaller than x's:
      x then precedes every element of ys that has the same key. */
  function Insert<T>(x: T, ys: seq<T>, key: T -> int): (r: seq<T>)
    ensures |r| == |ys| + 1
    ensures multiset(r) == multiset(ys) + multiset{x}
  {
    if ys == [] then [x]
    else if key(x) <= key(ys[0]) then [x] + ys
    else
      assert ys == [ys[0]] + ys[1..];
      [ys[0]] + Insert(x, ys[1..], key)
  }

  function SortBy<T>(xs: seq<T>, key: T -> int): (r: seq<T>)
    ensures |r| == |xs|
  {
    if xs == [] then [] else Insert(xs[0], SortBy(xs[1..], key), key)
  }

  ghost predicate SortedBy<T>(xs: seq<T>, key: T -> int) {
    forall i, j :: 0 <= i < j < |xs| ==> key(xs[i]) <= key(xs[j])
  }

  /** The elements of xs whose key is k, in their original order. */
  function WithKey<T>(xs: seq<T>, key: T -> int, k: int): seq<T>
  {
    if xs == [] then []
    else (if key(xs[0]) == k then [xs[0]] else []) + WithKey(xs[1..], key, k)
  }

  lemma {:induction false} InsertSorted<T>(x: T, ys: seq<T>, key: T -> int)
    requires SortedBy(ys, key)
    ensures SortedBy(Insert(x, ys, key), key)
  {
    if ys != [] && key(x) > key(ys[0]) {
      InsertSorted(x, ys[1..], key);
      var r := Insert(x, ys, key);
      var t := Insert(x, ys[1..], key);
      assert r == [ys[0]] + t;
      assert multiset(t) == multiset(ys[1..]) + multiset{x};
      forall j | 0 < j < |r| ensures key(r[0]) <= key(r[j]) {
        assert r[j] == t[j - 1];
        assert r[j] in multiset(t);
        if r[j] == x {
        } else {
          assert r[j] in multiset(ys[1..]);
          var m :| 0 <= m < |ys[1..]| && ys[1..][m] == r[j];
          assert ys[m + 1] == r[j];
        }
      }
    }
  }

  /** The result of SortBy is ordered by the key. */
  lemma {:induction false} SortBySorted<T>(xs: seq<T>, key: T -> int)
    ensures SortedBy(SortBy(xs, key), key)
  {
    if xs != [] {
      SortBySorted(xs[1..], key);
      InsertSorted(xs[0], SortBy(xs[1..], key), key);
    }
  }

  /** The result of SortBy is a permutation of its input. */
  lemma {:induction false} SortByPermutation<T>(xs: seq<T>, key: T -> int)
    ensures multiset(SortBy(xs, key)) == multiset(xs)
  {
    if xs != [] {
      SortByPermutation(xs[1..], key);
      assert xs == [xs[0]] + xs[1..];
    }
  }

  lemma WithKeyCons<T>(y: T, t: seq<T>, key: T -> int, k: int)
    ensures WithKey([y] + t, key, k) == (if key(y) == k then [y] else []) + WithKey(t, key, k)
  {
    assert ([y] + t)[1..] == t;
  }

  lemma {:induction false} WithKeyInsert<T>(x: T, ys: seq<T>, key: T -> int, k: int)
    ensures WithKey(Insert(x, ys, key), key, k)
         == (if key(x) == k then [x] else []) + WithKey(ys, key, k)
  {
    var hx: seq<T> := if key(x) == k then [x] else [];
    if ys == [] {
      WithKeyCons(x, ys, key, k);
    } else if key(x) <= key(ys[0]) {
      WithKeyCons(x, ys, key, k);
    } else {
      var t := Insert(x, ys[1..], key);
      var hy: seq<T> := if key(ys[0]) == k then [ys[0]] else [];
      var rest := WithKey(ys[1..], key, k);
      assert Insert(x, ys, key) == [ys[0]] + t;
      WithKeyCons(ys[0], t, key, k);
      WithKeyInsert(x, ys[1..], key, k);
      assert ys == [ys[0]] + ys[1..];
      WithKeyCons(ys[0], ys[1..], key, k);
      assert hx == [] || hy == [];
      SwapEmpty(hx, hy, rest);
    }
  }

  lemma SwapEmpty<T>(a: seq<T>, b: seq<T>, rest: seq<T>)
    requires a == [] || b == []
    ensures b + (a + rest) == a + (b + rest)
  {
  }

  /** Stability: for every key value, the elements with that key appear in
      the result in the same order as in the input. */
  lemma {:induction false} SortByStable<T>(xs: seq<T>, key: T -> int, k: int)
    ensures WithKey(SortBy(xs, key), key, k) == WithKey(xs, key, k)
  {
    if xs != [] {
      WithKeyInsert(xs[0], SortBy(xs[1..], key), key, k);
      SortByStable(xs[1..], key, k);
    }
  }

  /** The earliest position holding a minimal key. */
  function FirstMin<T>(xs: seq<T>, key: T -> int): (i: nat)
    requires |xs| > 0
    ensures i < |xs|
    ensures forall j :: 0 <= j < |xs| ==> key(xs[i]) <= key(xs[j])
    ensures forall j :: 0 <= j < i ==> key(xs[j]) > key(xs[i])
  {
    if |xs| == 1 then 0
    else
      var t := FirstMin(xs[1..], key);
      assert forall j :: 1 <= j < |xs| ==> xs[j] == xs[1..][j - 1];
      if key(xs[0]) <= key(xs[1..][t]) then 0 else t + 1
  }

  /** The head of the sorted sequence is the earliest element of minimal key:
      what `sorted(...)[0]` gives in Python. */
  lemma {:induction false} SortByHead<T>(xs: seq<T>, key: T -> int)
    requires |xs| > 0
    ensures SortBy(xs, key)[0] == xs[FirstMin(xs, key)]
  {
    if |xs| > 1 {
      SortByHead(xs[1..], key);
      var s := SortBy(xs[1..], key);
      assert s[0] == xs[1..][FirstMin(xs[1..], key)];
    }
  }
}
