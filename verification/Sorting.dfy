/** The list a stable sort by a descending key leaves behind. */
module Sorting {

  /** x goes behind everything whose key is not smaller. */
  function Insert<T>(x: T, sorted: seq<T>, key: T -> real): (r: seq<T>)
    ensures |r| == |sorted| + 1 && multiset(r) == multiset(sorted) + multiset{x}
  {
    var last := |sorted| - 1;
    if sorted == [] || key(sorted[last]) >= key(x) then sorted + [x]
    else
      assert sorted == sorted[..last] + [sorted[last]];
      Insert(x, sorted[..last], key) + [sorted[last]]
  }

  function SortDescending<T>(xs: seq<T>, key: T -> real): (r: seq<T>)
    ensures |r| == |xs| && multiset(r) == multiset(xs)
  {
    if xs == [] then []
    else
      assert xs == xs[..|xs| - 1] + [xs[|xs| - 1]];
      Insert(xs[|xs| - 1], SortDescending(xs[..|xs| - 1], key), key)
  }

  ghost predicate Descending<T>(xs: seq<T>, key: T -> real) {
    forall i, j :: 0 <= i < j < |xs| ==> key(xs[i]) >= key(xs[j])
  }

  /** The elements with one key, in order. */
  function WithKey<T>(xs: seq<T>, key: T -> real, k: real): seq<T> {
    if xs == [] then []
    else WithKey(xs[..|xs| - 1], key, k) + if key(xs[|xs| - 1]) == k then [xs[|xs| - 1]] else []
  }

  lemma {:induction false} InsertDescending<T>(x: T, sorted: seq<T>, key: T -> real)
    requires Descending(sorted, key)
    ensures Descending(Insert(x, sorted, key), key)
  {
    var last := |sorted| - 1;
    if sorted != [] && key(sorted[last]) < key(x) {
      InsertDescending(x, sorted[..last], key);
      var front := Insert(x, sorted[..last], key);
      forall i | 0 <= i < |front| ensures key(front[i]) >= key(sorted[last]) {
        assert front[i] in multiset(front);
        assert front[i] == x || front[i] in sorted[..last];
      }
    }
  }

  lemma {:induction false} WithKeySnoc<T>(xs: seq<T>, x: T, key: T -> real, k: real)
    ensures WithKey(xs + [x], key, k) == WithKey(xs, key, k) + if key(x) == k then [x] else []
  {
    assert (xs + [x])[..|xs|] == xs;
  }

  lemma {:induction false} InsertStable<T>(x: T, sorted: seq<T>, key: T -> real, k: real)
    requires Descending(sorted, key)
    ensures WithKey(Insert(x, sorted, key), key, k) == WithKey(sorted, key, k) + if key(x) == k then [x] else []
  {
    var last := |sorted| - 1;
    if sorted == [] || key(sorted[last]) >= key(x) {
      WithKeySnoc(sorted, x, key, k);
    } else {
      InsertStable(x, sorted[..last], key, k);
      WithKeySnoc(Insert(x, sorted[..last], key), sorted[last], key, k);
    }
  }

  /** Sorted, and every group of equal keys keeps its order (so it is also a permutation). */
  lemma {:induction false} SortedAndStable<T>(xs: seq<T>, key: T -> real, k: real)
    ensures Descending(SortDescending(xs, key), key)
    ensures WithKey(SortDescending(xs, key), key, k) == WithKey(xs, key, k)
  {
    if xs != [] {
      var front, x := xs[..|xs| - 1], xs[|xs| - 1];
      SortedAndStable(front, key, k);
      InsertDescending(x, SortDescending(front, key), key);
      InsertStable(x, SortDescending(front, key), key, k);
    }
  }

  /** There is only one stable descending order: whatever algorithm a library uses, it returns this list. */
  lemma {:induction false} StableOrderUnique<T>(xs: seq<T>, ys: seq<T>, key: T -> real)
    requires Descending(xs, key) && Descending(ys, key)
    requires forall k :: WithKey(xs, key, k) == WithKey(ys, key, k)
    ensures xs == ys
  {
    if xs == [] {
      NoKeysNoElements(ys, key);
    } else if ys == [] {
      NoKeysNoElements(xs, key);
    } else {
      var m, n := |xs| - 1, |ys| - 1;
      var a, b := key(xs[m]), key(ys[n]);
      SmallestKeyLast(ys, key, a);
      SmallestKeyLast(xs, key, b);
      assert a == b;
      var last := WithKey(xs, key, a);
      assert last == WithKey(ys, key, b);
      assert xs[m] == last[|last| - 1] == ys[n];
      forall k ensures WithKey(xs[..m], key, k) == WithKey(ys[..n], key, k) {
        var p, q := WithKey(xs, key, k), WithKey(ys, key, k);
        if k == a {
          assert WithKey(xs[..m], key, k) == p[..|p| - 1];
          assert WithKey(ys[..n], key, k) == q[..|q| - 1];
        } else {
          assert WithKey(xs[..m], key, k) == p;
          assert WithKey(ys[..n], key, k) == q;
        }
      }
      StableOrderUnique(xs[..m], ys[..n], key);
      assert xs == xs[..m] + [xs[m]] && ys == ys[..n] + [ys[n]];
    }
  }

  lemma NoKeysNoElements<T>(xs: seq<T>, key: T -> real)
    requires forall k :: WithKey(xs, key, k) == []
    ensures xs == []
  {
    assert xs == [] || WithKey(xs, key, key(xs[|xs| - 1])) != [];
  }

  /** A key that occurs in a descending list is at least the last one. */
  lemma {:induction false} SmallestKeyLast<T>(xs: seq<T>, key: T -> real, k: real)
    requires xs != [] && Descending(xs, key)
    ensures WithKey(xs, key, k) != [] ==> k >= key(xs[|xs| - 1])
  {
    var last := |xs| - 1;
    if last == 0 {
      assert WithKey(xs[..last], key, k) == [];
    } else if key(xs[last]) != k {
      SmallestKeyLast(xs[..last], key, k);
      assert key(xs[last - 1]) >= key(xs[last]);
    }
  }
}
