/** Regrouping: sums and unions over a list, taken group by group. */
module Tallies {
  import opened Ordering

  function Total<T>(xs: seq<T>, w: T -> nat): nat {
    if xs == [] then 0 else Total(xs[..|xs| - 1], w) + w(xs[|xs| - 1])
  }

  function Where<T(!new), K(==)>(xs: seq<T>, key: T -> K, k: K): (r: seq<T>)
    ensures forall x :: x in r <==> x in xs && key(x) == k
  {
    if xs == [] then []
    else
      assert xs == xs[..|xs| - 1] + [xs[|xs| - 1]];
      Where(xs[..|xs| - 1], key, k) + if key(xs[|xs| - 1]) == k then [xs[|xs| - 1]] else []
  }

  function Union<T(!new), U(!new)>(xs: seq<T>, f: T -> set<U>): (r: set<U>)
    ensures forall x :: x in xs ==> f(x) <= r
    ensures forall u :: u in r ==> exists x :: x in xs && u in f(x)
  {
    if xs == [] then {}
    else
      assert xs == xs[..|xs| - 1] + [xs[|xs| - 1]];
      Union(xs[..|xs| - 1], f) + f(xs[|xs| - 1])
  }

  /** The sum over the groups of the keys in `ks`. */
  function TotalBy<T(!new), K(==)>(xs: seq<T>, key: T -> K, ks: seq<K>, w: T -> nat): nat {
    if ks == [] then 0 else TotalBy(xs, key, ks[..|ks| - 1], w) + Total(Where(xs, key, ks[|ks| - 1]), w)
  }

  lemma TotalSnoc<T>(xs: seq<T>, x: T, w: T -> nat)
    ensures Total(xs + [x], w) == Total(xs, w) + w(x)
  {
    assert (xs + [x])[..|xs|] == xs;
  }

  lemma {:induction false} TotalWithout<T>(xs: seq<T>, i: nat, w: T -> nat)
    requires i < |xs|
    ensures Total(xs, w) == Total(xs[..i] + xs[i + 1..], w) + w(xs[i])
  {
    var n := |xs| - 1;
    if i == n {
      assert xs[..i] + xs[i + 1..] == xs[..n];
    } else {
      TotalWithout(xs[..n], i, w);
      assert xs[..n][..i] == xs[..i];
      TotalSnoc(xs[..i] + xs[..n][i + 1..], xs[n], w);
      assert xs[..i] + xs[i + 1..] == xs[..i] + xs[..n][i + 1..] + [xs[n]];
    }
  }

  lemma MultisetWithout<T>(xs: seq<T>, i: nat)
    requires i < |xs|
    ensures multiset(xs[..i] + xs[i + 1..]) == multiset(xs) - multiset{xs[i]}
  {
    assert xs == xs[..i] + ([xs[i]] + xs[i + 1..]);
  }

  /** The order of a list does not matter to its sum. */
  lemma {:induction false} TotalPermuted<T(!new)>(xs: seq<T>, ys: seq<T>, w: T -> nat)
    requires multiset(xs) == multiset(ys)
    ensures Total(xs, w) == Total(ys, w)
  {
    SameMultisetLength(xs, ys);
    if xs != [] {
      var n := |xs| - 1;
      assert xs == xs[..n] + [xs[n]];
      assert xs[n] in multiset(ys);
      var i :| 0 <= i < |ys| && ys[i] == xs[n];
      MultisetWithout(xs, n);
      MultisetWithout(ys, i);
      assert xs[..n] + xs[n + 1..] == xs[..n];
      TotalPermuted(xs[..n], ys[..i] + ys[i + 1..], w);
      TotalWithout(ys, i, w);
    }
  }

  lemma WhereSnoc<T(!new), K>(xs: seq<T>, x: T, key: T -> K, k: K)
    ensures Where(xs + [x], key, k) == Where(xs, key, k) + if key(x) == k then [x] else []
  {
    assert (xs + [x])[..|xs|] == xs;
  }

  lemma GroupTotalSnoc<T(!new), K(!new)>(xs: seq<T>, x: T, key: T -> K, k: K, w: T -> nat)
    ensures Total(Where(xs + [x], key, k), w) == Total(Where(xs, key, k), w) + if key(x) == k then w(x) else 0
  {
    hide Where, Total;
    WhereSnoc(xs, x, key, k);
    TotalSnoc(Where(xs, key, k), x, w);
    assert Where(xs, key, k) + [] == Where(xs, key, k);
  }

  lemma {:induction false} TotalBySnoc<T(!new), K(!new)>(xs: seq<T>, x: T, key: T -> K, ks: seq<K>, w: T -> nat)
    requires Distinct(ks)
    ensures TotalBy(xs + [x], key, ks, w) == TotalBy(xs, key, ks, w) + if key(x) in ks then w(x) else 0
  {
    hide Where, Total;
    if ks != [] {
      var n := |ks| - 1;
      assert ks == ks[..n] + [ks[n]] && ks[n] !in ks[..n];
      TotalBySnoc(xs, x, key, ks[..n], w);
      GroupTotalSnoc(xs, x, key, ks[n], w);
    }
  }

  /** Summing group by group gives the sum. */
  lemma {:induction false} GroupsSum<T(!new), K(!new)>(xs: seq<T>, key: T -> K, ks: seq<K>, w: T -> nat)
    requires Distinct(ks) && forall x :: x in xs ==> key(x) in ks
    ensures TotalBy(xs, key, ks, w) == Total(xs, w)
  {
    if xs == [] {
      EmptyTotals(key, ks, w);
    } else {
      var n := |xs| - 1;
      assert xs == xs[..n] + [xs[n]];
      GroupsSum(xs[..n], key, ks, w);
      TotalBySnoc(xs[..n], xs[n], key, ks, w);
    }
  }

  lemma {:induction false} EmptyTotals<T(!new), K(!new)>(key: T -> K, ks: seq<K>, w: T -> nat)
    ensures TotalBy([], key, ks, w) == 0
  {
    if ks != [] {
      EmptyTotals(key, ks[..|ks| - 1], w);
    }
  }

  /** How many different values the groups have, summed. */
  function SizesBy<T(!new), K(==), U(!new)>(xs: seq<T>, key: T -> K, ks: seq<K>, f: T -> set<U>): nat {
    if ks == [] then 0 else SizesBy(xs, key, ks[..|ks| - 1], f) + |Union(Where(xs, key, ks[|ks| - 1]), f)|
  }

  ghost function UnionBy<T(!new), K(!new), U(!new)>(xs: seq<T>, key: T -> K, ks: seq<K>, f: T -> set<U>): set<U> {
    if ks == [] then {} else UnionBy(xs, key, ks[..|ks| - 1], f) + Union(Where(xs, key, ks[|ks| - 1]), f)
  }

  lemma {:induction false} CardSubset<U>(a: set<U>, b: set<U>)
    requires a <= b
    ensures |a| <= |b|
  {
    assert b == a + (b - a);
    assert |b| == |a| + |b - a|;
  }

  lemma {:induction false} UnionByBounded<T(!new), K(!new), U(!new)>(xs: seq<T>, key: T -> K, ks: seq<K>, f: T -> set<U>)
    ensures |UnionBy(xs, key, ks, f)| <= SizesBy(xs, key, ks, f)
  {
    if ks != [] {
      UnionByBounded(xs, key, ks[..|ks| - 1], f);
    }
  }

  lemma {:induction false} UnionByCovers<T(!new), K(!new), U(!new)>(xs: seq<T>, key: T -> K, ks: seq<K>, f: T -> set<U>, x: T)
    requires x in xs && key(x) in ks
    ensures f(x) <= UnionBy(xs, key, ks, f)
  {
    var n := |ks| - 1;
    assert ks == ks[..n] + [ks[n]];
    if key(x) != ks[n] {
      UnionByCovers(xs, key, ks[..n], f, x);
    }
  }

  /** A union has at most as many members as its groups together. */
  lemma GroupsBound<T(!new), K(!new), U(!new)>(xs: seq<T>, key: T -> K, ks: seq<K>, f: T -> set<U>)
    requires forall x :: x in xs ==> key(x) in ks
    ensures |Union(xs, f)| <= SizesBy(xs, key, ks, f)
  {
    forall u | u in Union(xs, f) ensures u in UnionBy(xs, key, ks, f) {
      var x :| x in xs && u in f(x);
      UnionByCovers(xs, key, ks, f, x);
    }
    CardSubset(Union(xs, f), UnionBy(xs, key, ks, f));
    UnionByBounded(xs, key, ks, f);
  }

  /** A group has at most as many values as the whole list. */
  lemma GroupWithin<T(!new), U(!new)>(part: seq<T>, xs: seq<T>, f: T -> set<U>)
    requires forall x :: x in part ==> x in xs
    ensures Union(part, f) <= Union(xs, f) && |Union(part, f)| <= |Union(xs, f)|
  {
    forall u | u in Union(part, f) ensures u in Union(xs, f) {
      var x :| x in part && u in f(x);
    }
    CardSubset(Union(part, f), Union(xs, f));
  }

  /** One value per entry: no more values than entries. */
  lemma {:induction false} SingletonsBound<T(!new), U(!new)>(xs: seq<T>, f: T -> set<U>)
    requires forall x :: x in xs ==> |f(x)| <= 1
    ensures |Union(xs, f)| <= |xs|
  {
    if xs != [] {
      var n := |xs| - 1;
      assert xs == xs[..n] + [xs[n]];
      SingletonsBound(xs[..n], f);
    }
  }

  /** What one more entry adds to a doubly filtered list. */
  lemma WhereTwiceSnoc<T(!new), K(!new), L(!new)>(xs: seq<T>, x: T, key: T -> K, k: K, other: T -> L, l: L)
    ensures Where(Where(xs + [x], key, k), other, l)
         == Where(Where(xs, key, k), other, l) + if key(x) == k && other(x) == l then [x] else []
  {
    hide Where;
    WhereSnoc(xs, x, key, k);
    var a := Where(xs, key, k);
    WhereSnoc(a, x, other, l);
    assert a + [] == a && Where(a, other, l) + [] == Where(a, other, l);
  }

  /** Filtering by two keys can be done in either order. */
  lemma {:induction false} WhereCommutes<T(!new), K(!new), L(!new)>(xs: seq<T>, key: T -> K, k: K, other: T -> L, l: L)
    ensures Where(Where(xs, key, k), other, l) == Where(Where(xs, other, l), key, k)
  {
    if xs != [] {
      var n := |xs| - 1;
      WhereCommutes(xs[..n], key, k, other, l);
      hide Where;
      assert xs == xs[..n] + [xs[n]];
      WhereTwiceSnoc(xs[..n], xs[n], key, k, other, l);
      WhereTwiceSnoc(xs[..n], xs[n], other, l, key, k);
    }
  }
}
