/** Total orders, stable sorting, and the order of Python strings.

    `list.sort` and `sorted` are modelled by `StableSort`; the lemmas below say that it is
    the stable sorted permutation of its argument, which is all Python promises about it. */
module Ordering {

  /** Python's `<=` on strings: lexicographic by code point. */
  predicate LexLeq(a: string, b: string) {
    a == "" || (b != "" && (a[0] < b[0] || (a[0] == b[0] && LexLeq(a[1..], b[1..]))))
  }

  lemma {:induction false} LexTotal(a: string, b: string)
    ensures LexLeq(a, b) || LexLeq(b, a)
  {
    if a != "" && b != "" && a[0] == b[0] {
      LexTotal(a[1..], b[1..]);
    }
  }

  lemma {:induction false} LexAntisymmetric(a: string, b: string)
    requires LexLeq(a, b) && LexLeq(b, a)
    ensures a == b
  {
    if a != "" && b != "" {
      LexAntisymmetric(a[1..], b[1..]);
      assert a == [a[0]] + a[1..] && b == [b[0]] + b[1..];
    }
  }

  lemma {:induction false} LexTransitive(a: string, b: string, c: string)
    requires LexLeq(a, b) && LexLeq(b, c)
    ensures LexLeq(a, c)
  {
    if a != "" && a[0] == b[0] == c[0] {
      LexTransitive(a[1..], b[1..], c[1..]);
    }
  }

  predicate LexLess(a: string, b: string) {
    LexLeq(a, b) && a != b
  }

  /** Tuples compare by their first difference; `restLeq` compares what follows the string. */
  predicate LexThen(a: string, b: string, restLeq: bool) {
    LexLess(a, b) || (a == b && restLeq)
  }

  lemma LexLessTransitive(a: string, b: string, c: string)
    ensures LexLess(a, b) && LexLess(b, c) ==> LexLess(a, c)
  {
    if LexLess(a, b) && LexLess(b, c) {
      LexTransitive(a, b, c);
      if a == c {
        LexAntisymmetric(a, b);
      }
    }
  }

  lemma LexTrichotomy(a: string, b: string)
    ensures LexLess(a, b) || LexLess(b, a) || a == b
    ensures !(LexLess(a, b) && LexLess(b, a))
  {
    LexTotal(a, b);
    if LexLess(a, b) && LexLess(b, a) {
      LexAntisymmetric(a, b);
    }
  }

  /** A comparison that any key function into a totally ordered type induces. */
  ghost predicate IsTotalPreorder<T(!new)>(leq: (T, T) -> bool) {
    && (forall x, y :: leq(x, y) || leq(y, x))
    && (forall x, y, z :: leq(x, y) && leq(y, z) ==> leq(x, z))
  }

  ghost predicate IsSorted<T(!new)>(leq: (T, T) -> bool, s: seq<T>) {
    forall i, j :: 0 <= i < j < |s| ==> leq(s[i], s[j])
  }

  /** Sorted, and no two entries are tied. */
  ghost predicate IsStrictlySorted<T(!new)>(leq: (T, T) -> bool, s: seq<T>) {
    forall i, j :: 0 <= i < j < |s| ==> leq(s[i], s[j]) && !leq(s[j], s[i])
  }

  ghost predicate Distinct<T(!new)>(s: seq<T>) {
    forall i, j :: 0 <= i < j < |s| ==> s[i] != s[j]
  }

  function Take<T>(s: seq<T>, n: nat): (r: seq<T>)
    ensures |r| == if |s| <= n then |s| else n
    ensures r <= s
  {
    if |s| <= n then s else s[..n]
  }

  function Drop<T>(s: seq<T>, n: nat): seq<T> {
    if |s| <= n then [] else s[n..]
  }

  function ToSet<T>(s: seq<T>): set<T> {
    set x | x in s
  }

  /** Places `x` behind every trailing entry that does not have to follow it. */
  function Insert<T>(leq: (T, T) -> bool, s: seq<T>, x: T): (r: seq<T>)
    ensures multiset(r) == multiset(s) + multiset{x}
    ensures |r| == |s| + 1
  {
    if s == [] then [x]
    else
      var last := s[|s| - 1];
      assert s == s[..|s| - 1] + [last];
      if leq(last, x) then s + [x] else Insert(leq, s[..|s| - 1], x) + [last]
  }

  /** Python's stable sort. */
  function StableSort<T>(leq: (T, T) -> bool, s: seq<T>): (r: seq<T>)
    ensures multiset(r) == multiset(s)
    ensures |r| == |s|
  {
    if s == [] then []
    else
      assert s == s[..|s| - 1] + [s[|s| - 1]];
      Insert(leq, StableSort(leq, s[..|s| - 1]), s[|s| - 1])
  }

  lemma SplitLast<T>(s: seq<T>, p: nat)
    requires p < |s|
    ensures s[..p] == s[..|s| - 1][..p] && s[p..] == s[..|s| - 1][p..] + [s[|s| - 1]]
  {
  }

  lemma AllBefore<T(!new)>(leq: (T, T) -> bool, s: seq<T>, x: T)
    requires IsTotalPreorder(leq) && IsSorted(leq, s)
    requires s == [] || leq(s[|s| - 1], x)
    ensures forall i :: 0 <= i < |s| ==> leq(s[i], x)
  {
    forall i | 0 <= i < |s| ensures leq(s[i], x) {
      assert leq(s[i], s[|s| - 1]) || i == |s| - 1;
    }
  }

  lemma SortedFront<T(!new)>(leq: (T, T) -> bool, s: seq<T>, n: nat)
    requires IsSorted(leq, s) && n <= |s|
    ensures IsSorted(leq, s[..n])
  {
  }

  /** Where `Insert` puts its argument in a sorted list. */
  lemma {:induction false} InsertPosition<T(!new)>(leq: (T, T) -> bool, s: seq<T>, x: T) returns (p: nat)
    requires IsTotalPreorder(leq) && IsSorted(leq, s)
    ensures p <= |s|
    ensures Insert(leq, s, x) == s[..p] + [x] + s[p..]
    ensures forall i :: 0 <= i < p ==> leq(s[i], x)
    ensures forall i :: p <= i < |s| ==> !leq(s[i], x)
  {
    hide IsTotalPreorder, IsSorted;
    if s == [] || leq(s[|s| - 1], x) {
      AllBefore(leq, s, x);
      p := |s|;
      assert s[..p] == s && s[p..] == [];
    } else {
      var front, last := s[..|s| - 1], s[|s| - 1];
      SortedFront(leq, s, |s| - 1);
      p := InsertPosition(leq, front, x);
      SplitLast(s, p);
      assert Insert(leq, s, x) == Insert(leq, front, x) + [last];
      hide Insert;
      assert front[..p] + [x] + front[p..] + [last] == front[..p] + [x] + (front[p..] + [last]);
      forall i | p <= i < |s| ensures !leq(s[i], x) {
        assert i < |front| ==> s[i] == front[i];
      }
      forall i | 0 <= i < p ensures leq(s[i], x) {
        assert s[i] == front[i];
      }
    }
  }

  lemma {:induction false} InsertSorted<T(!new)>(leq: (T, T) -> bool, s: seq<T>, x: T)
    requires IsTotalPreorder(leq) && IsSorted(leq, s)
    ensures IsSorted(leq, Insert(leq, s, x))
  {
    var p := InsertPosition(leq, s, x);
    var r := s[..p] + [x] + s[p..];
    forall i, j | 0 <= i < j < |r| ensures leq(r[i], r[j]) {
      if i < p <= j && j != p {
        assert r[j] == s[j - 1];
      }
    }
  }

  lemma {:induction false} SortSorted<T(!new)>(leq: (T, T) -> bool, s: seq<T>)
    requires IsTotalPreorder(leq)
    ensures IsSorted(leq, StableSort(leq, s))
  {
    if s != [] {
      SortSorted(leq, s[..|s| - 1]);
      InsertSorted(leq, StableSort(leq, s[..|s| - 1]), s[|s| - 1]);
    }
  }

  /** Sorting a sorted list changes nothing. */
  lemma {:induction false} SortOfSorted<T(!new)>(leq: (T, T) -> bool, s: seq<T>)
    requires IsTotalPreorder(leq) && IsSorted(leq, s)
    ensures StableSort(leq, s) == s
  {
    if s != [] {
      var n := |s| - 1;
      assert IsSorted(leq, s[..n]);
      SortOfSorted(leq, s[..n]);
      assert n > 0 ==> leq(s[..n][n - 1], s[n]);
      assert s == s[..n] + [s[n]];
    }
  }

  /** The entries tied with `e`, in order. */
  ghost function Tied<T(!new)>(leq: (T, T) -> bool, s: seq<T>, e: T): seq<T> {
    if s == [] then []
    else
      var x := s[|s| - 1];
      Tied(leq, s[..|s| - 1], e) + (if leq(x, e) && leq(e, x) then [x] else [])
  }

  lemma TiedSnoc<T(!new)>(leq: (T, T) -> bool, s: seq<T>, x: T, e: T)
    ensures Tied(leq, s + [x], e) == Tied(leq, s, e) + (if leq(x, e) && leq(e, x) then [x] else [])
  {
    assert (s + [x])[..|s|] == s;
  }

  /** Insertion is as good as appending, seen from any one class of ties. */
  lemma {:induction false} InsertStable<T(!new)>(leq: (T, T) -> bool, s: seq<T>, x: T, e: T)
    requires IsTotalPreorder(leq)
    ensures Tied(leq, Insert(leq, s, x), e) == Tied(leq, s + [x], e)
  {
    TiedSnoc(leq, s, x, e);
    if s == [] {
      TiedSnoc(leq, [], x, e);
      assert [] + [x] == [x];
    } else {
      var front, last := s[..|s| - 1], s[|s| - 1];
      if !leq(last, x) {
        InsertStable(leq, front, x, e);
        TiedSnoc(leq, Insert(leq, front, x), last, e);
        TiedSnoc(leq, front, x, e);
      }
    }
  }

  /** Stability: entries that compare equal keep their order. */
  lemma {:induction false} SortStable<T(!new)>(leq: (T, T) -> bool, s: seq<T>, e: T)
    requires IsTotalPreorder(leq)
    ensures Tied(leq, StableSort(leq, s), e) == Tied(leq, s, e)
  {
    if s != [] {
      var n := |s| - 1;
      var front := StableSort(leq, s[..n]);
      SortStable(leq, s[..n], e);
      InsertStable(leq, front, s[n], e);
      TiedSnoc(leq, front, s[n], e);
    }
  }

  lemma SortedHead<T(!new)>(leq: (T, T) -> bool, a: seq<T>, b: seq<T>)
    requires IsStrictlySorted(leq, a) && IsSorted(leq, b)
    requires a != [] && b != [] && a[0] in b && b[0] in a
    ensures a[0] == b[0]
  {
    var i :| 0 <= i < |a| && a[i] == b[0];
    var j :| 0 <= j < |b| && b[j] == a[0];
    assert j == 0 || leq(b[0], a[0]);
    assert i == 0;
  }

  lemma MultisetTail<T>(a: seq<T>)
    requires a != []
    ensures multiset(a[1..]) == multiset(a) - multiset{a[0]}
  {
    assert a == [a[0]] + a[1..];
  }

  lemma SameMultisetLength<T>(a: seq<T>, b: seq<T>)
    requires multiset(a) == multiset(b)
    ensures |a| == |b|
  {
    assert |multiset(a)| == |a| && |multiset(b)| == |b|;
  }

  lemma SortedTails<T(!new)>(leq: (T, T) -> bool, a: seq<T>, b: seq<T>)
    requires IsStrictlySorted(leq, a) && IsSorted(leq, b) && a != [] && b != []
    ensures IsStrictlySorted(leq, a[1..]) && IsSorted(leq, b[1..])
  {
  }

  /** Without ties the sorted order is the only sorted arrangement. */
  lemma {:induction false} SortedUnique<T(!new)>(leq: (T, T) -> bool, a: seq<T>, b: seq<T>)
    requires IsStrictlySorted(leq, a) && IsSorted(leq, b)
    requires multiset(a) == multiset(b)
    ensures a == b
  {
    hide IsStrictlySorted, IsSorted;
    SameMultisetLength(a, b);
    if a != [] {
      assert a[0] in multiset(b) && b[0] in multiset(a);
      SortedHead(leq, a, b);
      MultisetTail(a);
      MultisetTail(b);
      SortedTails(leq, a, b);
      SortedUnique(leq, a[1..], b[1..]);
      assert a == [a[0]] + a[1..] && b == [b[0]] + b[1..];
    }
  }

  lemma SortSame<T(!new)>(leq: (T, T) -> bool, s: seq<T>)
    ensures forall x :: x in StableSort(leq, s) <==> x in s
  {
    forall x ensures x in StableSort(leq, s) <==> x in s {
      assert x in multiset(StableSort(leq, s)) <==> x in multiset(s);
    }
  }

  lemma {:induction false} DistinctMultiset<T(!new)>(s: seq<T>)
    ensures Distinct(s) <==> (forall x :: multiset(s)[x] <= 1)
  {
    if s != [] {
      var n := |s| - 1;
      assert s == s[..n] + [s[n]];
      DistinctMultiset(s[..n]);
      if Distinct(s) {
        assert s[n] !in s[..n];
        forall x ensures multiset(s)[x] <= 1 {
          assert multiset(s)[x] == multiset(s[..n])[x] + multiset([s[n]])[x];
        }
      }
      if forall x :: multiset(s)[x] <= 1 {
        forall x ensures multiset(s[..n])[x] <= 1 {
          assert multiset(s)[x] <= 1;
        }
        assert multiset(s)[s[n]] <= 1;
        assert s[n] !in multiset(s[..n]);
        forall i, j | 0 <= i < j < |s| ensures s[i] != s[j] {
          if j == n {
            assert s[..n][i] == s[i];
          } else {
            assert s[..n][i] == s[i] && s[..n][j] == s[j];
          }
        }
      }
    }
  }

  /** Sorting neither creates nor removes repetitions. */
  lemma SortDistinct<T(!new)>(leq: (T, T) -> bool, s: seq<T>)
    ensures Distinct(StableSort(leq, s)) <==> Distinct(s)
  {
    DistinctMultiset(s);
    DistinctMultiset(StableSort(leq, s));
  }

  /** Two lists together repeat nothing if neither does and they have nothing in common. */
  lemma ConcatDistinct<T(!new)>(a: seq<T>, b: seq<T>)
    ensures Distinct(a + b) <==> Distinct(a) && Distinct(b) && forall x :: x in a ==> x !in b
  {
    var all := a + b;
    assert forall i :: 0 <= i < |a| ==> all[i] == a[i];
    assert forall j :: 0 <= j < |b| ==> all[|a| + j] == b[j];
    if Distinct(all) {
      forall i, j | 0 <= i < j < |b| ensures b[i] != b[j] {
        assert all[|a| + i] != all[|a| + j];
      }
      forall i, j | 0 <= i < |a| && 0 <= j < |b| ensures a[i] != b[j] {
        assert all[i] != all[|a| + j];
      }
    }
    if Distinct(a) && Distinct(b) && forall x :: x in a ==> x !in b {
      forall i, j | 0 <= i < j < |all| ensures all[i] != all[j] {
        if i < |a| <= j {
          assert a[i] in a && b[j - |a|] in b;
        }
      }
    }
  }
}
