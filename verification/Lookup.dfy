/** Dictionaries keyed by identifier, and grouping by a key (the helpers of validators.py). */
module Lookup {

  ghost predicate UniqueIds<T(!new)>(xs: seq<T>, key: T -> string) {
    forall i, j :: 0 <= i < j < |xs| ==> key(xs[i]) != key(xs[j])
  }

  /** The dictionary of `_index`: the first object of each identifier wins. */
  function ById<T>(xs: seq<T>, key: T -> string): map<string, T> {
    if xs == [] then map[]
    else
      var m := ById(xs[..|xs| - 1], key);
      var x := xs[|xs| - 1];
      if key(x) in m then m else m[key(x) := x]
  }

  /** The objects with a given key, in order: an entry of a grouping dictionary. */
  function Matching<T>(xs: seq<T>, key: T -> string, id: string): seq<T> {
    if xs == [] then []
    else
      Matching(xs[..|xs| - 1], key, id) + if key(xs[|xs| - 1]) == id then [xs[|xs| - 1]] else []
  }

  lemma {:induction false} ByIdMember<T(!new)>(xs: seq<T>, key: T -> string, id: string)
    requires id in ById(xs, key)
    ensures ById(xs, key)[id] in xs && key(ById(xs, key)[id]) == id
  {
    var n := |xs| - 1;
    if id in ById(xs[..n], key) {
      ByIdMember(xs[..n], key, id);
    }
  }

  lemma {:induction false} ByIdHas<T(!new)>(xs: seq<T>, key: T -> string, x: T)
    requires x in xs
    ensures key(x) in ById(xs, key)
  {
    var n := |xs| - 1;
    if x in xs[..n] {
      ByIdHas(xs[..n], key, x);
    }
  }

  lemma ByIdKeys<T(!new)>(xs: seq<T>, key: T -> string, id: string)
    ensures id in ById(xs, key) <==> exists i :: 0 <= i < |xs| && key(xs[i]) == id
  {
    if id in ById(xs, key) {
      ByIdMember(xs, key, id);
    }
    if i :| 0 <= i < |xs| && key(xs[i]) == id {
      ByIdHas(xs, key, xs[i]);
    }
  }

  /** With unique identifiers the dictionary finds every object. */
  lemma {:induction false} ByIdFinds<T(!new)>(xs: seq<T>, key: T -> string, x: T)
    requires UniqueIds(xs, key) && x in xs
    ensures key(x) in ById(xs, key) && ById(xs, key)[key(x)] == x
  {
    ByIdHas(xs, key, x);
    ByIdMember(xs, key, key(x));
    var y := ById(xs, key)[key(x)];
    var i :| 0 <= i < |xs| && xs[i] == x;
    var j :| 0 <= j < |xs| && xs[j] == y;
    assert i == j;
  }

  lemma {:induction false} MatchingMember<T(!new)>(xs: seq<T>, key: T -> string, id: string, x: T)
    ensures x in Matching(xs, key, id) <==> x in xs && key(x) == id
  {
    if xs != [] {
      var n := |xs| - 1;
      MatchingMember(xs[..n], key, id, x);
      assert xs == xs[..n] + [xs[n]];
    }
  }

  lemma {:induction false} MatchingConcat<T(!new)>(xs: seq<T>, ys: seq<T>, key: T -> string, id: string)
    ensures Matching(xs + ys, key, id) == Matching(xs, key, id) + Matching(ys, key, id)
  {
    if ys == [] {
      assert xs + ys == xs;
    } else {
      var n := |ys| - 1;
      MatchingConcat(xs, ys[..n], key, id);
      assert (xs + ys)[..|xs + ys| - 1] == xs + ys[..n];
    }
  }

  /** Adding objects with new identifiers only extends the dictionary. */
  lemma {:induction false} ByIdConcat<T(!new)>(xs: seq<T>, ys: seq<T>, key: T -> string)
    requires forall y :: y in ys ==> key(y) !in ById(xs, key)
    ensures ById(xs + ys, key) == ById(xs, key) + ById(ys, key)
  {
    if ys == [] {
      assert xs + ys == xs;
    } else {
      var n := |ys| - 1;
      ByIdConcat(xs, ys[..n], key);
      assert (xs + ys)[..|xs + ys| - 1] == xs + ys[..n];
    }
  }

  lemma UniqueConcat<T(!new)>(xs: seq<T>, ys: seq<T>, key: T -> string)
    requires UniqueIds(xs, key) && UniqueIds(ys, key)
    requires forall y :: y in ys ==> key(y) !in ById(xs, key)
    ensures UniqueIds(xs + ys, key)
  {
    forall i, j | 0 <= i < j < |xs + ys| ensures key((xs + ys)[i]) != key((xs + ys)[j]) {
      if i < |xs| <= j {
        ByIdHas(xs, key, xs[i]);
        assert ys[j - |xs|] in ys;
      }
    }
  }

  lemma NothingRepeats<T(!new)>(xs: seq<T>, key: T -> string)
    ensures UniqueIds(xs[..0], key)
  {
  }

  lemma UniqueSnoc<T(!new)>(xs: seq<T>, i: nat, key: T -> string)
    requires i < |xs|
    ensures UniqueIds(xs[..i + 1], key) <==> UniqueIds(xs[..i], key) && key(xs[i]) !in ById(xs[..i], key)
  {
    var front, all := xs[..i], xs[..i + 1];
    ByIdKeys(front, key, key(xs[i]));
    assert forall a :: 0 <= a < i ==> front[a] == all[a];
    assert all[i] == xs[i];
  }

  // ---------------------------------------------------------------- grouping dictionaries

  function Group<T>(m: map<string, seq<T>>, id: string): seq<T> {
    if id in m then m[id] else []
  }

  ghost predicate Groups<T(!new)>(m: map<string, seq<T>>, xs: seq<T>, key: T -> string) {
    forall id :: Group(m, id) == Matching(xs, key, id)
  }

  function Append<T>(m: map<string, seq<T>>, id: string, x: T): map<string, seq<T>> {
    m[id := Group(m, id) + [x]]
  }

  lemma NothingGrouped<T(!new)>(xs: seq<T>, key: T -> string)
    ensures Groups(map[], xs[..0], key)
  {
  }

  lemma GroupsSnoc<T(!new)>(m: map<string, seq<T>>, xs: seq<T>, i: nat, key: T -> string)
    requires i < |xs| && Groups(m, xs[..i], key)
    ensures Groups(Append(m, key(xs[i]), xs[i]), xs[..i + 1], key)
  {
    assert xs[..i + 1][..i] == xs[..i];
    var more := Append(m, key(xs[i]), xs[i]);
    forall id ensures Group(more, id) == Matching(xs[..i + 1], key, id) {
      assert Group(m, id) == Matching(xs[..i], key, id);
    }
  }

  /** Nobody else has the key of the only match. */
  lemma {:induction false} SingleMatch<T(!new)>(xs: seq<T>, key: T -> string, x: T)
    requires x in xs && |Matching(xs, key, key(x))| == 1
    ensures Matching(xs, key, key(x)) == [x]
  {
    MatchingMember(xs, key, key(x), x);
  }

  lemma {:induction false} NoMatch<T(!new)>(xs: seq<T>, key: T -> string, id: string)
    requires forall x :: x in xs ==> key(x) != id
    ensures Matching(xs, key, id) == []
  {
    if xs != [] {
      NoMatch(xs[..|xs| - 1], key, id);
    }
  }

  /** A grouping dictionary filled in a loop of its own. */
  method GroupBy<T(!new)>(xs: seq<T>, key: T -> string) returns (m: map<string, seq<T>>)
    ensures Groups(m, xs, key)
  {
    hide Groups;
    m := map[];
    NothingGrouped(xs, key);
    var i := 0;
    while i < |xs|
      invariant 0 <= i <= |xs|
      invariant Groups(m, xs[..i], key)
    {
      GroupsSnoc(m, xs, i, key);
      m := Append(m, key(xs[i]), xs[i]);
      i := i + 1;
    }
    assert xs[..i] == xs;
  }
}
