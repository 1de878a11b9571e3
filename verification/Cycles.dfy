/** The two cycle detectors of the repository validators (validators.py): following references with
    a seen set, and depth-first colouring. Both look at a map that sends a name to its successor. */
module Cycles {
  import opened Basics

  /** Where `n` steps from `start` lead; nowhere once a name has no successor. */
  ghost function Follow(next: map<string, string>, start: string, n: nat): Option<string> {
    if n == 0 then Some(start)
    else
      match Follow(next, start, n - 1)
      case None => None
      case Some(x) => if x in next then Some(next[x]) else None
  }

  ghost predicate NeverEnds(next: map<string, string>, start: string) {
    forall n: nat :: Follow(next, start, n).Some?
  }

  lemma {:induction false} FollowLater(next: map<string, string>, start: string, m: nat, n: nat)
    requires Follow(next, start, m).Some?
    ensures Follow(next, start, m + n) == Follow(next, Follow(next, start, m).value, n)
  {
    if n > 0 {
      FollowLater(next, start, m, n - 1);
    }
  }

  lemma {:induction false} FollowEarlier(next: map<string, string>, start: string, m: nat, n: nat)
    requires m <= n && Follow(next, start, n).Some?
    ensures Follow(next, start, m).Some?
    decreases n - m
  {
    if m < n {
      FollowEarlier(next, start, m + 1, n);
    }
  }

  /** Coming back to a name means going round for ever. */
  lemma {:induction false} ReturnNeverEnds(next: map<string, string>, start: string, m: nat, n: nat, k: nat)
    requires m < n && Follow(next, start, n).Some? && Follow(next, start, m) == Follow(next, start, n)
    ensures Follow(next, start, k).Some?
  {
    if k <= n {
      FollowEarlier(next, start, k, n);
    } else {
      var x := Follow(next, start, n).value;
      FollowEarlier(next, start, m, n);
      FollowLater(next, start, n, k - n);
      FollowLater(next, start, m, k - n);
      ReturnNeverEnds(next, start, m, n, m + (k - n));
    }
  }

  // ---------------------------------------------------------------- following with a seen set

  ghost predicate PassedBefore(next: map<string, string>, start: string, n: nat, x: string) {
    exists m: nat :: m < n && Follow(next, start, m) == Some(x)
  }

  lemma LaterPassed(next: map<string, string>, start: string, n: nat, seen: set<string>)
    requires Follow(next, start, n).Some?
    requires forall x :: x in seen ==> PassedBefore(next, start, n, x)
    ensures forall x :: x in seen + {Follow(next, start, n).value} ==> PassedBefore(next, start, n + 1, x)
  {
    forall x | x in seen + {Follow(next, start, n).value} ensures PassedBefore(next, start, n + 1, x) {
      if x in seen {
        var m: nat :| m < n && Follow(next, start, m) == Some(x);
        assert m < n + 1;
      }
    }
  }

  lemma PassedTwice(next: map<string, string>, start: string, n: nat, x: string)
    requires PassedBefore(next, start, n, x) && Follow(next, start, n) == Some(x)
    ensures NeverEnds(next, start)
  {
    var m: nat :| m < n && Follow(next, start, m) == Some(x);
    forall k: nat ensures Follow(next, start, k).Some? {
      ReturnNeverEnds(next, start, m, n, k);
    }
  }

  /** The loop of `_collect_retrieval_bundle` that starts at one reference. */
  method WalkFindsCycle(next: map<string, string>, start: string) returns (cyclic: bool)
    ensures cyclic <==> NeverEnds(next, start)
  {
    hide PassedBefore;
    var seen: set<string> := {};
    var current := start;
    ghost var n: nat := 0;
    while current in next
      invariant Follow(next, start, n) == Some(current) && seen <= next.Keys
      invariant forall x :: x in seen ==> PassedBefore(next, start, n, x)
      decreases next.Keys - seen
    {
      if current in seen {
        PassedTwice(next, start, n, current);
        return true;
      }
      LaterPassed(next, start, n, seen);
      seen := seen + {current};
      current := next[current];
      n := n + 1;
    }
    assert Follow(next, start, n + 1).None?;
    cyclic := false;
  }

  ghost predicate EndsAfter(next: map<string, string>, start: string, n: nat) {
    Follow(next, start, n).Some? && Follow(next, start, n + 1).None?
  }

  /** How many steps the walk from `start` takes before it runs out of references. */
  ghost function Steps(next: map<string, string>, start: string): (n: nat)
    requires !NeverEnds(next, start)
    ensures EndsAfter(next, start, n)
  {
    WalkEnds(next, start);
    var n: nat :| EndsAfter(next, start, n);
    n
  }

  lemma WalkEnds(next: map<string, string>, start: string)
    requires !NeverEnds(next, start)
    ensures exists n: nat :: EndsAfter(next, start, n)
  {
    var k: nat :| Follow(next, start, k).None?;
    LastStep(next, start, k);
  }

  lemma {:induction false} LastStep(next: map<string, string>, start: string, k: nat)
    requires Follow(next, start, k).None?
    ensures exists n: nat :: EndsAfter(next, start, n)
  {
    if Follow(next, start, k - 1).None? {
      LastStep(next, start, k - 1);
    } else {
      assert EndsAfter(next, start, k - 1);
    }
  }

  lemma StepsUnique(next: map<string, string>, start: string, n: nat)
    requires !NeverEnds(next, start) && EndsAfter(next, start, n)
    ensures Steps(next, start) == n
  {
    var k := Steps(next, start);
    if k < n {
      FollowEarlier(next, start, k + 1, n);
    } else if n < k {
      FollowEarlier(next, start, n + 1, k);
    }
  }

  ghost predicate WellFounded(next: map<string, string>) {
    forall start :: start in next ==> !NeverEnds(next, start)
  }

  /** When no walk is reported, references are well founded: each leads strictly closer to an end. */
  lemma ReferencesDescend(next: map<string, string>, x: string)
    requires WellFounded(next) && x in next
    ensures !NeverEnds(next, x) && !NeverEnds(next, next[x])
    ensures Steps(next, next[x]) < Steps(next, x)
  {
    var n := Steps(next, x);
    assert Follow(next, x, 0) == Some(x);
    assert Follow(next, x, 1) == Some(next[x]);
    assert n > 0;
    FollowLater(next, x, 1, n - 1);
    FollowLater(next, x, 1, n);
    StepsUnique(next, next[x], n - 1);
  }

  /** New names that refer to old ones only add walks that end. */
  lemma ExtensionWellFounded(before: map<string, string>, now: map<string, string>, added: set<string>)
    requires WellFounded(before) && before.Keys !! added
    requires now.Keys <= before.Keys + added && forall x :: x in before ==> x in now && now[x] == before[x]
    requires forall x :: x in now ==> now[x] !in added
    ensures WellFounded(now)
  {
    forall start | start in now ensures !NeverEnds(now, start) {
      if start in added {
        var t := now[start];
        if t in before {
          var n := Steps(before, t);
          assert Follow(before, t, n + 1).None?;
          FollowSame(before, now, added, t, n + 1);
          assert Follow(now, start, 0) == Some(start);
          assert Follow(now, start, 1) == Some(t);
          FollowLater(now, start, 1, n + 1);
        } else {
          assert Follow(now, start, 0) == Some(start);
          assert Follow(now, start, 1) == Some(t);
          assert t !in now;
          assert Follow(now, start, 2).None?;
        }
      } else {
        var n := Steps(before, start);
        FollowSame(before, now, added, start, n + 1);
      }
    }
  }

  lemma {:induction false} FollowSame(before: map<string, string>, now: map<string, string>, added: set<string>, start: string, n: nat)
    requires start !in added && now.Keys <= before.Keys + added
    requires forall x :: x in before ==> x in now && now[x] == before[x]
    requires forall x :: x in now ==> now[x] !in added
    ensures Follow(now, start, n) == Follow(before, start, n)
    ensures Follow(now, start, n).Some? ==> Follow(now, start, n).value !in added
  {
    if n > 0 {
      FollowSame(before, now, added, start, n - 1);
    }
  }

  // ---------------------------------------------------------------- depth-first colouring

  ghost predicate OnCycle(next: map<string, string>, x: string) {
    exists n: nat :: n > 0 && Follow(next, x, n) == Some(x)
  }

  /** A closed path: its last name is its first, and no other name repeats. */
  ghost predicate IsCycle(next: map<string, string>, c: seq<string>) {
    && |c| >= 3 && c[0] == c[|c| - 1]
    && (forall i :: 0 <= i < |c| - 1 ==> c[i] in next && next[c[i]] == c[i + 1])
    && (forall i, j :: 0 <= i < j < |c| - 1 ==> c[i] != c[j])
  }

  ghost predicate Reported(cycles: seq<seq<string>>, x: string) {
    exists i :: 0 <= i < |cycles| && x in cycles[i]
  }

  lemma {:induction false} FollowAlongCycle(next: map<string, string>, c: seq<string>, i: nat, n: nat)
    requires IsCycle(next, c) && i < |c| - 1
    ensures Follow(next, c[i], n).Some? && Follow(next, c[i], n).value in c[..|c| - 1]
  {
    if n > 0 {
      FollowAlongCycle(next, c, i, n - 1);
      var x := Follow(next, c[i], n - 1).value;
      var j :| 0 <= j < |c| - 1 && c[j] == x;
      assert next[x] == c[j + 1];
      assert next[x] == if j + 1 == |c| - 1 then c[..|c| - 1][0] else c[..|c| - 1][j + 1];
    }
  }

  lemma {:induction false} FollowInCycle(next: map<string, string>, c: seq<string>, i: nat, n: nat)
    requires IsCycle(next, c) && i + n < |c|
    ensures Follow(next, c[i], n) == Some(c[i + n])
  {
    if n > 0 {
      FollowInCycle(next, c, i, n - 1);
    }
  }

  /** Every name of a closed path lies on a cycle. */
  lemma CycleIsOnCycle(next: map<string, string>, c: seq<string>, i: nat)
    requires IsCycle(next, c) && i < |c|
    ensures OnCycle(next, c[i])
  {
    var n := |c| - 1;
    if i == n {
      CycleIsOnCycle(next, c, 0);
    } else {
      FollowInCycle(next, c, i, n - i);
      FollowInCycle(next, c, 0, i);
      FollowLater(next, c[i], n - i, i);
      assert Follow(next, c[i], n) == Some(c[i]);
    }
  }

  /** A name on a cycle whose successor lies on a closed path lies on that path. */
  lemma PredecessorInCycle(next: map<string, string>, c: seq<string>, x: string)
    requires IsCycle(next, c) && OnCycle(next, x) && x in next && next[x] in c
    ensures x in c
  {
    var n: nat :| n > 0 && Follow(next, x, n) == Some(x);
    var i :| 0 <= i < |c| && c[i] == next[x];
    var k := if i == |c| - 1 then 0 else i;
    assert Follow(next, x, 0) == Some(x);
    assert Follow(next, x, 1) == Some(next[x]);
    FollowLater(next, x, 1, n - 1);
    FollowAlongCycle(next, c, k, n - 1);
  }

  lemma SuccessorOnCycle(next: map<string, string>, x: string)
    requires OnCycle(next, x)
    ensures x in next && OnCycle(next, next[x])
  {
    var n: nat :| n > 0 && Follow(next, x, n) == Some(x);
    assert Follow(next, x, 0) == Some(x);
    FollowEarlier(next, x, 1, n);
    assert Follow(next, x, 1) == Some(next[x]);
    FollowLater(next, x, 1, n - 1);
    assert Follow(next, next[x], n - 1) == Some(x);
    assert Follow(next, next[x], n) == Some(next[x]);
  }

  ghost predicate AllCycles(next: map<string, string>, cycles: seq<seq<string>>) {
    forall i :: 0 <= i < |cycles| ==> IsCycle(next, cycles[i])
  }

  ghost predicate NoneShared(cycles: seq<seq<string>>) {
    forall i, j, x :: 0 <= i < j < |cycles| && x in cycles[i] ==> x !in cycles[j]
  }

  /** One closed path for every cycle of `next`, and nothing else. */
  ghost predicate ExactlyTheCycles(next: map<string, string>, cycles: seq<seq<string>>) {
    && AllCycles(next, cycles) && NoneShared(cycles)
    && forall x :: OnCycle(next, x) <==> Reported(cycles, x)
  }

  /** The parent links that the walk follows: a parent that exists and is not the theme itself. */
  function ParentLinks(parents: map<string, Option<string>>): map<string, string> {
    map x | x in parents && parents[x].Some? && parents[x].value in parents && parents[x].value != x :: parents[x].value
  }

  /** Each name of the trail leads to the next, and the last one to `head`. */
  ghost predicate IsTrail(next: map<string, string>, trail: seq<string>, head: string) {
    && (forall i, j :: 0 <= i < j < |trail| ==> trail[i] != trail[j])
    && (forall i :: 0 <= i < |trail| ==> LeadsTo(next, trail[i], After(trail, i, head)))
  }

  ghost predicate LeadsTo(next: map<string, string>, x: string, y: string) {
    x in next && next[x] == y
  }

  function After(trail: seq<string>, i: nat, head: string): string
    requires i < |trail|
  {
    if i + 1 < |trail| then trail[i + 1] else head
  }

  function FirstIndex(s: seq<string>, x: string): (i: nat)
    requires x in s
    ensures i < |s| && s[i] == x && x !in s[..i]
  {
    if s[0] == x then 0 else
      var i := 1 + FirstIndex(s[1..], x);
      assert s[..i] == [s[0]] + s[1..][..i - 1];
      i
  }

  lemma TrailLinks(next: map<string, string>, trail: seq<string>, head: string, k: nat, i: nat)
    requires IsTrail(next, trail, head) && k + i < |trail|
    ensures var c := trail[k..] + [head]; c[i] in next && next[c[i]] == c[i + 1]
  {
    assert LeadsTo(next, trail[k + i], After(trail, k + i, head));
  }

  /** Coming back to a name of the trail closes a cycle. */
  lemma TrailClosesCycle(next: map<string, string>, trail: seq<string>, head: string)
    requires IsTrail(next, trail, head) && head in trail && (forall x :: x in next ==> next[x] != x)
    ensures IsCycle(next, trail[FirstIndex(trail, head)..] + [head])
  {
    hide FirstIndex, LeadsTo, After;
    var k := FirstIndex(trail, head);
    var c := trail[k..] + [head];
    TrailLinks(next, trail, head, k, 0);
    assert c[0] != c[1];
    forall i | 0 <= i < |c| - 1 ensures c[i] in next && next[c[i]] == c[i + 1] {
      TrailLinks(next, trail, head, k, i);
    }
    forall i, j | 0 <= i < j < |c| - 1 ensures c[i] != c[j] {
      assert c[i] == trail[k + i] && c[j] == trail[k + j];
    }
  }

  lemma TrailGrows(next: map<string, string>, trail: seq<string>, head: string)
    requires IsTrail(next, trail, head) && head !in trail && head in next
    ensures IsTrail(next, trail + [head], next[head])
  {
    var more := trail + [head];
    forall i | 0 <= i < |more| ensures LeadsTo(next, more[i], After(more, i, next[head])) {
      if i < |trail| {
        assert LeadsTo(next, trail[i], After(trail, i, head));
      }
    }
  }

  lemma ReportedGrows(cycles: seq<seq<string>>, c: seq<string>, x: string)
    ensures Reported(cycles + [c], x) <==> Reported(cycles, x) || x in c
  {
    var more := cycles + [c];
    if Reported(cycles, x) {
      var i :| 0 <= i < |cycles| && x in cycles[i];
      assert x in more[i];
    }
    if x in c {
      assert x in more[|cycles|];
    }
    if Reported(more, x) {
      var i :| 0 <= i < |more| && x in more[i];
      assert i < |cycles| ==> x in cycles[i];
    }
  }

  /** A further cycle none of whose names has been reported keeps the reported cycles apart. */
  lemma ReportCycle(next: map<string, string>, cycles: seq<seq<string>>, c: seq<string>)
    requires AllCycles(next, cycles) && NoneShared(cycles) && IsCycle(next, c)
    requires forall x :: x in c ==> !Reported(cycles, x)
    ensures AllCycles(next, cycles + [c]) && NoneShared(cycles + [c])
    ensures forall x :: Reported(cycles + [c], x) <==> Reported(cycles, x) || x in c
  {
    hide IsCycle;
    forall x ensures Reported(cycles + [c], x) <==> Reported(cycles, x) || x in c {
      ReportedGrows(cycles, c, x);
    }
    var more := cycles + [c];
    forall i, j, x | 0 <= i < j < |more| && x in more[i] ensures x !in more[j] {
      if j == |cycles| {
        assert x in cycles[i];
        assert Reported(cycles, x);
      }
    }
  }

  lemma NothingReported()
    ensures forall x :: !Reported([], x)
  {
  }

  /** Reporting the cycle that a trail closes. */
  lemma CloseTrail(next: map<string, string>, cycles: seq<seq<string>>, trail: seq<string>, head: string)
    requires IsTrail(next, trail, head) && head in trail && (forall x :: x in next ==> next[x] != x)
    requires AllCycles(next, cycles) && NoneShared(cycles)
    requires forall x :: Reported(cycles, x) ==> x !in trail
    ensures var more := cycles + [trail[FirstIndex(trail, head)..] + [head]];
      && AllCycles(next, more) && NoneShared(more) && Reported(more, head)
      && forall x :: Reported(more, x) ==> Reported(cycles, x) || x in trail
    ensures var more := cycles + [trail[FirstIndex(trail, head)..] + [head]];
      forall x :: Reported(cycles, x) ==> Reported(more, x)
  {
    hide FirstIndex, IsCycle, AllCycles, NoneShared, Reported;
    TrailClosesCycle(next, trail, head);
    var cycle := trail[FirstIndex(trail, head)..] + [head];
    assert forall x :: x in cycle ==> x in trail;
    ReportCycle(next, cycles, cycle);
    assert cycle[|cycle| - 1] == head;
  }

  /** When the cycle through a successor has been reported, so has the one through its predecessor. */
  lemma CyclePassesOn(next: map<string, string>, cycles: seq<seq<string>>, x: string)
    requires AllCycles(next, cycles) && OnCycle(next, x)
    requires x in next && OnCycle(next, next[x]) ==> Reported(cycles, next[x])
    ensures Reported(cycles, x)
  {
    SuccessorOnCycle(next, x);
    var i :| 0 <= i < |cycles| && next[x] in cycles[i];
    PredecessorInCycle(next, cycles[i], x);
  }

  /** Exactly the names of the trail are under visit (1); all others seen are finished (2). */
  ghost predicate Marked(parents: map<string, Option<string>>, state: map<string, int>, trail: seq<string>) {
    && state.Keys <= parents.Keys && (forall x :: x in trail ==> x in state)
    && forall x :: x in state ==> state[x] == if x in trail then 1 else 2
  }

  ghost predicate Finished(state: map<string, int>, x: string) {
    x in state && state[x] == 2
  }

  /** The cycles through finished themes have been reported, once each. */
  ghost predicate Settled(next: map<string, string>, state: map<string, int>, cycles: seq<seq<string>>) {
    && (forall x :: Finished(state, x) && OnCycle(next, x) ==> Reported(cycles, x))
    && AllCycles(next, cycles) && NoneShared(cycles)
  }

  /** What `visit` may rely on: nothing under visit has been reported. */
  ghost predicate Entering(parents: map<string, Option<string>>, state: map<string, int>, cycles: seq<seq<string>>,
                           trail: seq<string>, themeId: string) {
    && themeId in parents && IsTrail(ParentLinks(parents), trail, themeId)
    && Marked(parents, state, trail) && Settled(ParentLinks(parents), state, cycles)
    && forall x :: Reported(cycles, x) ==> Finished(state, x)
  }

  /** What `visit` brings about: the theme has been seen, and its cycle, if any, reported. */
  ghost predicate Left(parents: map<string, Option<string>>, state: map<string, int>, cycles: seq<seq<string>>,
                       trail: seq<string>, themeId: string) {
    && themeId in state && (OnCycle(ParentLinks(parents), themeId) ==> Reported(cycles, themeId))
    && Marked(parents, state, trail) && Settled(ParentLinks(parents), state, cycles)
    && forall x :: Reported(cycles, x) ==> x in state
  }

  lemma VisitFinished(parents: map<string, Option<string>>, state: map<string, int>, cycles: seq<seq<string>>,
                      trail: seq<string>, themeId: string)
    requires Entering(parents, state, cycles, trail, themeId) && Finished(state, themeId)
    ensures Left(parents, state, cycles, trail, themeId)
  {
    hide OnCycle, Reported, IsTrail, AllCycles, NoneShared, ParentLinks;
  }

  lemma VisitCloses(parents: map<string, Option<string>>, state: map<string, int>, cycles: seq<seq<string>>,
                    trail: seq<string>, themeId: string)
    requires Entering(parents, state, cycles, trail, themeId) && themeId in state && state[themeId] == 1
    ensures themeId in trail
    ensures Left(parents, state, cycles + [trail[FirstIndex(trail, themeId)..] + [themeId]], trail, themeId)
  {
    hide OnCycle, Reported, IsTrail, AllCycles, NoneShared, FirstIndex;
    assert forall x :: x in ParentLinks(parents) ==> ParentLinks(parents)[x] != x;
    CloseTrail(ParentLinks(parents), cycles, trail, themeId);
  }

  lemma VisitEnters(parents: map<string, Option<string>>, state: map<string, int>, cycles: seq<seq<string>>,
                    trail: seq<string>, themeId: string)
    requires Entering(parents, state, cycles, trail, themeId) && themeId !in state
    requires themeId in ParentLinks(parents)
    ensures Entering(parents, state[themeId := 1], cycles, trail + [themeId], ParentLinks(parents)[themeId])
  {
    hide OnCycle, Reported, AllCycles, NoneShared;
    TrailGrows(ParentLinks(parents), trail, themeId);
    assert ParentLinks(parents)[themeId] in parents;
    forall x | Finished(state, x) ensures Finished(state[themeId := 1], x) {
    }
  }

  /** Backing out of a theme whose parent has been visited. */
  lemma VisitLeaves(parents: map<string, Option<string>>, state: map<string, int>, cycles: seq<seq<string>>,
                    trail: seq<string>, themeId: string)
    requires themeId in ParentLinks(parents) && themeId !in trail
    requires Left(parents, state, cycles, trail + [themeId], ParentLinks(parents)[themeId])
    ensures Left(parents, state[themeId := 2], cycles, trail, themeId)
  {
    hide ParentLinks, OnCycle, Reported, AllCycles, NoneShared;
    if OnCycle(ParentLinks(parents), themeId) {
      CyclePassesOn(ParentLinks(parents), cycles, themeId);
    }
    assert themeId in trail + [themeId];
    assert forall x :: x in trail ==> x in trail + [themeId];
    var after := state[themeId := 2];
    forall x | Finished(after, x) && OnCycle(ParentLinks(parents), x) ensures Reported(cycles, x) {
      assert x != themeId ==> Finished(state, x);
    }
  }

  /** Backing out of a theme without a parent link. */
  lemma VisitRoot(parents: map<string, Option<string>>, state: map<string, int>, cycles: seq<seq<string>>,
                  trail: seq<string>, themeId: string)
    requires Entering(parents, state, cycles, trail, themeId) && themeId !in state
    requires themeId !in ParentLinks(parents)
    ensures Left(parents, state[themeId := 1][themeId := 2], cycles, trail, themeId)
  {
    hide ParentLinks, OnCycle, Reported, AllCycles, NoneShared, IsTrail;
    if OnCycle(ParentLinks(parents), themeId) {
      SuccessorOnCycle(ParentLinks(parents), themeId);
    }
    var after := state[themeId := 1][themeId := 2];
    forall x | Finished(after, x) && OnCycle(ParentLinks(parents), x) ensures Reported(cycles, x) {
      assert x != themeId ==> Finished(state, x);
    }
  }

  /** At the end every theme is finished. */
  lemma AllSettled(parents: map<string, Option<string>>, state: map<string, int>, cycles: seq<seq<string>>)
    requires Settled(ParentLinks(parents), state, cycles) && Marked(parents, state, []) && parents.Keys <= state.Keys
    ensures ExactlyTheCycles(ParentLinks(parents), cycles)
  {
    var next := ParentLinks(parents);
    assert next.Keys <= parents.Keys;
    forall x ensures OnCycle(next, x) <==> Reported(cycles, x) {
      if OnCycle(next, x) {
        SuccessorOnCycle(next, x);
        assert Finished(state, x);
      }
      if Reported(cycles, x) {
        var i :| 0 <= i < |cycles| && x in cycles[i];
        var j :| 0 <= j < |cycles[i]| && cycles[i][j] == x;
        CycleIsOnCycle(next, cycles[i], j);
      }
    }
  }

  lemma {:induction false} EndlessWalkHasCycle(next: map<string, string>, start: string, n: nat, seen: set<string>)
    returns (x: string)
    requires NeverEnds(next, start) && seen <= next.Keys
    requires forall y :: y in seen ==> PassedBefore(next, start, n, y)
    ensures OnCycle(next, x)
    decreases next.Keys - seen
  {
    assert Follow(next, start, n + 1).Some?;
    x := Follow(next, start, n).value;
    if x in seen {
      var m: nat :| m < n && Follow(next, start, m) == Some(x);
      FollowLater(next, start, m, n - m);
    } else {
      LaterPassed(next, start, n, seen);
      x := EndlessWalkHasCycle(next, start, n + 1, seen + {x});
    }
  }

  /** The two detectors agree on what a fault is: some walk never ends exactly when some name lies on a cycle. */
  lemma WellFoundedWithoutCycles(next: map<string, string>)
    ensures WellFounded(next) <==> forall x :: !OnCycle(next, x)
  {
    if !WellFounded(next) {
      var start :| start in next && NeverEnds(next, start);
      var x := EndlessWalkHasCycle(next, start, 0, {});
    }
    forall x | OnCycle(next, x) ensures NeverEnds(next, x) && x in next {
      var n: nat :| n > 0 && Follow(next, x, n) == Some(x);
      SuccessorOnCycle(next, x);
      forall k: nat ensures Follow(next, x, k).Some? {
        ReturnNeverEnds(next, x, 0, n, k);
      }
    }
  }

  /** The depth-first walk of `_collect_theme_hierarchy`: 1 marks a theme under visit, 2 a finished one. */
  class ThemeWalk {
    const parents: map<string, Option<string>>
    var state: map<string, int>
    var cycles: seq<seq<string>>

    constructor (parents: map<string, Option<string>>)
      ensures this.parents == parents && state == map[] && cycles == []
    {
      this.parents := parents;
      state := map[];
      cycles := [];
    }

    method Visit(themeId: string, trail: seq<string>)
      requires Entering(parents, state, cycles, trail, themeId)
      modifies this
      ensures Left(parents, state, cycles, trail, themeId)
      ensures old(state.Keys) <= state.Keys
      decreases parents.Keys - state.Keys
    {
      hide Settled, IsTrail, Left;
      if themeId in state && state[themeId] == 2 {
        VisitFinished(parents, state, cycles, trail, themeId);
        return;
      }
      if themeId in state && state[themeId] == 1 {
        VisitCloses(parents, state, cycles, trail, themeId);
        cycles := cycles + [trail[FirstIndex(trail, themeId)..] + [themeId]];
        return;
      }
      assert themeId in parents.Keys - state.Keys && themeId !in trail;
      ghost var before := state;
      state := state[themeId := 1];
      var parentId := parents[themeId];
      if parentId.Some? && parentId.value in parents && parentId.value != themeId {
        VisitEnters(parents, before, cycles, trail, themeId);
        Visit(parentId.value, trail + [themeId]);
        VisitLeaves(parents, state, cycles, trail, themeId);
      } else {
        VisitRoot(parents, before, cycles, trail, themeId);
      }
      state := state[themeId := 2];
    }

    /** The loop over all themes: reports one closed path for every cycle of parents. */
    method Run(ids: seq<string>)
      requires state == map[] && cycles == []
      requires forall x :: x in ids <==> x in parents
      modifies this
      ensures ExactlyTheCycles(ParentLinks(parents), cycles)
    {
      hide ParentLinks, OnCycle, IsCycle, ExactlyTheCycles, Reported;
      NothingReported();
      var i := 0;
      while i < |ids|
        invariant 0 <= i <= |ids|
        invariant Marked(parents, state, []) && Settled(ParentLinks(parents), state, cycles)
        invariant forall x :: Reported(cycles, x) ==> Finished(state, x)
        invariant forall k :: 0 <= k < i ==> ids[k] in state
      {
        if ids[i] !in state {
          Visit(ids[i], []);
        }
        i := i + 1;
      }
      AllSettled(parents, state, cycles);
    }
  }
}
