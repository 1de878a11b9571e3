/** The fixed order of the pilot journal: what the position checks allow is exactly what keeps the order
    (library/pilot_controller.py). */
module PilotOrder {
  import opened Basics
  import opened PilotModel

  /** `_task_types`: the tasks accepted so far. */
  function TaskTypes(j: seq<Event>): seq<TaskType> {
    if j == [] then []
    else TaskTypes(j[..|j| - 1]) + if j[|j| - 1].Accepted? then [j[|j| - 1].taskType] else []
  }

  predicate HasRetrieval(j: seq<Event>) {
    exists e :: e in j && e.Retrieval?
  }

  /** `_require_live_head`: the run has neither ended nor been closed. */
  predicate Live(j: seq<Event>) {
    j == [] || !Terminal(j[|j| - 1])
  }

  function PrefixIndex(t: TaskType): nat
    requires t in PREFIX
  {
    if t == PREFIX[0] then 0 else if t == PREFIX[1] then 1 else if t == PREFIX[2] then 2 else 3
  }

  /** `_require_task_position`. */
  predicate TaskMayRun(j: seq<Event>, t: TaskType) {
    && Live(j) && j != []
    && var tasks := TaskTypes(j);
       if t in PREFIX then tasks == PREFIX[..PrefixIndex(t)]
       else
         && PREFIX <= tasks && HasRetrieval(j) && TaskPhase(t) >= LastPhase(j)
         && (t == AuditProposition ==> GeneratePropositions in tasks)
         && (t == RenderProse ==> AuditProposition in tasks)
         && (t == AuditRenderedSentence ==> RenderProse in tasks)
  }

  /** The position checks in front of each kind of event. */
  predicate MayFollow(j: seq<Event>, e: Event) {
    match e
    case Accepted(t, _, _, _) => TaskMayRun(j, t)
    case Failed(t, _, _, _, _) => TaskMayRun(j, t)
    case Prerequisites(_) => Live(j) && j == []
    case Retrieval(_) => Live(j) && TaskTypes(j) == PREFIX && LastPhase(j) == 4
    case Assembly(_, _) => Live(j) && LastPhase(j) == 10
    case ValidationReport(_) => Live(j) && j != [] && j[|j| - 1].Assembly?
  }

  // ---------------------------------------------------------------- the fixed order

  /** Where an event stands in the fixed order. */
  function Rank(e: Event): nat {
    match e
    case Accepted(t, _, _, _) => TaskPhase(t)
    case Failed(t, _, _, _, _) => TaskPhase(t)
    case Prerequisites(_) => 0
    case Retrieval(_) => 5
    case Assembly(_, _) => 11
    case ValidationReport(_) => 12
  }

  predicate AcceptedBefore(j: seq<Event>, i: nat, t: TaskType)
    requires i <= |j|
  {
    exists k :: 0 <= k < i && j[k].Accepted? && j[k].taskType == t
  }

  /** Audits and rendering come after what they need. */
  predicate NeedsMet(j: seq<Event>, i: nat)
    requires i < |j|
  {
    IsTask(j[i]) ==>
      && (j[i].taskType == AuditProposition ==> AcceptedBefore(j, i, GeneratePropositions))
      && (j[i].taskType == RenderProse ==> AcceptedBefore(j, i, AuditProposition))
      && (j[i].taskType == AuditRenderedSentence ==> AcceptedBefore(j, i, RenderProse))
  }

  /** Event `i` stands where the fixed order has it: prerequisites, the four tasks of the prefix, retrieval; then tasks
      of phases 6 to 10 that never go back, one assembly behind a task of phase 10, and the report right behind it. */
  predicate InPlace(j: seq<Event>, i: nat)
    requires i < |j|
  {
    && (i < 6 ==> Rank(j[i]) == i)
    && (i >= 6 ==>
          && 6 <= Rank(j[i]) && Rank(j[i - 1]) <= Rank(j[i])
          && (j[i].Assembly? ==> Rank(j[i - 1]) == 10)
          && (j[i].ValidationReport? ==> j[i - 1].Assembly?))
    && NeedsMet(j, i)
  }

  ghost predicate FixedOrder(j: seq<Event>) {
    && (forall i :: 0 <= i < |j| ==> InPlace(j, i))
    && (forall i :: 0 <= i < |j| - 1 ==> !Terminal(j[i]))
  }

  // ---------------------------------------------------------------- the checks and the order agree

  lemma {:induction false} TasksOf(j: seq<Event>, t: TaskType)
    ensures t in TaskTypes(j) <==> AcceptedBefore(j, |j|, t)
  {
    if j != [] {
      var n := |j| - 1;
      TasksOf(j[..n], t);
      assert forall k :: 0 <= k < n ==> j[..n][k] == j[k];
      if AcceptedBefore(j[..n], n, t) {
        var k :| 0 <= k < n && j[..n][k].Accepted? && j[..n][k].taskType == t;
        assert j[k].Accepted? && j[k].taskType == t;
      }
    }
  }

  /** The tasks accepted within the prefix of an ordered journal. */
  lemma {:induction false} TasksOfPrefix(j: seq<Event>, n: nat)
    requires FixedOrder(j) && n <= |j| && n <= 5
    requires n > 0 && n == |j| ==> !Terminal(j[n - 1])
    ensures TaskTypes(j[..n]) == PREFIX[..if n == 0 then 0 else n - 1]
  {
    if n > 0 {
      assert InPlace(j, n - 1) && !Terminal(j[n - 1]);
      assert j[..n][..n - 1] == j[..n - 1];
      if n == 1 {
        assert TaskTypes(j[..0]) == [];
      } else {
        TasksOfPrefix(j, n - 1);
        assert PREFIX[..n - 1] == PREFIX[..n - 2] + [PREFIX[n - 2]];
      }
    }
  }

  lemma {:induction false} TasksGrow(j: seq<Event>, n: nat)
    requires n <= |j|
    ensures TaskTypes(j[..n]) <= TaskTypes(j)
    decreases |j| - n
  {
    if n == |j| {
      assert j[..n] == j;
    } else {
      assert j[..n + 1][..n] == j[..n];
      TasksGrow(j, n + 1);
    }
  }

  /** Beyond the prefix, the accepted tasks begin with it, and retrieval has been recorded. */
  lemma BeyondPrefix(j: seq<Event>)
    requires FixedOrder(j) && Live(j) && |j| >= 5
    ensures PREFIX <= TaskTypes(j)
    ensures HasRetrieval(j) <==> |j| >= 6
    ensures |j| == 5 <==> (TaskTypes(j) == PREFIX && LastPhase(j) == 4)
  {
    TasksOfPrefix(j, 5);
    TasksGrow(j, 5);
    assert PREFIX[..4] == PREFIX;
    if |j| >= 6 {
      assert InPlace(j, 5);
      assert j[5].Retrieval?;
      assert InPlace(j, |j| - 1);
    } else {
      assert j[..5] == j && InPlace(j, 4);
      forall e | e in j ensures !e.Retrieval? {
        var i :| 0 <= i < |j| && j[i] == e;
        assert InPlace(j, i);
      }
    }
  }

  lemma InPlaceSnoc(j: seq<Event>, e: Event, i: nat)
    requires i < |j|
    ensures InPlace(j + [e], i) <==> InPlace(j, i)
  {
    var all := j + [e];
    assert all[i] == j[i] && (i > 0 ==> all[i - 1] == j[i - 1]);
    assert forall k :: 0 <= k < i ==> all[k] == j[k];
    forall t: TaskType ensures AcceptedBefore(all, i, t) <==> AcceptedBefore(j, i, t) {
    }
  }

  lemma OrderSnoc(j: seq<Event>, e: Event)
    requires FixedOrder(j)
    ensures FixedOrder(j + [e]) <==> Live(j) && InPlace(j + [e], |j|)
  {
    hide InPlace, Terminal;
    var all := j + [e];
    forall i | 0 <= i < |j| ensures InPlace(all, i) {
      InPlaceSnoc(j, e, i);
    }
    assert forall i :: 0 <= i < |j| ==> all[i] == j[i];
    assert j != [] ==> all[|j| - 1] == j[|j| - 1];
  }

  lemma NeedsOfNext(j: seq<Event>, e: Event)
    requires IsTask(e)
    ensures NeedsMet(j + [e], |j|) <==>
              && (e.taskType == AuditProposition ==> GeneratePropositions in TaskTypes(j))
              && (e.taskType == RenderProse ==> AuditProposition in TaskTypes(j))
              && (e.taskType == AuditRenderedSentence ==> RenderProse in TaskTypes(j))
  {
    hide TaskTypes;
    var all := j + [e];
    assert all[|j|] == e && forall k :: 0 <= k < |j| ==> all[k] == j[k];
    forall t: TaskType ensures AcceptedBefore(all, |j|, t) <==> t in TaskTypes(j) {
      TasksOf(j, t);
      if AcceptedBefore(all, |j|, t) {
        var k :| 0 <= k < |j| && all[k].Accepted? && all[k].taskType == t;
        assert j[k].Accepted?;
      }
      if AcceptedBefore(j, |j|, t) {
        var k :| 0 <= k < |j| && j[k].Accepted? && j[k].taskType == t;
        assert all[k].Accepted?;
      }
    }
  }

  /** The rank of a live journal's last event is its phase, and tells where the journal stands. */
  lemma LastRank(j: seq<Event>)
    requires FixedOrder(j) && Live(j) && j != []
    ensures LastPhase(j) == Rank(j[|j| - 1])
    ensures |j| <= 6 ==> LastPhase(j) == |j| - 1
    ensures |j| >= 6 ==> LastPhase(j) >= 5
    ensures LastPhase(j) >= 6 ==> |j| >= 7
  {
    assert InPlace(j, |j| - 1);
  }

  lemma PrefixLength(j: seq<Event>, k: nat)
    requires FixedOrder(j) && Live(j) && k < 4
    ensures j != [] && TaskTypes(j) == PREFIX[..k] <==> |j| == k + 1
  {
    hide FixedOrder, TaskTypes, Terminal, HasRetrieval;
    assert |PREFIX[..k]| == k;
    if 0 < |j| <= 5 {
      ShortTasks(j);
      assert |PREFIX[..|j| - 1]| == |j| - 1;
    } else if |j| > 5 {
      BeyondPrefix(j);
    }
  }

  lemma ShortTasks(j: seq<Event>)
    requires FixedOrder(j) && Live(j) && 0 < |j| <= 5
    ensures TaskTypes(j) == PREFIX[..|j| - 1]
  {
    TasksOfPrefix(j, |j|);
    assert j[..|j|] == j;
  }

  lemma TaskPositions(j: seq<Event>, e: Event)
    requires FixedOrder(j) && Live(j) && IsTask(e)
    ensures TaskMayRun(j, e.taskType) <==> InPlace(j + [e], |j|)
  {
    hide TaskTypes, HasRetrieval, NeedsMet, Terminal, FixedOrder;
    var all := j + [e];
    assert all[|j|] == e && (j != [] ==> all[|j| - 1] == j[|j| - 1]);
    NeedsOfNext(j, e);
    if e.taskType in PREFIX {
      PrefixLength(j, PrefixIndex(e.taskType));
    } else {
      if |j| >= 5 {
        BeyondPrefix(j);
      } else {
        ShortPrefix(j);
      }
      if j != [] {
        LastRank(j);
      }
    }
  }

  lemma ShortPrefix(j: seq<Event>)
    requires FixedOrder(j) && Live(j) && |j| < 5
    ensures !(PREFIX <= TaskTypes(j))
  {
    TasksOfPrefix(j, |j|);
    assert j[..|j|] == j;
    assert |TaskTypes(j)| < 4;
  }

  lemma ControlPositions(j: seq<Event>, e: Event)
    requires FixedOrder(j) && Live(j) && !IsTask(e)
    ensures MayFollow(j, e) <==> InPlace(j + [e], |j|)
  {
    hide TaskTypes, HasRetrieval, Terminal, FixedOrder;
    var all := j + [e];
    assert all[|j|] == e && (j != [] ==> all[|j| - 1] == j[|j| - 1]);
    if j != [] {
      LastRank(j);
    }
    if |j| >= 5 {
      BeyondPrefix(j);
    } else {
      ShortPrefix(j);
    }
  }

  /** The position checks accept exactly the events that keep the fixed order. */
  lemma PositionsExact(j: seq<Event>, e: Event)
    requires FixedOrder(j)
    ensures MayFollow(j, e) <==> FixedOrder(j + [e])
  {
    hide FixedOrder, InPlace, TaskTypes, HasRetrieval, Terminal;
    OrderSnoc(j, e);
    if Live(j) {
      if IsTask(e) {
        TaskPositions(j, e);
      } else {
        ControlPositions(j, e);
      }
    }
  }

  lemma EmptyOrder()
    ensures FixedOrder([])
  {
  }
}
