/** The synthetic pilot controller as an object: what its methods check, in which order, and that each of them takes a
    step of the protocol (library/pilot_controller.py). */
module PilotController {
  import opened Basics
  import opened PilotBudget
  import opened PilotModel
  import opened PilotOrder
  import opened PilotProtocol
  import opened Tallies

  datatype Refusal =
    | UnjournaledAttempts | AttemptsDiffer | CursorDiffers | CursorNotRestorable | TaskAccountedTwice
    | TerminalJournal | OutsideSequence | TaskExists | NotRunning | BudgetRefused | CallsDiffer

  // ---------------------------------------------------------------- reading the journal

  ghost predicate Accounts(m: map<string, Event>, j: seq<Event>) {
    forall id :: (id in m <==> Accounted(j, id).Some?) && (id in m ==> Some(m[id]) == Accounted(j, id))
  }

  /** `_journaled_task_attempts`: refuses exactly a journal that accounts for some task twice. */
  method JournaledTaskAttempts(j: seq<Event>) returns (r: Result<map<string, Event>, Refusal>)
    ensures r == Err(TaskAccountedTwice) <==> !UniqueTasks(j)
    ensures r.Err? ==> r.error == TaskAccountedTwice
    ensures r.Ok? ==> Accounts(r.value, j)
  {
    hide Accounted;
    var m: map<string, Event> := map[];
    NothingAccounted(j);
    var i := 0;
    while i < |j|
      invariant 0 <= i <= |j| && Accounts(m, j[..i]) && UniqueTasks(j[..i])
    {
      var e := j[i];
      assert j[..i + 1] == j[..i] + [e];
      AccountsNext(m, j[..i], e);
      if IsTask(e) {
        if e.taskId in m {
          AccountedTwice(j, i);
          return Err(TaskAccountedTwice);
        }
        m := m[e.taskId := e];
      }
      UniqueSnoc(j[..i], e);
      i := i + 1;
    }
    assert j[..i] == j;
    return Ok(m);
  }

  lemma NothingAccounted(j: seq<Event>)
    ensures Accounts(map[], j[..0])
  {
  }

  lemma AccountsNext(m: map<string, Event>, j: seq<Event>, e: Event)
    requires Accounts(m, j)
    ensures Accounts(if IsTask(e) then m[e.taskId := e] else m, j + [e])
  {
    hide Accounted;
    forall id ensures Accounted(j + [e], id) == if IsTask(e) && e.taskId == id then Some(e) else Accounted(j, id) {
      AccountedSnoc(j, e, id);
    }
  }

  lemma AccountedTwice(j: seq<Event>, i: nat)
    requires i < |j| && IsTask(j[i]) && Accounted(j[..i], j[i].taskId).Some?
    ensures !UniqueTasks(j)
  {
    AccountedSomewhere(j[..i], j[i].taskId);
    var k :| 0 <= k < i && IsTask(j[..i][k]) && j[..i][k].taskId == j[i].taskId;
    assert j[..i][k] == j[k];
  }

  lemma {:induction false} AccountedSomewhere(j: seq<Event>, id: string)
    requires Accounted(j, id).Some?
    ensures exists k :: 0 <= k < |j| && IsTask(j[k]) && j[k].taskId == id
  {
    var n := |j| - 1;
    if !(IsTask(j[n]) && j[n].taskId == id) {
      AccountedSomewhere(j[..n], id);
      var k :| 0 <= k < n && IsTask(j[..n][k]) && j[..n][k].taskId == id;
      assert j[k] == j[..n][k];
    }
  }

  /** `_reconcile_task_attempts`: the loop over the marked task directories. */
  method ReconcileTaskAttempts(accounted: map<string, Event>, tasks: seq<TaskDir>, ghost j: seq<Event>) returns (fault: Option<Refusal>)
    requires Accounts(accounted, j)
    ensures fault.None? <==> Reconciled(j, tasks)
    ensures fault.Some? ==> fault.value == UnjournaledAttempts || fault.value == AttemptsDiffer
  {
    hide Accounted;
    var i := 0;
    while i < |tasks|
      invariant 0 <= i <= |tasks|
      invariant forall k :: 0 <= k < i ==> DirAgrees(j, tasks[k])
    {
      var d := tasks[i];
      if d.taskId !in accounted {
        if d.attempts > 0 {
          assert !DirAgrees(j, d);
          return Some(UnjournaledAttempts);
        }
      } else {
        var e := accounted[d.taskId];
        if TypeOf(e) != Some(d.taskType) || d.attempts != AttemptsOf(e) {
          assert !DirAgrees(j, d);
          return Some(AttemptsDiffer);
        }
      }
      i := i + 1;
    }
    return None;
  }

  ghost predicate Totals(m: Cursors, j: seq<Event>) {
    forall t :: Cursor(m, t) == Journaled(j, t)
  }

  /** The expected cursors: `expected[task_type] += attempt_count` over the journal. */
  method ExpectedCursors(j: seq<Event>) returns (expected: Cursors)
    ensures Totals(expected, j)
  {
    hide Journaled;
    expected := map[];
    NothingExpected(j);
    var i := 0;
    while i < |j|
      invariant 0 <= i <= |j| && Totals(expected, j[..i])
    {
      var e := j[i];
      assert j[..i + 1] == j[..i] + [e];
      TotalsNext(expected, j[..i], e);
      if IsTask(e) {
        expected := expected[e.taskType := Cursor(expected, e.taskType) + e.attempts];
      }
      i := i + 1;
    }
    assert j[..i] == j;
  }

  lemma TotalsNext(m: Cursors, j: seq<Event>, e: Event)
    requires Totals(m, j)
    ensures Totals(if IsTask(e) then m[e.taskType := Cursor(m, e.taskType) + e.attempts] else m, j + [e])
  {
    hide Journaled;
    var now := if IsTask(e) then m[e.taskType := Cursor(m, e.taskType) + e.attempts] else m;
    forall t ensures Cursor(now, t) == Journaled(j + [e], t) {
      JournaledSnoc(j, e, t);
      assert Cursor(m, t) == Journaled(j, t);
    }
  }

  lemma NothingExpected(j: seq<Event>)
    ensures Totals(map[], j[..0])
  {
  }

  /** `_validate_engine_cursors`: with `restore`, pristine cursors are set to what the journal accounts for. */
  method ValidateEngineCursors(engines: Cursors, j: seq<Event>, restore: bool) returns (r: Result<Cursors, Refusal>)
    ensures !restore ==> (r.Ok? <==> CursorsAgree(engines, j))
    ensures restore ==> (r.Ok? <==> Restorable(engines, j))
    ensures r.Ok? ==> CursorsAgree(r.value, j)
    ensures r.Err? ==> r.error == CursorDiffers
    ensures r.Ok? && !restore ==> r.value == engines
    ensures r.Ok? ==> engines.Keys <= r.value.Keys
  {
    hide Journaled, Cursor;
    var expected := ExpectedCursors(j);
    var now: Cursors := engines;
    var i := 0;
    while i < |TASK_TYPES|
      invariant 0 <= i <= |TASK_TYPES|
      invariant forall k :: 0 <= k < i ==> Cursor(now, TASK_TYPES[k]) == Journaled(j, TASK_TYPES[k])
      invariant forall k :: 0 <= k < i ==> Cursor(engines, TASK_TYPES[k]) == Journaled(j, TASK_TYPES[k])
                                           || (restore && Cursor(engines, TASK_TYPES[k]) == 0)
      invariant forall k :: i <= k < |TASK_TYPES| ==> Cursor(now, TASK_TYPES[k]) == Cursor(engines, TASK_TYPES[k])
      invariant (!restore ==> now == engines) && engines.Keys <= now.Keys
    {
      var t := TASK_TYPES[i];
      assert t in TASK_TYPES;
      if restore && Cursor(now, t) == 0 && Cursor(expected, t) > 0 {
        UpdateCursor(now, t, Cursor(expected, t));
        TypesDistinct();
        now := now[t := Cursor(expected, t)];
      }
      if Cursor(now, t) != Cursor(expected, t) {
        return Err(CursorDiffers);
      }
      i := i + 1;
    }
    return Ok(now);
  }

  lemma UpdateCursor(c: Cursors, t: TaskType, n: nat)
    ensures forall x :: Cursor(c[t := n], x) == if x == t then n else Cursor(c, x)
  {
    var now: Cursors := c[t := n];
    forall x ensures Cursor(now, x) == if x == t then n else Cursor(c, x) {
    }
  }

  // ---------------------------------------------------------------- the controller

  lemma UniqueOf(cfg: Config, w: World)
    requires Inv(cfg, w)
    ensures UniqueTasks(w.journal)
  {
    hide UniqueTasks;
  }

  /** The guards of the control methods behind `_require_live_head`. */
  predicate StageMayFollow(j: seq<Event>, stage: ControlStage) {
    match stage
    case PrerequisitesStage => j == []
    case RetrievalStage(_) => TaskTypes(j) == PREFIX && LastPhase(j) == 4
    case AssemblyStage(_) => LastPhase(j) == 10
    case ReportStage => j != [] && j[|j| - 1].Assembly?
  }

  class SyntheticPilot {
    const cfg: Config
    var journal: seq<Event>
    var tasks: seq<TaskDir>
    var cursors: Cursors
    var budget: Budget
    var running: Option<Running>
    ghost var calls: seq<Call>

    ghost function Now(): World
      reads this
    {
      World(journal, tasks, calls, Some(Controller(cursors, running)))
    }

    /** The object stands for a world of the protocol in which every invariant holds, between two attempts. */
    ghost predicate Valid()
      reads this
    {
      Inv(cfg, Now()) && budget == Consumed(journal) && (running.Some? ==> !running.value.awaiting)
    }

    /** Takes over what is durable, under cursors that have been checked against it. */
    constructor (cfg: Config, journal: seq<Event>, tasks: seq<TaskDir>, ghost calls: seq<Call>, cursors: Cursors)
      requires Reconciled(journal, tasks) && cursors == JournalCursors(journal)
      ensures this.cfg == cfg && Now() == RestartStep(World(journal, tasks, calls, None), map[])
      ensures Inv(cfg, World(journal, tasks, calls, None)) ==> Valid()
    {
      this.cfg := cfg;
      this.journal, this.tasks, this.calls := journal, tasks, calls;
      this.cursors, this.running := cursors, None;
      this.budget := Consumed(journal);
      new;
      PristineRestorable(journal);
      if Inv(cfg, World(journal, tasks, calls, None)) {
        RestartInv(cfg, World(journal, tasks, calls, None), map[]);
      }
    }

    /** `_refresh_sequence` without restoring cursors. */
    method Refresh() returns (fault: Option<Refusal>)
      requires Valid()
      ensures running.None? ==> (fault.None? <==> Ready(Now()))
      ensures fault != Some(BudgetRefused)
    {
      hide Inv, Reconciled, CursorsAgree;
      UniqueOf(cfg, Now());
      var accounted := JournaledTaskAttempts(journal);
      fault := ReconcileTaskAttempts(accounted.value, tasks, journal);
      if fault.Some? {
        return;
      }
      var agreed := ValidateEngineCursors(cursors, journal, false);
      if agreed.Err? {
        fault := Some(agreed.error);
      }
    }

    /** `_require_live_head`. */
    method RequireLiveHead() returns (fault: Option<Refusal>)
      requires Valid() && running.None?
      ensures fault.None? <==> Ready(Now()) && Live(journal)
      ensures fault != Some(BudgetRefused)
    {
      hide Inv, Ready, Consumed;
      fault := Refresh();
      if fault.None? && !Live(journal) {
        fault := Some(TerminalJournal);
      }
    }

    /** The start of `_run_task` and `validate_pre_execution`: position, marker, then the budget preflight. */
    method BeginTask(taskId: string, taskType: TaskType, requestBytes: nat) returns (fault: Option<Refusal>)
      requires Valid() && running.None?
      modifies this
      ensures Valid() && Now() == Step(cfg, old(Now()), Begin(taskId, taskType, requestBytes))
      ensures fault.None? <==> running.Some?
      ensures fault.None? <==> Begun(old(Now()), taskId, taskType, requestBytes)
      ensures fault == Some(BudgetRefused) <==>
                Ready(old(Now())) && TaskMayRun(old(journal), taskType) && !KnownTask(old(Now()), taskId) && !Covered(old(Now()), requestBytes)
      ensures fault.None? ==> running.value.taskId == taskId && running.value.taskType == taskType
                              && tasks == old(tasks) + [TaskDir(taskId, taskType, 0)] && IsRunning(Now(), false)
      ensures journal == old(journal) && calls == old(calls)
      ensures fault.Some? && fault.value != BudgetRefused ==> Now() == old(Now())
    {
      hide Inv, Ready, Live, TaskMayRun, KnownTask, Consumed, Value;
      BeginInv(cfg, Now(), taskId, taskType, requestBytes);
      fault := RequireLiveHead();
      PositionNeedsLive(journal, taskType);
      if fault.Some? {
        return;
      }
      if !TaskMayRun(journal, taskType) {
        return Some(OutsideSequence);
      }
      var known := JournalKnows(journal, taskId);
      if known || exists d :: d in tasks && d.taskId == taskId {
        assert KnownTask(Now(), taskId) by { KnownWhen(Now(), taskId); }
        return Some(TaskExists);
      }
      assert !KnownTask(Now(), taskId) by { KnownWhen(Now(), taskId); }
      tasks := tasks + [TaskDir(taskId, taskType, 0)];
      if !Affordable(cfg, budget, requestBytes) {
        return Some(BudgetRefused);
      }
      running := Some(Running(taskId, taskType, Cursor(cursors, taskType), false));
      return None;
    }

    lemma PositionNeedsLive(j: seq<Event>, t: TaskType)
      ensures TaskMayRun(j, t) ==> Live(j)
    {
    }

    lemma KnownWhen(w: World, id: string)
      ensures KnownTask(w, id) <==> (exists d :: d in w.tasks && d.taskId == id) || Accounted(w.journal, id).Some?
    {
    }

    method JournalKnows(j: seq<Event>, id: string) returns (known: bool)
      ensures known <==> Accounted(j, id).Some?
    {
      known := Accounted(j, id).Some?;
    }

    /** One turn of the attempt loop: the attempt directory first, then the engine call. */
    method Attempt() returns (fault: Option<Refusal>)
      requires Valid()
      modifies this
      ensures Valid() && Now() == Step(cfg, Step(cfg, old(Now()), OpenAttempt), Execute)
      ensures fault.None? <==> IsRunning(old(Now()), false) && old(tasks)[|old(tasks)| - 1].attempts < cfg.technicalAttempts
      ensures journal == old(journal) && running == old(running)
      ensures fault.None? ==> |calls| == |old(calls)| + 1
      ensures fault.None? ==> IsRunning(Now(), false) && |tasks| == |old(tasks)|
                              && tasks[|tasks| - 1] == old(tasks)[|tasks| - 1].(attempts := old(tasks)[|tasks| - 1].attempts + 1)
    {
      hide Inv, Consumed;
      StepInv(cfg, Now(), OpenAttempt);
      StepInv(cfg, Step(cfg, Now(), OpenAttempt), Execute);
      if running.None? || tasks == [] || tasks[|tasks| - 1].taskId != running.value.taskId || running.value.awaiting {
        return Some(NotRunning);
      }
      var n := |tasks| - 1;
      if tasks[n].attempts >= cfg.technicalAttempts {
        return Some(NotRunning);
      }
      tasks := tasks[n := tasks[n].(attempts := tasks[n].attempts + 1)];
      var t := running.value.taskType;
      var number := Cursor(cursors, t);
      cursors := cursors[t := number + 1];
      calls := calls + [Call(t, number)];
      return None;
    }

    /** The journal has gained the event of the task that was under way, with its attempts. */
    ghost predicate Journals(before: seq<Event>, task: Option<Running>, attempts: nat)
      reads this
    {
      && |journal| == |before| + 1 && journal[..|before|] == before
      && var e := journal[|before|];
         IsTask(e) && task.Some? && e.taskId == task.value.taskId && e.taskType == task.value.taskType && e.attempts == attempts
    }

    /** The accepted budget of a proposal of this task type covers what its attempts used. */
    ghost predicate Acceptable(j: seq<Event>, t: TaskType, usage: Usage, outcome: Outcome) {
      AcceptedFits(Consumed(j), cfg.limits, cfg.maxTaskSeconds, t, Repeated(j, t), usage, outcome)
    }

    ghost function Newest(): Event
      requires journal != []
      reads this
    {
      journal[|journal| - 1]
    }

    /** The commit of a proposal that was accepted (`prepare_commit`). */
    method CommitAccepted(usage: Usage, outcome: Outcome) returns (fault: Option<Refusal>)
      requires Valid() && running.Some?
      modifies this
      ensures Valid() && Now() == Step(cfg, old(Now()), Accept(usage, outcome))
      ensures fault.None? <==> running.None?
      ensures fault.None? <==> CallsAccounted(old(Now()), usage) && Acceptable(old(journal), old(running).value.taskType, usage, outcome)
      ensures fault.Some? ==> Now() == old(Now())
      ensures fault.None? ==> Journals(old(journal), old(running), usage.attempts) && Newest().Accepted?
      ensures fault.None? ==>
                var t := old(running).value.taskType;
                forall c :: Value(Newest().budget, c) == AcceptedCount(old(budget), t, Repeated(old(journal), t), usage, outcome, c)
      ensures calls == old(calls)
    {
      hide Inv, Consumed, AcceptedValues, AcceptedFits, Repeated, AcceptedCount, Value;
      StepInv(cfg, Now(), Accept(usage, outcome));
      var r := running.value;
      if tasks == [] || tasks[|tasks| - 1].taskId != r.taskId || tasks[|tasks| - 1].attempts != usage.attempts
         || usage.attempts == 0 || Cursor(cursors, r.taskType) != r.callsBefore + usage.attempts {
        return Some(CallsDiffer);
      }
      var repeated := Repeated(journal, r.taskType);
      var values := AcceptedBudget(budget, cfg.limits, cfg.maxTaskSeconds, r.taskType, repeated, usage, outcome);
      if values.Err? {
        return Some(BudgetRefused);
      }
      var e := Accepted(r.taskType, r.taskId, usage.attempts, values.value);
      ConsumedSnoc(journal, e);
      journal := journal + [e];
      budget := values.value;
      running := None;
      return None;
    }

    lemma ConsumedSnoc(j: seq<Event>, e: Event)
      ensures Consumed(j + [e]) == e.budget
    {
    }

    /** `_record_terminal_task_failure`. */
    method CommitFailed(usage: Usage) returns (fault: Option<Refusal>)
      requires Valid() && running.Some?
      modifies this
      ensures Valid() && Now() == Step(cfg, old(Now()), Fail(usage))
      ensures fault.None? <==> running.None?
      ensures fault.None? <==> CallsAccounted(old(Now()), usage)
      ensures fault.Some? ==> Now() == old(Now())
      ensures fault.None? ==> Journals(old(journal), old(running), usage.attempts) && Newest().Failed?
      ensures fault.None? ==> forall c :: Value(Newest().budget, c) + Value(Newest().overruns, c) == FailedCount(old(budget), usage, c)
      ensures calls == old(calls)
    {
      hide Inv, Consumed, WithUsage, Consumption, Overruns, FailedCount, Value;
      StepInv(cfg, Now(), Fail(usage));
      var r := running.value;
      if tasks == [] || tasks[|tasks| - 1].taskId != r.taskId || tasks[|tasks| - 1].attempts != usage.attempts
         || usage.attempts == 0 || Cursor(cursors, r.taskType) != r.callsBefore + usage.attempts {
        return Some(CallsDiffer);
      }
      BudgetWithin(cfg, Now());
      FailureConserves(budget, cfg.limits, usage);
      var failed := FailedBudget(budget, cfg.limits, usage);
      var e := Failed(r.taskType, r.taskId, usage.attempts, failed.value.0, failed.value.1);
      ConsumedSnoc(journal, e);
      journal := journal + [e];
      budget := failed.value.0;
      running := None;
      return None;
    }

    lemma BudgetWithin(cfg: Config, w: World)
      requires Inv(cfg, w)
      ensures WithinLimits(Consumed(w.journal), cfg.limits)
    {
      hide Inv, WithinLimits;
      InvBudgets(cfg, w);
      ConsumedWithin(w.journal, cfg.limits);
    }

    predicate IsControl(e: Event, stage: ControlStage) {
      match stage
      case PrerequisitesStage => e.Prerequisites?
      case RetrievalStage(_) => e.Retrieval?
      case AssemblyStage(blocked) => e.Assembly? && e.blocked == blocked
      case ReportStage => e.ValidationReport?
    }

    /** `record_prerequisites`, `record_retrieval`, `exact_assembly` and `validation_report`. */
    method RecordControl(stage: ControlStage, state: Outcome, elapsed: nat) returns (fault: Option<Refusal>)
      requires Valid() && running.None?
      modifies this
      ensures Valid() && Now() == Step(cfg, old(Now()), Record(stage, state, elapsed))
      ensures fault.None? <==> |journal| > |old(journal)|
      ensures fault.None? ==> journal == old(journal) + [Newest()] && IsControl(Newest(), stage)
      ensures fault.None? ==> forall c :: Value(Newest().budget, c) == ControlCount(old(budget), state, elapsed, RawOf(stage), c)
    {
      hide Inv, Consumed, ControlValues, ControlFits, Ready, Live, TaskTypes, LastPhase, TaskMayRun, ControlCount, Value;
      StepInv(cfg, Now(), Record(stage, state, elapsed));
      fault := RequireLiveHead();
      ControlNeedsLive(journal, stage, ControlValues(budget, state, elapsed, RawOf(stage)));
      if fault.Some? {
        return;
      }
      if !StageMayFollow(journal, stage) {
        return Some(OutsideSequence);
      }
      var values := ControlBudget(budget, cfg.limits, cfg.maxTaskSeconds, state, elapsed, RawOf(stage));
      if values.Err? {
        return Some(BudgetRefused);
      }
      var e := ControlEvent(stage, values.value);
      ConsumedSnoc(journal, e);
      journal := journal + [e];
      budget := values.value;
      return None;
    }

    lemma ControlNeedsLive(j: seq<Event>, stage: ControlStage, values: Budget)
      ensures MayFollow(j, ControlEvent(stage, values)) <==> Live(j) && StageMayFollow(j, stage)
      ensures ControlEvent(stage, values).budget == values
    {
      hide Live, TaskTypes, LastPhase, TaskMayRun;
    }

    /** The first attempt, counted from one, whose proposal is valid; one more than there are if none is. */
    ghost function FirstValid(valid: seq<bool>): (n: nat)
      ensures 1 <= n <= |valid| + 1
      ensures n <= |valid| ==> valid[n - 1]
      ensures forall k :: 0 <= k < n - 1 ==> !valid[k]
    {
      if valid == [] || valid[0] then 1
      else
        var n := 1 + FirstValid(valid[1..]);
        assert forall k :: 1 <= k < n - 1 ==> valid[k] == valid[1..][k - 1];
        n
    }

    lemma {:induction false} FirstValidIs(valid: seq<bool>, n: nat)
      requires 1 <= n <= |valid| && valid[n - 1] && forall k :: 0 <= k < n - 1 ==> !valid[k]
      ensures FirstValid(valid) == n
    {
      hide FirstValid;
      var m := FirstValid(valid);
    }

    lemma NoneValid(valid: seq<bool>)
      requires forall k :: 0 <= k < |valid| ==> !valid[k]
      ensures FirstValid(valid) == |valid| + 1
    {
      hide FirstValid;
    }

    /** Between two attempts, the calls made for the task are its attempt directories. */
    lemma IdleCalls(usage: Usage)
      requires Valid() && IsRunning(Now(), false) && tasks[|tasks| - 1].attempts == usage.attempts > 0
      ensures CallsAccounted(Now(), usage) && budget == Consumed(journal)
    {
      hide FixedOrder, BudgetsOk, UniqueTasks, CountsOk, DirsOk, Executed, Journaled, TaskMayRun, Accounted, Value;
    }

    /** The task may begin: an idle, reconciled controller, a task type whose turn it is, a new task, and a budget that
        covers every technical attempt. */
    ghost predicate Begun(w: World, taskId: string, taskType: TaskType, requestBytes: nat) {
      && Ready(w) && TaskMayRun(w.journal, taskType) && !KnownTask(w, taskId) && Covered(w, requestBytes)
    }

    ghost predicate Covered(w: World, requestBytes: nat) {
      && Value(Consumed(w.journal), Invocations) + cfg.technicalAttempts <= cfg.limits(Invocations)
      && Value(Consumed(w.journal), RequestBytes) + requestBytes * cfg.technicalAttempts <= cfg.limits(RequestBytes)
    }

    /** How a task ends: accepted with its first valid proposal if the accepted budget covers the attempts up to it;
        otherwise failed, after that attempt or after all of them. */
    ghost predicate Ends(before: seq<Event>, taskId: string, t: TaskType, valid: seq<bool>, usageOf: nat -> Usage, outcome: Outcome,
                         made: nat)
      reads this
    {
      && |journal| == |before| + 1 && journal[..|before|] == before
      && var e, n := journal[|before|], FirstValid(valid);
         && IsTask(e) && e.taskId == taskId && e.taskType == t && e.attempts == made
         && made == (if n <= |valid| then n else |valid|)
         && (e.Accepted? <==> n <= |valid| && Acceptable(before, t, usageOf(n), outcome))
         && (forall c :: if e.Accepted? then Value(e.budget, c) == AcceptedCount(Consumed(before), t, Repeated(before, t), usageOf(made), outcome, c)
                         else Value(e.budget, c) + Value(e.overruns, c) == FailedCount(Consumed(before), usageOf(made), c))
    }

    /** The attempts of a task until one yields a valid proposal; `valid` says which of them would. Unless the task may
        not begin, the journal gains the one event that it ends with. */
    method RunTask(taskId: string, taskType: TaskType, requestBytes: nat, valid: seq<bool>, usageOf: nat -> Usage, outcome: Outcome)
      returns (fault: Option<Refusal>)
      requires Valid() && running.None? && |valid| == cfg.technicalAttempts >= 1
      requires forall n :: usageOf(n).attempts == n
      modifies this
      ensures Valid() && running.None?
      ensures fault.None? <==> Begun(old(Now()), taskId, taskType, requestBytes)
      ensures fault.None? ==> |calls| >= |old(calls)|
                              && Ends(old(journal), taskId, taskType, valid, usageOf, outcome, |calls| - |old(calls)|)
      ensures fault.Some? ==> journal == old(journal) && calls == old(calls)
    {
      hide SyntheticPilot.Valid, Inv, Consumed, BeginStep, AcceptStep, FailStep, OpenStep, ExecuteStep, AcceptedValues, AcceptedFits,
        WithUsage, CallsAccounted, AcceptedCount, FailedCount, Value, Repeated, FirstValid, Begun, Acceptable;
      ghost var before := journal;
      fault := BeginTask(taskId, taskType, requestBytes);
      if fault.Some? {
        return;
      }
      var i := 0;
      while i < cfg.technicalAttempts
        invariant 0 <= i <= cfg.technicalAttempts && Valid() && journal == before && running.Some?
        invariant running.value.taskId == taskId && running.value.taskType == taskType
        invariant IsRunning(Now(), false) && tasks[|tasks| - 1].attempts == i && |calls| == |old(calls)| + i
        invariant forall k :: 0 <= k < i ==> !valid[k]
      {
        var attempt := Attempt();
        i := i + 1;
        if valid[i - 1] {
          FirstValidIs(valid, i);
          IdleCalls(usageOf(i));
          var refused := CommitAccepted(usageOf(i), outcome);
          if refused.None? {
            return None;
          }
          break;
        }
      }
      if !valid[i - 1] {
        NoneValid(valid);
      }
      IdleCalls(usageOf(i));
      fault := CommitFailed(usageOf(i));
    }
  }

  lemma RestoredCursors(c: Cursors, j: seq<Event>)
    requires CursorsAgree(c, j) && forall t: TaskType :: t in c
    ensures c == JournalCursors(j)
  {
    hide Journaled;
    forall t: TaskType ensures t in TASK_TYPES && c[t] == Journaled(j, t) {
      EveryType(t);
      assert Cursor(c, t) == Journaled(j, t);
    }
  }

  /** `SyntheticPilotController.__init__`: starts over durable state only if the journal accounts for all of it, and
      restores pristine engines. There is one engine for every task type. */
  method StartPilot(cfg: Config, journal: seq<Event>, tasks: seq<TaskDir>, ghost calls: seq<Call>, engines: Cursors)
    returns (r: Result<SyntheticPilot, Refusal>)
    requires forall t: TaskType :: t in engines
    ensures r.Ok? <==> UniqueTasks(journal) && Reconciled(journal, tasks) && Restorable(engines, journal)
    ensures r.Ok? ==> fresh(r.value) && r.value.cfg == cfg
                      && r.value.Now() == Step(cfg, World(journal, tasks, calls, None), Restart(engines))
    ensures r.Ok? && Inv(cfg, World(journal, tasks, calls, None)) ==> r.value.Valid()
  {
    hide Inv, Reconciled, Restorable, Journaled, CursorsAgree, SyntheticPilot.Valid, UniqueTasks;
    var accounted := JournaledTaskAttempts(journal);
    if accounted.Err? {
      return Err(accounted.error);
    }
    var fault := ReconcileTaskAttempts(accounted.value, tasks, journal);
    if fault.Some? {
      return Err(fault.value);
    }
    var restored := ValidateEngineCursors(engines, journal, true);
    if restored.Err? {
      return Err(CursorNotRestorable);
    }
    RestoredCursors(restored.value, journal);
    PristineRestorable(journal);
    var pilot := new SyntheticPilot(cfg, journal, tasks, calls, restored.value);
    return Ok(pilot);
  }

  lemma PristineRestorable(j: seq<Event>)
    ensures Restorable(map[], j)
  {
  }
}
