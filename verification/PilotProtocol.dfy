/** The crash and restart protocol of the synthetic pilot: a durable journal, durable task and attempt directories,
    and engine cursors that live in memory (library/pilot_controller.py, runtime/engine.py, runtime/kernel.py). */
module PilotProtocol {
  import opened Basics
  import opened Ordering
  import opened PilotBudget
  import opened PilotModel
  import opened PilotOrder
  import opened Tallies

  /** A marked task directory and the attempt directories in it. */
  datatype TaskDir = TaskDir(taskId: string, taskType: TaskType, attempts: nat)

  /** One response taken from the script of a task type's engine. */
  datatype Call = Call(taskType: TaskType, number: nat)

  type Cursors = map<TaskType, nat>

  /** A task under way; `awaiting` while its newest attempt directory has no engine call yet. */
  datatype Running = Running(taskId: string, taskType: TaskType, callsBefore: nat, awaiting: bool)

  datatype Controller = Controller(cursors: Cursors, running: Option<Running>)

  /** Journal and directories are durable; the controller with its cursors is lost in a crash. `calls` is the history
      of engine calls. */
  datatype World = World(journal: seq<Event>, tasks: seq<TaskDir>, calls: seq<Call>, controller: Option<Controller>)

  datatype Config = Config(technicalAttempts: nat, limits: Limits, maxTaskSeconds: nat)

  datatype ControlStage = PrerequisitesStage | RetrievalStage(rawCandidates: nat) | AssemblyStage(blocked: bool) | ReportStage

  datatype Action =
    | Begin(taskId: string, taskType: TaskType, requestBytes: nat)
    | OpenAttempt
    | Execute
    | Accept(usage: Usage, outcome: Outcome)
    | Fail(usage: Usage)
    | Abort
    | Record(stage: ControlStage, state: Outcome, elapsed: nat)
    | Crash
    | Restart(cursors: Cursors)

  // ---------------------------------------------------------------- accounting

  function TypeOf(e: Event): Option<TaskType> {
    if IsTask(e) then Some(e.taskType) else None
  }

  function AttemptsOf(e: Event): nat {
    if IsTask(e) then e.attempts else 0
  }

  function DirType(d: TaskDir): TaskType { d.taskType }
  function DirAttempts(d: TaskDir): nat { d.attempts }
  function CallType(c: Call): TaskType { c.taskType }

  /** Attempts of a type that the journal accounts for. */
  function Journaled(j: seq<Event>, t: TaskType): nat {
    Total(Where(j, TypeOf, Some(t)), AttemptsOf)
  }

  /** Attempt directories of a type. */
  function Retained(tasks: seq<TaskDir>, t: TaskType): nat {
    Total(Where(tasks, DirType, t), DirAttempts)
  }

  /** Engine calls of a type. */
  function Executed(calls: seq<Call>, t: TaskType): nat {
    |Where(calls, CallType, t)|
  }

  function Cursor(c: Cursors, t: TaskType): nat {
    if t in c then c[t] else 0
  }

  /** The journal event of a task: an entry of `_journaled_task_attempts`. */
  function Accounted(j: seq<Event>, taskId: string): Option<Event> {
    if j == [] then None
    else if IsTask(j[|j| - 1]) && j[|j| - 1].taskId == taskId then Some(j[|j| - 1])
    else Accounted(j[..|j| - 1], taskId)
  }

  predicate DirAgrees(j: seq<Event>, d: TaskDir) {
    match Accounted(j, d.taskId)
    case None => d.attempts == 0
    case Some(e) => TypeOf(e) == Some(d.taskType) && AttemptsOf(e) == d.attempts
  }

  /** `_reconcile_task_attempts`. */
  predicate Reconciled(j: seq<Event>, tasks: seq<TaskDir>) {
    forall d :: d in tasks ==> DirAgrees(j, d)
  }

  /** `_validate_engine_cursors` without restoring. */
  predicate CursorsAgree(c: Cursors, j: seq<Event>) {
    forall t :: t in TASK_TYPES ==> Cursor(c, t) == Journaled(j, t)
  }

  function Consumed(j: seq<Event>): Budget {
    if j == [] then map[] else j[|j| - 1].budget
  }

  /** What `_require_live_head` demands before any transition: an idle controller whose journal, directories and cursors
      agree. */
  predicate Ready(w: World) {
    && w.controller.Some? && w.controller.value.running.None?
    && Reconciled(w.journal, w.tasks) && CursorsAgree(w.controller.value.cursors, w.journal)
  }

  predicate KnownTask(w: World, taskId: string) {
    (exists d :: d in w.tasks && d.taskId == taskId) || Accounted(w.journal, taskId).Some?
  }

  // ---------------------------------------------------------------- the steps

  function ControlEvent(stage: ControlStage, budget: Budget): Event {
    match stage
    case PrerequisitesStage => Prerequisites(budget)
    case RetrievalStage(_) => Retrieval(budget)
    case AssemblyStage(blocked) => Assembly(blocked, budget)
    case ReportStage => ValidationReport(budget)
  }

  function RawOf(stage: ControlStage): Option<nat> {
    if stage.RetrievalStage? then Some(stage.rawCandidates) else None
  }

  /** The preflight of a task: the budget must cover all technical attempts. */
  predicate Affordable(cfg: Config, b: Budget, requestBytes: nat) {
    && Value(b, Invocations) + cfg.technicalAttempts <= cfg.limits(Invocations)
    && Value(b, RequestBytes) + requestBytes * cfg.technicalAttempts <= cfg.limits(RequestBytes)
  }

  function WithRunning(w: World, r: Option<Running>): World
    requires w.controller.Some?
  {
    w.(controller := Some(w.controller.value.(running := r)))
  }

  /** The task is marked before its budget is examined; an unaffordable task stays behind without attempts. */
  function BeginStep(cfg: Config, w: World, id: string, t: TaskType, requestBytes: nat): World {
    if !(Ready(w) && TaskMayRun(w.journal, t) && !KnownTask(w, id)) then w
    else
      var marked := w.(tasks := w.tasks + [TaskDir(id, t, 0)]);
      if !Affordable(cfg, Consumed(w.journal), requestBytes) then marked
      else WithRunning(marked, Some(Running(id, t, Cursor(w.controller.value.cursors, t), false)))
  }

  predicate IsRunning(w: World, awaiting: bool) {
    && w.controller.Some? && w.controller.value.running.Some? && w.controller.value.running.value.awaiting == awaiting
    && w.tasks != [] && w.tasks[|w.tasks| - 1].taskId == w.controller.value.running.value.taskId
  }

  /** The next attempt directory, as long as technical attempts are left. */
  function OpenStep(cfg: Config, w: World): World {
    if !IsRunning(w, false) || w.tasks[|w.tasks| - 1].attempts >= cfg.technicalAttempts then w
    else
      var n := |w.tasks| - 1;
      var r := w.controller.value.running.value;
      WithRunning(w.(tasks := w.tasks[n := w.tasks[n].(attempts := w.tasks[n].attempts + 1)]), Some(r.(awaiting := true)))
  }

  /** `MockEngine.execute`: takes the response under the cursor and advances it. */
  function ExecuteStep(w: World): World {
    if !IsRunning(w, true) then w
    else
      var c := w.controller.value;
      var t := c.running.value.taskType;
      var n := Cursor(c.cursors, t);
      w.(calls := w.calls + [Call(t, n)],
         controller := Some(Controller(c.cursors[t := n + 1], Some(c.running.value.(awaiting := false)))))
  }

  /** Engine calls since the task began agree with its attempt directories and with the collected usage. */
  predicate CallsAccounted(w: World, usage: Usage) {
    && IsRunning(w, false)
    && var c := w.controller.value;
       && var r := c.running.value;
          && w.tasks[|w.tasks| - 1].attempts == usage.attempts > 0
          && Cursor(c.cursors, r.taskType) == r.callsBefore + usage.attempts
  }

  /** A task of this type has been accepted before. */
  predicate Repeated(j: seq<Event>, t: TaskType)
    ensures Repeated(j, t) <==> exists i :: 0 <= i < |j| && j[i].Accepted? && j[i].taskType == t
  {
    AcceptedTypes(j, t);
    t in TaskTypes(j)
  }

  lemma {:induction false} AcceptedTypes(j: seq<Event>, t: TaskType)
    ensures t in TaskTypes(j) <==> exists i :: 0 <= i < |j| && j[i].Accepted? && j[i].taskType == t
  {
    if j != [] {
      AcceptedTypes(j[..|j| - 1], t);
    }
  }

  /** The atomic commit of an accepted task and its journal event. */
  ghost function AcceptStep(cfg: Config, w: World, usage: Usage, outcome: Outcome): World {
    if !CallsAccounted(w, usage) then w
    else
      var r := w.controller.value.running.value;
      if !AcceptedFits(Consumed(w.journal), cfg.limits, cfg.maxTaskSeconds, r.taskType, Repeated(w.journal, r.taskType), usage, outcome)
      then w
      else
        var values := AcceptedValues(Consumed(w.journal), r.taskType, Repeated(w.journal, r.taskType), usage, outcome);
        WithRunning(w.(journal := w.journal + [Accepted(r.taskType, r.taskId, usage.attempts, values)]), None)
  }

  /** The terminal event of a task whose attempts all failed. */
  function FailStep(cfg: Config, w: World, usage: Usage): World {
    if !CallsAccounted(w, usage) then w
    else
      var r := w.controller.value.running.value;
      var values := WithUsage(Consumed(w.journal), usage);
      WithRunning(w.(journal := w.journal + [Failed(r.taskType, r.taskId, usage.attempts, Consumption(values, cfg.limits),
                                                    Overruns(values, cfg.limits))]), None)
  }

  /** An error that leaves the task without a journal event. */
  function AbortStep(w: World): World {
    if w.controller.None? then w else WithRunning(w, None)
  }

  ghost function RecordStep(cfg: Config, w: World, stage: ControlStage, state: Outcome, elapsed: nat): World {
    var values := ControlValues(Consumed(w.journal), state, elapsed, RawOf(stage));
    if !(Ready(w) && MayFollow(w.journal, ControlEvent(stage, values))
         && ControlFits(Consumed(w.journal), cfg.limits, cfg.maxTaskSeconds, state, elapsed, RawOf(stage))) then w
    else w.(journal := w.journal + [ControlEvent(stage, values)])
  }

  /** A pristine cursor is restored from the journal; any other must already agree with it. */
  predicate Restorable(cursors: Cursors, j: seq<Event>) {
    forall t :: t in TASK_TYPES ==> Cursor(cursors, t) == 0 || Cursor(cursors, t) == Journaled(j, t)
  }

  function JournalCursors(j: seq<Event>): Cursors {
    map t | t in TASK_TYPES :: Journaled(j, t)
  }

  /** A new controller over what is durable; it refuses to start over attempts that the journal does not account for. */
  function RestartStep(w: World, cursors: Cursors): World {
    if w.controller.Some? || !Reconciled(w.journal, w.tasks) || !Restorable(cursors, w.journal) then w
    else w.(controller := Some(Controller(JournalCursors(w.journal), None)))
  }

  ghost function Step(cfg: Config, w: World, a: Action): World {
    match a
    case Begin(id, t, requestBytes) => BeginStep(cfg, w, id, t, requestBytes)
    case OpenAttempt => OpenStep(cfg, w)
    case Execute => ExecuteStep(w)
    case Accept(usage, outcome) => AcceptStep(cfg, w, usage, outcome)
    case Fail(usage) => FailStep(cfg, w, usage)
    case Abort => AbortStep(w)
    case Record(stage, state, elapsed) => RecordStep(cfg, w, stage, state, elapsed)
    case Crash => w.(controller := None)
    case Restart(cursors) => RestartStep(w, cursors)
  }

  ghost function Run(cfg: Config, w: World, actions: seq<Action>): World {
    if actions == [] then w else Step(cfg, Run(cfg, w, actions[..|actions| - 1]), actions[|actions| - 1])
  }

  /** A registered run before its first event. */
  const FRESH: World := World([], [], [], None)

  // ---------------------------------------------------------------- the invariant

  /** Attempts of the newest task that the journal does not account for. */
  function Pending(w: World, t: TaskType): nat {
    if w.tasks == [] then 0
    else
      var d := w.tasks[|w.tasks| - 1];
      if d.taskType == t && Accounted(w.journal, d.taskId).None? then d.attempts else 0
  }

  /** Calls of a type are numbered from zero without gap or repetition. */
  ghost predicate Contiguous(calls: seq<Call>, t: TaskType) {
    forall k :: 0 <= k < Executed(calls, t) ==> Where(calls, CallType, t)[k].number == k
  }

  ghost predicate CountsOk(w: World, t: TaskType) {
    && Retained(w.tasks, t) == Journaled(w.journal, t) + Pending(w, t)
    && Journaled(w.journal, t) <= Executed(w.calls, t) <= Retained(w.tasks, t)
    && Contiguous(w.calls, t)
  }

  /** Directories of accounted tasks hold what the journal says; only the newest other one can hold attempts. */
  ghost predicate DirsOk(w: World) {
    && (forall a, b :: 0 <= a < b < |w.tasks| ==> w.tasks[a].taskId != w.tasks[b].taskId)
    && (forall k :: 0 <= k < |w.tasks| ==>
          DirAgrees(w.journal, w.tasks[k]) || (k == |w.tasks| - 1 && Accounted(w.journal, w.tasks[k].taskId).None?))
    && (forall e :: e in w.journal && IsTask(e) ==> exists d :: d in w.tasks && d.taskId == e.taskId)
  }

  ghost predicate CursorsExact(w: World) {
    w.controller.Some? ==> forall t :: Cursor(w.controller.value.cursors, t) == Executed(w.calls, t)
  }

  ghost predicate RunningOk(cfg: Config, w: World) {
    w.controller.Some? && w.controller.value.running.Some? ==>
      && w.tasks != []
      && var r, d := w.controller.value.running.value, w.tasks[|w.tasks| - 1];
         && d.taskId == r.taskId && d.taskType == r.taskType && Accounted(w.journal, r.taskId).None?
         && d.attempts <= cfg.technicalAttempts && (r.awaiting ==> d.attempts > 0)
         && r.callsBefore == Journaled(w.journal, r.taskType)
         && Executed(w.calls, r.taskType) == r.callsBefore + d.attempts - (if r.awaiting then 1 else 0)
         && TaskMayRun(w.journal, r.taskType)
         && Value(Consumed(w.journal), Invocations) + cfg.technicalAttempts <= cfg.limits(Invocations)
  }

  ghost predicate NothingFalls(before: Budget, now: Budget) {
    forall c :: Value(before, c) <= Value(now, c)
  }

  ghost predicate BudgetAt(j: seq<Event>, i: nat, limits: Limits)
    requires i < |j|
  {
    WithinLimits(j[i].budget, limits) && (i > 0 ==> NothingFalls(j[i - 1].budget, j[i].budget))
  }

  /** Every event's budget is within its limits and no counter ever falls; invocations are the journaled attempts. */
  ghost predicate BudgetsOk(j: seq<Event>, limits: Limits) {
    && (forall i :: 0 <= i < |j| ==> BudgetAt(j, i, limits))
    && Value(Consumed(j), Invocations) == Total(j, AttemptsOf)
  }

  /** No task is journaled twice. */
  ghost predicate UniqueTasks(j: seq<Event>) {
    forall a, b :: 0 <= a < b < |j| && IsTask(j[a]) && IsTask(j[b]) ==> j[a].taskId != j[b].taskId
  }

  ghost predicate Inv(cfg: Config, w: World) {
    && FixedOrder(w.journal) && BudgetsOk(w.journal, cfg.limits) && UniqueTasks(w.journal)
    && (forall t :: CountsOk(w, t)) && DirsOk(w) && CursorsExact(w) && RunningOk(cfg, w)
  }

  lemma FreshInv(cfg: Config)
    ensures Inv(cfg, FRESH)
  {
    EmptyOrder();
  }

  // ---------------------------------------------------------------- accounting, one entry at a time

  lemma JournaledSnoc(j: seq<Event>, e: Event, t: TaskType)
    ensures Journaled(j + [e], t) == Journaled(j, t) + if TypeOf(e) == Some(t) then AttemptsOf(e) else 0
  {
    hide Where, Total;
    GroupTotalSnoc(j, e, TypeOf, Some(t), AttemptsOf);
  }

  lemma RetainedSnoc(tasks: seq<TaskDir>, d: TaskDir, t: TaskType)
    ensures Retained(tasks + [d], t) == Retained(tasks, t) + if d.taskType == t then d.attempts else 0
  {
    hide Where, Total;
    GroupTotalSnoc(tasks, d, DirType, t, DirAttempts);
  }

  lemma ExecutedSnoc(calls: seq<Call>, c: Call, t: TaskType)
    ensures Where(calls + [c], CallType, t) == Where(calls, CallType, t) + if c.taskType == t then [c] else []
    ensures Executed(calls + [c], t) == Executed(calls, t) + if c.taskType == t then 1 else 0
  {
    hide Where;
    WhereSnoc(calls, c, CallType, t);
  }

  lemma AccountedSnoc(j: seq<Event>, e: Event, id: string)
    ensures Accounted(j + [e], id) == if IsTask(e) && e.taskId == id then Some(e) else Accounted(j, id)
  {
    assert (j + [e])[..|j|] == j;
  }

  lemma {:induction false} AccountedMember(j: seq<Event>, e: Event)
    requires e in j && IsTask(e)
    ensures Accounted(j, e.taskId).Some?
  {
    var n := |j| - 1;
    if e != j[n] {
      assert j == j[..n] + [j[n]];
      AccountedMember(j[..n], e);
    }
  }

  lemma EveryType(t: TaskType)
    ensures t in TASK_TYPES
  {
    var i := match t
      case ParseDeepResearch => 0 case CorpusChallenger => 1 case GenerateCandidateClaims => 2
      case GenerateRetrievalQueries => 3 case AssessEvidence => 4 case AggregatePaperEvidence => 5 case AssessClaim => 6
      case ReviseClaim => 7 case ValidateFinalClaim => 8 case GeneratePropositions => 9 case AuditProposition => 10
      case RenderProse => 11 case AuditRenderedSentence => 12;
    assert TASK_TYPES[i] == t;
  }

  /** When directories and journal agree nothing is pending, and everything that was executed has been journaled. */
  lemma ReconciledCounts(w: World, t: TaskType)
    requires CountsOk(w, t) && Reconciled(w.journal, w.tasks)
    ensures Pending(w, t) == 0
    ensures Executed(w.calls, t) == Journaled(w.journal, t) == Retained(w.tasks, t)
  {
    hide Journaled, Retained, Executed, Contiguous;
    if w.tasks != [] {
      assert DirAgrees(w.journal, w.tasks[|w.tasks| - 1]);
    }
  }

  // ---------------------------------------------------------------- beginning a task

  lemma BeginDirs(w: World, d: TaskDir)
    requires DirsOk(w) && Reconciled(w.journal, w.tasks) && !KnownTask(w, d.taskId) && d.attempts == 0
    ensures DirsOk(w.(tasks := w.tasks + [d]))
  {
    hide Accounted;
    var now := w.(tasks := w.tasks + [d]);
    forall a, b | 0 <= a < b < |now.tasks| ensures now.tasks[a].taskId != now.tasks[b].taskId {
      assert a < |w.tasks| && now.tasks[a] in w.tasks;
    }
    forall k | 0 <= k < |now.tasks| ensures DirAgrees(now.journal, now.tasks[k]) {
      assert k < |w.tasks| ==> now.tasks[k] in w.tasks;
    }
    forall e | e in now.journal && IsTask(e) ensures exists x :: x in now.tasks && x.taskId == e.taskId {
      var x :| x in w.tasks && x.taskId == e.taskId;
      assert x in now.tasks;
    }
  }

  lemma BeginCounts(w: World, d: TaskDir, t: TaskType)
    requires CountsOk(w, t) && Reconciled(w.journal, w.tasks) && d.attempts == 0
    ensures CountsOk(w.(tasks := w.tasks + [d]), t)
  {
    hide Journaled, Retained, Executed, Contiguous, Accounted;
    ReconciledCounts(w, t);
    RetainedSnoc(w.tasks, d, t);
  }

  lemma BeginInv(cfg: Config, w: World, id: string, t: TaskType, requestBytes: nat)
    requires Inv(cfg, w)
    ensures Inv(cfg, BeginStep(cfg, w, id, t, requestBytes))
  {
    hide Journaled, Retained, Executed, Accounted, DirsOk, CountsOk, FixedOrder, BudgetsOk, UniqueTasks, Reconciled, TaskMayRun, KnownTask,
      CursorsAgree;
    if Ready(w) && TaskMayRun(w.journal, t) && !KnownTask(w, id) {
      var d := TaskDir(id, t, 0);
      BeginDirs(w, d);
      forall x ensures CountsOk(w.(tasks := w.tasks + [d]), x) {
        BeginCounts(w, d, x);
      }
      ReconciledCounts(w, t);
      ReadyCursor(w, t);
      UnknownUnaccounted(w, id);
      var now := BeginStep(cfg, w, id, t, requestBytes);
      forall x ensures CountsOk(now, x) {
        SameCounts(w.(tasks := w.tasks + [d]), now, x);
      }
      SameDirs(w.(tasks := w.tasks + [d]), now);
    }
  }

  lemma ReadyCursor(w: World, t: TaskType)
    requires Ready(w)
    ensures Cursor(w.controller.value.cursors, t) == Journaled(w.journal, t)
  {
    hide Journaled, Reconciled, Cursor;
    EveryType(t);
  }

  lemma UnknownUnaccounted(w: World, id: string)
    requires !KnownTask(w, id)
    ensures Accounted(w.journal, id).None?
  {
  }

  /** Counts and directories do not depend on the controller. */
  lemma SameCounts(w: World, now: World, t: TaskType)
    requires CountsOk(w, t) && now.journal == w.journal && now.tasks == w.tasks && now.calls == w.calls
    ensures CountsOk(now, t)
  {
    hide Journaled, Retained, Executed, Contiguous, Accounted;
  }

  lemma SameDirs(w: World, now: World)
    requires DirsOk(w) && now.journal == w.journal && now.tasks == w.tasks
    ensures DirsOk(now)
  {
    hide Accounted, DirAgrees;
  }

  // ---------------------------------------------------------------- attempts

  lemma OpenCounts(w: World, t: TaskType)
    requires CountsOk(w, t) && w.tasks != [] && Accounted(w.journal, w.tasks[|w.tasks| - 1].taskId).None?
    ensures var n := |w.tasks| - 1;
            CountsOk(w.(tasks := w.tasks[n := w.tasks[n].(attempts := w.tasks[n].attempts + 1)]), t)
  {
    hide Journaled, Retained, Executed, Contiguous, Accounted;
    var n := |w.tasks| - 1;
    var d := w.tasks[n];
    var more := d.(attempts := d.attempts + 1);
    assert w.tasks == w.tasks[..n] + [d] && w.tasks[n := more] == w.tasks[..n] + [more];
    RetainedSnoc(w.tasks[..n], d, t);
    RetainedSnoc(w.tasks[..n], more, t);
  }

  lemma OpenDirs(w: World)
    requires DirsOk(w) && w.tasks != [] && Accounted(w.journal, w.tasks[|w.tasks| - 1].taskId).None?
    ensures var n := |w.tasks| - 1;
            DirsOk(w.(tasks := w.tasks[n := w.tasks[n].(attempts := w.tasks[n].attempts + 1)]))
  {
    hide Accounted, DirAgrees;
    var n := |w.tasks| - 1;
    var now := w.(tasks := w.tasks[n := w.tasks[n].(attempts := w.tasks[n].attempts + 1)]);
    forall e | e in now.journal && IsTask(e) ensures exists x :: x in now.tasks && x.taskId == e.taskId {
      var x :| x in w.tasks && x.taskId == e.taskId;
      var k :| 0 <= k < |w.tasks| && w.tasks[k] == x;
      assert now.tasks[k].taskId == e.taskId;
    }
  }

  lemma OpenInv(cfg: Config, w: World)
    requires Inv(cfg, w)
    ensures Inv(cfg, OpenStep(cfg, w))
  {
    hide Journaled, Retained, Executed, Accounted, DirsOk, CountsOk, FixedOrder, BudgetsOk, UniqueTasks, TaskMayRun;
    if IsRunning(w, false) && w.tasks[|w.tasks| - 1].attempts < cfg.technicalAttempts {
      var n := |w.tasks| - 1;
      var middle := w.(tasks := w.tasks[n := w.tasks[n].(attempts := w.tasks[n].attempts + 1)]);
      var now := OpenStep(cfg, w);
      OpenDirs(w);
      SameDirs(middle, now);
      forall t ensures CountsOk(now, t) {
        OpenCounts(w, t);
        SameCounts(middle, now, t);
      }
    }
  }

  lemma ContiguousSnoc(calls: seq<Call>, c: Call, t: TaskType)
    requires Contiguous(calls, t) && (c.taskType == t ==> c.number == Executed(calls, t))
    ensures Contiguous(calls + [c], t)
  {
    hide Where;
    ExecutedSnoc(calls, c, t);
    var before, now := Where(calls, CallType, t), Where(calls + [c], CallType, t);
    assert before + [] == before;
    forall k | 0 <= k < |now| ensures now[k].number == k {
      assert k < |before| ==> now[k] == before[k];
    }
  }

  lemma ExecuteCounts(w: World, c: Call, t: TaskType)
    requires CountsOk(w, t)
    requires c.taskType == t ==> c.number == Executed(w.calls, t) < Retained(w.tasks, t)
    ensures CountsOk(w.(calls := w.calls + [c]), t)
  {
    hide Journaled, Retained, Accounted, Executed, Contiguous;
    ExecutedSnoc(w.calls, c, t);
    ContiguousSnoc(w.calls, c, t);
  }

  lemma ExecuteRoom(cfg: Config, w: World)
    requires Inv(cfg, w) && IsRunning(w, true)
    ensures var t := w.controller.value.running.value.taskType;
            Cursor(w.controller.value.cursors, t) == Executed(w.calls, t) < Retained(w.tasks, t)
  {
    hide Journaled, Retained, Executed, FixedOrder, BudgetsOk, UniqueTasks, TaskMayRun, DirsOk, Cursor, Contiguous;
    var t := w.controller.value.running.value.taskType;
    assert CountsOk(w, t);
  }

  lemma ExecuteInv(cfg: Config, w: World)
    requires Inv(cfg, w)
    ensures Inv(cfg, ExecuteStep(w))
  {
    hide Journaled, Retained, Executed, Accounted, DirsOk, CountsOk, FixedOrder, BudgetsOk, UniqueTasks, TaskMayRun;
    if IsRunning(w, true) {
      var c := w.controller.value;
      var t := c.running.value.taskType;
      var call := Call(t, Cursor(c.cursors, t));
      var middle := w.(calls := w.calls + [call]);
      var now := ExecuteStep(w);
      ExecuteRoom(cfg, w);
      SameDirs(w, now);
      forall x
        ensures CountsOk(now, x) && Executed(now.calls, x) == Executed(w.calls, x) + if x == t then 1 else 0
      {
        ExecutedSnoc(w.calls, call, x);
        ExecuteCounts(w, call, x);
        SameCounts(middle, now, x);
      }
    }
  }

  // ---------------------------------------------------------------- journal events

  /** Journaling the task under way: what was pending becomes journaled. */
  lemma JournalCounts(w: World, e: Event, t: TaskType)
    requires CountsOk(w, t) && IsTask(e) && w.tasks != []
    requires var d := w.tasks[|w.tasks| - 1];
             d.taskId == e.taskId && d.taskType == e.taskType && d.attempts == e.attempts && Accounted(w.journal, d.taskId).None?
    requires t == e.taskType ==> Executed(w.calls, t) == Journaled(w.journal, t) + e.attempts
    ensures CountsOk(w.(journal := w.journal + [e]), t)
  {
    hide Journaled, Retained, Executed, Accounted, Contiguous;
    JournaledSnoc(w.journal, e, t);
    AccountedSnoc(w.journal, e, e.taskId);
  }

  lemma JournalDirs(w: World, e: Event)
    requires DirsOk(w) && IsTask(e) && w.tasks != []
    requires var d := w.tasks[|w.tasks| - 1];
             d.taskId == e.taskId && d.taskType == e.taskType && d.attempts == e.attempts
    ensures DirsOk(w.(journal := w.journal + [e]))
  {
    hide Accounted;
    var now, n := w.(journal := w.journal + [e]), |w.tasks| - 1;
    forall k | 0 <= k < |w.tasks| ensures DirAgrees(now.journal, now.tasks[k]) {
      AccountedSnoc(w.journal, e, w.tasks[k].taskId);
      assert k < n ==> w.tasks[k].taskId != w.tasks[n].taskId;
    }
    forall f | f in now.journal && IsTask(f) ensures exists x :: x in now.tasks && x.taskId == f.taskId {
      if f == e {
        assert w.tasks[n] in now.tasks;
      }
    }
  }

  lemma ControlCounts(w: World, e: Event, t: TaskType)
    requires CountsOk(w, t) && !IsTask(e)
    ensures CountsOk(w.(journal := w.journal + [e]), t)
  {
    hide Journaled, Retained, Executed, Accounted, Contiguous;
    JournaledSnoc(w.journal, e, t);
    if w.tasks != [] {
      AccountedSnoc(w.journal, e, w.tasks[|w.tasks| - 1].taskId);
    }
  }

  lemma ControlDirs(w: World, e: Event)
    requires DirsOk(w) && !IsTask(e)
    ensures DirsOk(w.(journal := w.journal + [e]))
  {
    hide Accounted;
    forall k | 0 <= k < |w.tasks|
      ensures Accounted(w.journal + [e], w.tasks[k].taskId) == Accounted(w.journal, w.tasks[k].taskId)
    {
      AccountedSnoc(w.journal, e, w.tasks[k].taskId);
    }
  }

  /** One more event whose budget follows from the last one. */
  lemma BudgetSnoc(j: seq<Event>, e: Event, limits: Limits)
    requires BudgetsOk(j, limits) && WithinLimits(e.budget, limits) && NothingFalls(Consumed(j), e.budget)
    requires Value(e.budget, Invocations) == Value(Consumed(j), Invocations) + AttemptsOf(e)
    ensures BudgetsOk(j + [e], limits)
  {
    hide WithinLimits, NothingFalls, Total;
    var all := j + [e];
    TotalSnoc(j, e, AttemptsOf);
    forall i | 0 <= i < |all| ensures BudgetAt(all, i, limits) {
      assert i < |j| ==> BudgetAt(j, i, limits) && all[i] == j[i] && (i > 0 ==> all[i - 1] == j[i - 1]);
      assert i == |j| > 0 ==> all[i - 1] == j[|j| - 1];
    }
  }

  lemma ConsumedWithin(j: seq<Event>, limits: Limits)
    requires BudgetsOk(j, limits)
    ensures WithinLimits(Consumed(j), limits)
  {
    hide NothingFalls, Total;
    if j != [] {
      assert BudgetAt(j, |j| - 1, limits);
    }
  }

  /** What a running task knows when its attempts are accounted for. */
  lemma AccountedTask(cfg: Config, w: World, usage: Usage)
    requires Inv(cfg, w) && CallsAccounted(w, usage)
    ensures var r, d := w.controller.value.running.value, w.tasks[|w.tasks| - 1];
            && d.taskId == r.taskId && d.taskType == r.taskType && d.attempts == usage.attempts
            && Accounted(w.journal, d.taskId).None?
            && Executed(w.calls, r.taskType) == Journaled(w.journal, r.taskType) + usage.attempts
            && usage.attempts <= cfg.technicalAttempts && TaskMayRun(w.journal, r.taskType)
            && Value(Consumed(w.journal), Invocations) + usage.attempts <= cfg.limits(Invocations)
  {
    hide Journaled, Retained, Executed, Accounted, DirsOk, CountsOk, FixedOrder, BudgetsOk, UniqueTasks, TaskMayRun, Cursor, Value;
  }

  lemma UniqueSnoc(j: seq<Event>, e: Event)
    requires UniqueTasks(j) && (IsTask(e) ==> Accounted(j, e.taskId).None?)
    ensures UniqueTasks(j + [e])
  {
    hide Accounted;
    var all := j + [e];
    forall a, b | 0 <= a < b < |all| && IsTask(all[a]) && IsTask(all[b]) ensures all[a].taskId != all[b].taskId {
      assert all[a] == j[a] && all[a] in j;
      if b == |j| {
        AccountedMember(j, all[a]);
      }
    }
  }

  lemma JournalInv(cfg: Config, w: World, usage: Usage, e: Event)
    requires Inv(cfg, w) && CallsAccounted(w, usage) && IsTask(e) && MayFollow(w.journal, e)
    requires var r := w.controller.value.running.value;
             e.taskId == r.taskId && e.taskType == r.taskType && e.attempts == usage.attempts
    requires WithinLimits(e.budget, cfg.limits) && NothingFalls(Consumed(w.journal), e.budget)
    requires Value(e.budget, Invocations) == Value(Consumed(w.journal), Invocations) + e.attempts
    ensures Inv(cfg, WithRunning(w.(journal := w.journal + [e]), None))
  {
    hide Journaled, Retained, Executed, Accounted, DirsOk, CountsOk, FixedOrder, BudgetsOk, UniqueTasks, TaskMayRun, Cursor, Value, WithinLimits,
      NothingFalls, MayFollow;
    AccountedTask(cfg, w, usage);
    PositionsExact(w.journal, e);
    BudgetSnoc(w.journal, e, cfg.limits);
    JournalDirs(w, e);
    UniqueSnoc(w.journal, e);
    var middle := w.(journal := w.journal + [e]);
    var now := WithRunning(middle, None);
    SameDirs(middle, now);
    forall t ensures CountsOk(now, t) {
      JournalCounts(w, e, t);
      SameCounts(middle, now, t);
    }
  }

  lemma AcceptInv(cfg: Config, w: World, usage: Usage, outcome: Outcome)
    requires Inv(cfg, w)
    ensures Inv(cfg, AcceptStep(cfg, w, usage, outcome))
  {
    hide Inv, AcceptedValues, AcceptedFits, TaskMayRun, Value, WithinLimits, BudgetsOk, Repeated;
    if CallsAccounted(w, usage) {
      AccountedTask(cfg, w, usage);
      var r := w.controller.value.running.value;
      var b := Consumed(w.journal);
      if AcceptedFits(b, cfg.limits, cfg.maxTaskSeconds, r.taskType, Repeated(w.journal, r.taskType), usage, outcome) {
        AcceptedBudgetOk(cfg, w, r.taskType, Repeated(w.journal, r.taskType), usage, outcome);
        var values := AcceptedValues(b, r.taskType, Repeated(w.journal, r.taskType), usage, outcome);
        JournalInv(cfg, w, usage, Accepted(r.taskType, r.taskId, usage.attempts, values));
      }
    }
  }

  lemma InvBudgets(cfg: Config, w: World)
    requires Inv(cfg, w)
    ensures BudgetsOk(w.journal, cfg.limits) && FixedOrder(w.journal)
  {
    hide BudgetsOk, FixedOrder;
  }

  lemma AcceptedBudgetOk(cfg: Config, w: World, t: TaskType, repeated: bool, usage: Usage, outcome: Outcome)
    requires Inv(cfg, w) && AcceptedFits(Consumed(w.journal), cfg.limits, cfg.maxTaskSeconds, t, repeated, usage, outcome)
    ensures var values := AcceptedValues(Consumed(w.journal), t, repeated, usage, outcome);
            && WithinLimits(values, cfg.limits) && NothingFalls(Consumed(w.journal), values)
            && Value(values, Invocations) == Value(Consumed(w.journal), Invocations) + usage.attempts
  {
    hide Inv, AcceptedValues, Fits, WithinLimits, Value, BudgetsOk;
    InvBudgets(cfg, w);
    ConsumedWithin(w.journal, cfg.limits);
    AcceptedKeys(Consumed(w.journal), t, repeated, usage, outcome);
    FitsBounds(Consumed(w.journal), cfg.limits, AcceptedValues(Consumed(w.journal), t, repeated, usage, outcome));
  }

  lemma FailedBudgetOk(cfg: Config, w: World, usage: Usage)
    requires Inv(cfg, w) && Value(Consumed(w.journal), Invocations) + usage.attempts <= cfg.limits(Invocations)
    ensures var consumed := Consumption(WithUsage(Consumed(w.journal), usage), cfg.limits);
            && WithinLimits(consumed, cfg.limits) && NothingFalls(Consumed(w.journal), consumed)
            && Value(consumed, Invocations) == Value(Consumed(w.journal), Invocations) + usage.attempts
  {
    hide Inv, WithUsage, BudgetsOk, Value, Consumption, Overruns;
    InvBudgets(cfg, w);
    var b := Consumed(w.journal);
    ConsumedWithin(w.journal, cfg.limits);
    FailureConserves(b, cfg.limits, usage);
    WithUsageValues(b, usage);
    var values := WithUsage(b, usage);
    SaturatedExactly(values, cfg.limits, map[], map[]);
    SaturatedValue(values, cfg.limits, Consumption(values, cfg.limits), Overruns(values, cfg.limits), Invocations);
  }

  lemma FailInv(cfg: Config, w: World, usage: Usage)
    requires Inv(cfg, w)
    ensures Inv(cfg, FailStep(cfg, w, usage))
  {
    hide Inv, WithUsage, Consumption, Overruns, TaskMayRun, Value, WithinLimits;
    if CallsAccounted(w, usage) {
      AccountedTask(cfg, w, usage);
      FailedBudgetOk(cfg, w, usage);
      var r := w.controller.value.running.value;
      var values := WithUsage(Consumed(w.journal), usage);
      JournalInv(cfg, w, usage, Failed(r.taskType, r.taskId, usage.attempts, Consumption(values, cfg.limits),
                                       Overruns(values, cfg.limits)));
    }
  }

  lemma RecordInv(cfg: Config, w: World, stage: ControlStage, state: Outcome, elapsed: nat)
    requires Inv(cfg, w)
    ensures Inv(cfg, RecordStep(cfg, w, stage, state, elapsed))
  {
    hide Journaled, Retained, Executed, Accounted, DirsOk, CountsOk, FixedOrder, BudgetsOk, UniqueTasks, ControlValues, Fits, Cursor, Value,
      WithinLimits, MayFollow, Reconciled, CursorsAgree;
    var b := Consumed(w.journal);
    var values := ControlValues(b, state, elapsed, RawOf(stage));
    var e := ControlEvent(stage, values);
    if Ready(w) && MayFollow(w.journal, e) && ControlFits(b, cfg.limits, cfg.maxTaskSeconds, state, elapsed, RawOf(stage)) {
      ConsumedWithin(w.journal, cfg.limits);
      ControlKeys(b, state, elapsed, RawOf(stage));
      FitsBounds(b, cfg.limits, values);
      PositionsExact(w.journal, e);
      BudgetSnoc(w.journal, e, cfg.limits);
      ControlDirs(w, e);
      UniqueSnoc(w.journal, e);
      forall t ensures CountsOk(w.(journal := w.journal + [e]), t) {
        ControlCounts(w, e, t);
      }
    }
  }

  // ---------------------------------------------------------------- crashes and restarts

  lemma RestartInv(cfg: Config, w: World, cursors: Cursors)
    requires Inv(cfg, w)
    ensures Inv(cfg, RestartStep(w, cursors))
  {
    hide Journaled, Retained, Executed, Accounted, DirsOk, CountsOk, FixedOrder, BudgetsOk, UniqueTasks, Reconciled, Restorable, Consumed;
    if w.controller.None? && Reconciled(w.journal, w.tasks) && Restorable(cursors, w.journal) {
      var now := RestartStep(w, cursors);
      SameDirs(w, now);
      forall t ensures CountsOk(now, t) && Cursor(now.controller.value.cursors, t) == Executed(now.calls, t) {
        SameCounts(w, now, t);
        ReconciledCounts(w, t);
        EveryType(t);
      }
    }
  }

  lemma QuietInv(cfg: Config, w: World, now: World)
    requires Inv(cfg, w) && now.journal == w.journal && now.tasks == w.tasks && now.calls == w.calls
    requires now.controller.None? || (w.controller.Some? && now == WithRunning(w, None))
    ensures Inv(cfg, now)
  {
    hide Journaled, Retained, Executed, Accounted, DirsOk, CountsOk, FixedOrder, BudgetsOk, UniqueTasks, Consumed;
    SameDirs(w, now);
    forall t ensures CountsOk(now, t) {
      SameCounts(w, now, t);
    }
  }

  /** Every step keeps the invariant. */
  lemma StepInv(cfg: Config, w: World, a: Action)
    requires Inv(cfg, w)
    ensures Inv(cfg, Step(cfg, w, a))
  {
    hide Inv, BeginStep, OpenStep, ExecuteStep, AcceptStep, FailStep, RecordStep, RestartStep;
    match a
    case Begin(id, t, requestBytes) => BeginInv(cfg, w, id, t, requestBytes);
    case OpenAttempt => OpenInv(cfg, w);
    case Execute => ExecuteInv(cfg, w);
    case Accept(usage, outcome) => AcceptInv(cfg, w, usage, outcome);
    case Fail(usage) => FailInv(cfg, w, usage);
    case Abort => if w.controller.Some? { QuietInv(cfg, w, WithRunning(w, None)); }
    case Record(stage, state, elapsed) => RecordInv(cfg, w, stage, state, elapsed);
    case Crash => QuietInv(cfg, w, w.(controller := None));
    case Restart(cursors) => RestartInv(cfg, w, cursors);
  }

  /** Every run keeps the invariant, whatever is interleaved with crashes and restarts. */
  lemma {:induction false} RunInv(cfg: Config, actions: seq<Action>)
    ensures Inv(cfg, Run(cfg, FRESH, actions))
  {
    hide Inv, Step;
    if actions == [] {
      FreshInv(cfg);
    } else {
      RunInv(cfg, actions[..|actions| - 1]);
      StepInv(cfg, Run(cfg, FRESH, actions[..|actions| - 1]), actions[|actions| - 1]);
    }
  }

  // ---------------------------------------------------------------- what every run guarantees

  /** Engine calls of each type are numbered 0, 1, 2, … in order: no response is taken twice and none is skipped. */
  lemma NoReplayNoSkip(cfg: Config, actions: seq<Action>, t: TaskType)
    ensures var calls := Where(Run(cfg, FRESH, actions).calls, CallType, t);
            forall k :: 0 <= k < |calls| ==> calls[k] == Call(t, k)
  {
    hide Run, FixedOrder, BudgetsOk, UniqueTasks, DirsOk, CursorsExact, RunningOk, Where;
    RunInv(cfg, actions);
    var w := Run(cfg, FRESH, actions);
    assert CountsOk(w, t);
    var calls := Where(w.calls, CallType, t);
    forall k | 0 <= k < |calls| ensures calls[k] == Call(t, k) {
      assert calls[k] in calls;
    }
  }

  /** Whenever a transition may start, each cursor is the journaled attempts of its type, which are the attempt
      directories of its marked tasks. */
  lemma CursorsAreJournaled(cfg: Config, actions: seq<Action>, t: TaskType)
    ensures var w := Run(cfg, FRESH, actions);
            w.controller.Some? && Reconciled(w.journal, w.tasks) ==>
              && Cursor(w.controller.value.cursors, t) == Journaled(w.journal, t)
              && Journaled(w.journal, t) == Retained(w.tasks, t) == Executed(w.calls, t)
  {
    hide Run, FixedOrder, BudgetsOk, UniqueTasks, DirsOk, RunningOk, Reconciled, Journaled, Retained, Executed, Cursor, CountsOk;
    RunInv(cfg, actions);
    var w := Run(cfg, FRESH, actions);
    if w.controller.Some? && Reconciled(w.journal, w.tasks) {
      ReconciledCounts(w, t);
    }
  }

  ghost predicate Unjournaled(w: World) {
    exists d :: d in w.tasks && d.attempts > 0 && Accounted(w.journal, d.taskId).None?
  }

  /** In a reachable world directories and journal disagree exactly when some attempts are unjournaled. */
  lemma ReconciledExactly(cfg: Config, w: World)
    requires Inv(cfg, w)
    ensures Reconciled(w.journal, w.tasks) <==> !Unjournaled(w)
  {
    hide FixedOrder, BudgetsOk, UniqueTasks, CountsOk, CursorsExact, RunningOk, Accounted;
    if !Unjournaled(w) {
      forall d | d in w.tasks ensures DirAgrees(w.journal, d) {
        var k :| 0 <= k < |w.tasks| && w.tasks[k] == d;
      }
    }
  }

  /** A restart with pristine engines succeeds exactly when no attempts are unjournaled, and then restores every cursor;
      with unjournaled attempts no restart succeeds. */
  lemma RestartExactly(cfg: Config, actions: seq<Action>, cursors: Cursors)
    requires Run(cfg, FRESH, actions).controller.None?
    ensures var w := Run(cfg, FRESH, actions);
            var now := Step(cfg, w, Restart(cursors));
            && (Unjournaled(w) ==> now == w)
            && (now.controller.Some? <==> !Unjournaled(w) && Restorable(cursors, w.journal))
            && (now.controller.Some? ==> forall t :: Cursor(now.controller.value.cursors, t) == Executed(w.calls, t))
  {
    hide Run, Inv, Reconciled, Restorable, Journaled, Executed, Unjournaled;
    RunInv(cfg, actions);
    var w := Run(cfg, FRESH, actions);
    ReconciledExactly(cfg, w);
    StepInv(cfg, w, Restart(cursors));
    InvCursors(cfg, Step(cfg, w, Restart(cursors)));
  }

  lemma InvCursors(cfg: Config, w: World)
    requires Inv(cfg, w)
    ensures CursorsExact(w)
  {
    hide CursorsExact;
  }

  /** Every reachable journal keeps the fixed order, and nothing follows a failed or blocked event or the report. */
  lemma JournalKeepsOrder(cfg: Config, actions: seq<Action>)
    ensures FixedOrder(Run(cfg, FRESH, actions).journal)
  {
    hide Run, FixedOrder;
    RunInv(cfg, actions);
    InvBudgets(cfg, Run(cfg, FRESH, actions));
  }

  /** At every event each counter is within its limit and no smaller than before. */
  lemma BudgetsStayWithin(cfg: Config, actions: seq<Action>, i: nat)
    requires i < |Run(cfg, FRESH, actions).journal|
    ensures BudgetAt(Run(cfg, FRESH, actions).journal, i, cfg.limits)
  {
    hide Run, FixedOrder, BudgetAt;
    RunInv(cfg, actions);
    InvBudgets(cfg, Run(cfg, FRESH, actions));
  }

  function SumCursors(c: Cursors, ts: seq<TaskType>): nat {
    if ts == [] then 0 else SumCursors(c, ts[..|ts| - 1]) + Cursor(c, ts[|ts| - 1])
  }

  /** The journaled attempts of all types together are the invocations. */
  lemma {:induction false} SumJournaled(j: seq<Event>, c: Cursors, ts: seq<TaskType>, keys: seq<Option<TaskType>>)
    requires |keys| == |ts| && forall k :: 0 <= k < |ts| ==> keys[k] == Some(ts[k])
    requires forall t :: t in ts ==> Cursor(c, t) == Journaled(j, t)
    ensures SumCursors(c, ts) == TotalBy(j, TypeOf, keys, AttemptsOf)
  {
    hide Where, Total, Cursor;
    if ts != [] {
      var n := |ts| - 1;
      assert ts == ts[..n] + [ts[n]];
      SumJournaled(j, c, ts[..n], keys[..n]);
    }
  }

  lemma {:induction false} ControlAttempts(j: seq<Event>)
    ensures Total(Where(j, TypeOf, None), AttemptsOf) == 0
  {
    if j != [] {
      var n := |j| - 1;
      assert j == j[..n] + [j[n]];
      ControlAttempts(j[..n]);
      GroupTotalSnoc(j[..n], j[n], TypeOf, None, AttemptsOf);
    }
  }

  lemma TypeKeys() returns (keys: seq<Option<TaskType>>)
    ensures |keys| == |TASK_TYPES| && forall k :: 0 <= k < |keys| ==> keys[k] == Some(TASK_TYPES[k])
    ensures Distinct(keys + [None]) && forall e: Event :: TypeOf(e) in keys + [None]
  {
    keys := seq(|TASK_TYPES|, k requires 0 <= k < |TASK_TYPES| => Some(TASK_TYPES[k]));
    var all := keys + [None];
    forall e: Event ensures TypeOf(e) in all {
      if IsTask(e) {
        EveryType(e.taskType);
        var k :| 0 <= k < |TASK_TYPES| && TASK_TYPES[k] == e.taskType;
        assert all[k] == TypeOf(e);
      } else {
        assert all[|keys|] == TypeOf(e);
      }
    }
    TypesDistinct();
  }

  lemma TypesDistinct()
    ensures forall a, b :: 0 <= a < b < |TASK_TYPES| ==> TASK_TYPES[a] != TASK_TYPES[b]
  {
  }

  /** Whenever a transition may start, the invocation counter is the sum of all engine cursors. */
  lemma InvocationsAreCursors(cfg: Config, actions: seq<Action>)
    ensures var w := Run(cfg, FRESH, actions);
            w.controller.Some? && Reconciled(w.journal, w.tasks) ==>
              Value(Consumed(w.journal), Invocations) == SumCursors(w.controller.value.cursors, TASK_TYPES)
  {
    hide Run, FixedOrder, Reconciled, Journaled, Cursor, Total, TotalBy, Where;
    RunInv(cfg, actions);
    var w := Run(cfg, FRESH, actions);
    InvBudgets(cfg, w);
    if w.controller.Some? && Reconciled(w.journal, w.tasks) {
      var c := w.controller.value.cursors;
      forall t ensures Cursor(c, t) == Journaled(w.journal, t) {
        CursorsAreJournaled(cfg, actions, t);
      }
      AllAttempts(w.journal, c);
    }
  }

  lemma AllAttempts(j: seq<Event>, c: Cursors)
    requires forall t :: Cursor(c, t) == Journaled(j, t)
    ensures SumCursors(c, TASK_TYPES) == Total(j, AttemptsOf)
  {
    hide Journaled, Cursor, Total, Where, SumCursors, TypeOf;
    var keys := TypeKeys();
    SumJournaled(j, c, TASK_TYPES, keys);
    GroupsSum(j, TypeOf, keys + [None], AttemptsOf);
    ControlAttempts(j);
    assert (keys + [None])[..|keys|] == keys;
  }
}
