/** Cumulative budgets of the synthetic pilot (library/pilot_controller.py). */
module PilotBudget {
  import opened Basics
  import opened PilotModel

  type Limits = Counter -> nat

  /** What one task used: totals over its attempts, its request bytes and its elapsed time. */
  datatype Usage = Usage(
    attempts: nat, requestBytes: nat, outputBytes: nat, stdoutBytes: nat, stderrBytes: nat, retainedBytes: nat,
    writableEntries: nat, writableTreeBytes: nat, elapsedSeconds: nat)

  /** What an accepted task leaves behind: the state counts of the new snapshot and the size of its proposal. */
  datatype Outcome = Outcome(queries: nat, evidenceRecords: nat, paperEvidence: nat, items: nat)

  datatype BudgetError = Regressed(counter: Counter) | Exceeded(counter: Counter) | EmptyRequest | TaskTooLong

  function Add(b: Budget, c: Counter, n: nat): Budget {
    b[c := Value(b, c) + n]
  }

  /** The part of a usage that goes to a counter. */
  function UsageOf(u: Usage, c: Counter): nat {
    match c
    case Invocations => u.attempts
    case RequestBytes => u.requestBytes
    case ProposalBytes => u.outputBytes
    case StdoutBytes => u.stdoutBytes
    case StderrBytes => u.stderrBytes
    case RetainedBytes => u.retainedBytes
    case WritableEntries => u.writableEntries
    case WritableTreeBytes => u.writableTreeBytes
    case ElapsedSeconds => u.elapsedSeconds
    case _ => 0
  }

  /** The nine additions that accepted and failed tasks have in common. */
  function WithUsage(b: Budget, u: Usage): Budget {
    var b1 := Add(b, Invocations, u.attempts);
    var b2 := Add(b1, RequestBytes, u.requestBytes);
    var b3 := Add(b2, ProposalBytes, u.outputBytes);
    var b4 := Add(b3, StdoutBytes, u.stdoutBytes);
    var b5 := Add(b4, StderrBytes, u.stderrBytes);
    var b6 := Add(b5, RetainedBytes, u.retainedBytes);
    var b7 := Add(b6, WritableEntries, u.writableEntries);
    var b8 := Add(b7, WritableTreeBytes, u.writableTreeBytes);
    Add(b8, ElapsedSeconds, u.elapsedSeconds)
  }

  lemma AddValue(b: Budget, c: Counter, n: nat, k: Counter)
    ensures Value(Add(b, c, n), k) == Value(b, k) + if k == c then n else 0
  {
  }

  lemma UsageAdded(b: Budget, u: Usage, k: Counter)
    ensures Value(WithUsage(b, u), k) == Value(b, k) + UsageOf(u, k)
  {
    hide Add, Value;
    AddValue(b, Invocations, u.attempts, k);
    var b1 := Add(b, Invocations, u.attempts);
    AddValue(b1, RequestBytes, u.requestBytes, k);
    var b2 := Add(b1, RequestBytes, u.requestBytes);
    AddValue(b2, ProposalBytes, u.outputBytes, k);
    var b3 := Add(b2, ProposalBytes, u.outputBytes);
    AddValue(b3, StdoutBytes, u.stdoutBytes, k);
    var b4 := Add(b3, StdoutBytes, u.stdoutBytes);
    AddValue(b4, StderrBytes, u.stderrBytes, k);
    var b5 := Add(b4, StderrBytes, u.stderrBytes);
    AddValue(b5, RetainedBytes, u.retainedBytes, k);
    var b6 := Add(b5, RetainedBytes, u.retainedBytes);
    AddValue(b6, WritableEntries, u.writableEntries, k);
    var b7 := Add(b6, WritableEntries, u.writableEntries);
    AddValue(b7, WritableTreeBytes, u.writableTreeBytes, k);
    AddValue(Add(b7, WritableTreeBytes, u.writableTreeBytes), ElapsedSeconds, u.elapsedSeconds, k);
  }

  lemma UsageKeeps(b: Budget, u: Usage)
    ensures b.Keys <= WithUsage(b, u).Keys
  {
    hide Value;
  }

  lemma WithUsageValues(b: Budget, u: Usage)
    ensures forall c :: Value(WithUsage(b, u), c) == Value(b, c) + UsageOf(u, c)
    ensures b.Keys <= WithUsage(b, u).Keys
  {
    hide WithUsage;
    UsageKeeps(b, u);
    forall c ensures Value(WithUsage(b, u), c) == Value(b, c) + UsageOf(u, c) {
      UsageAdded(b, u, c);
    }
  }

  /** `_actual_state_counts`. */
  function WithStateCounts(b: Budget, o: Outcome): Budget {
    b[Queries := o.queries][EvidenceRecords := o.evidenceRecords][PaperEvidence := o.paperEvidence]
  }

  /** The counter that the items of a task's proposal go to; a repeated draft counts as repair. */
  function ItemCounter(t: TaskType, repeated: bool): Option<Counter> {
    match t
    case AssessEvidence => Some(AssessedCandidates)
    case GeneratePropositions => Some(if repeated then PropositionRepairs else Propositions)
    case RenderProse => Some(if repeated then SentenceRepairs else Sentences)
    case _ => None
  }

  function WithItems(b: Budget, t: TaskType, repeated: bool, items: nat): Budget {
    match ItemCounter(t, repeated)
    case Some(c) => Add(b, c, items)
    case None => b
  }

  function AcceptedValues(b: Budget, t: TaskType, repeated: bool, u: Usage, o: Outcome): Budget {
    WithItems(WithUsage(WithStateCounts(b, o), u), t, repeated, o.items)
  }

  /** What each counter stands at after a failed task, overruns included. */
  function FailedCount(b: Budget, u: Usage, c: Counter): nat {
    match c
    case Invocations => Value(b, c) + u.attempts
    case Queries => Value(b, c)
    case RawCandidates => Value(b, c)
    case AssessedCandidates => Value(b, c)
    case EvidenceRecords => Value(b, c)
    case PaperEvidence => Value(b, c)
    case Propositions => Value(b, c)
    case PropositionRepairs => Value(b, c)
    case Sentences => Value(b, c)
    case SentenceRepairs => Value(b, c)
    case ElapsedSeconds => Value(b, c) + u.elapsedSeconds
    case RequestBytes => Value(b, c) + u.requestBytes
    case ProposalBytes => Value(b, c) + u.outputBytes
    case StdoutBytes => Value(b, c) + u.stdoutBytes
    case StderrBytes => Value(b, c) + u.stderrBytes
    case RetainedBytes => Value(b, c) + u.retainedBytes
    case WritableEntries => Value(b, c) + u.writableEntries
    case WritableTreeBytes => Value(b, c) + u.writableTreeBytes
  }

  /** What each counter stands at after an accepted task. */
  function AcceptedCount(b: Budget, t: TaskType, repeated: bool, u: Usage, o: Outcome, c: Counter): nat {
    match c
    case Queries => o.queries
    case EvidenceRecords => o.evidenceRecords
    case PaperEvidence => o.paperEvidence
    case AssessedCandidates => Value(b, c) + (if t.AssessEvidence? then o.items else 0)
    case Propositions => Value(b, c) + (if t.GeneratePropositions? && !repeated then o.items else 0)
    case PropositionRepairs => Value(b, c) + (if t.GeneratePropositions? && repeated then o.items else 0)
    case Sentences => Value(b, c) + (if t.RenderProse? && !repeated then o.items else 0)
    case SentenceRepairs => Value(b, c) + (if t.RenderProse? && repeated then o.items else 0)
    case _ => FailedCount(b, u, c)
  }

  /** What each counter stands at after a control stage. */
  function ControlCount(b: Budget, o: Outcome, elapsed: nat, raw: Option<nat>, c: Counter): nat {
    match c
    case Queries => o.queries
    case EvidenceRecords => o.evidenceRecords
    case PaperEvidence => o.paperEvidence
    case RawCandidates => if raw.Some? then raw.value else Value(b, c)
    case ElapsedSeconds => Value(b, c) + elapsed
    case _ => Value(b, c)
  }

  lemma StateCounters(b: Budget, o: Outcome, c: Counter)
    ensures Value(WithStateCounts(b, o), c) ==
            match c
            case Queries => o.queries
            case EvidenceRecords => o.evidenceRecords
            case PaperEvidence => o.paperEvidence
            case _ => Value(b, c)
  {
  }

  lemma FailedCounter(b: Budget, u: Usage, c: Counter)
    ensures Value(WithUsage(b, u), c) == FailedCount(b, u, c)
  {
    hide WithUsage, Value;
    UsageAdded(b, u, c);
  }

  lemma AcceptedCounter(b: Budget, t: TaskType, repeated: bool, u: Usage, o: Outcome, c: Counter)
    ensures Value(AcceptedValues(b, t, repeated, u, o), c) == AcceptedCount(b, t, repeated, u, o, c)
  {
    hide WithUsage, WithStateCounts, Value, Add;
    var counted := WithStateCounts(b, o);
    StateCounters(b, o, c);
    FailedCounter(counted, u, c);
    var item := ItemCounter(t, repeated);
    if item.Some? {
      AddValue(WithUsage(counted, u), item.value, o.items, c);
    }
  }

  lemma ControlCounter(b: Budget, o: Outcome, elapsed: nat, raw: Option<nat>, c: Counter)
    ensures Value(ControlValues(b, o, elapsed, raw), c) == ControlCount(b, o, elapsed, raw, c)
  {
    hide WithStateCounts, Add;
    StateCounters(b, o, c);
    AddValue(WithStateCounts(b, o), ElapsedSeconds, elapsed, c);
  }

  // ---------------------------------------------------------------- checking

  /** No counter falls, and none passes its limit. */
  ghost predicate Fits(previous: Budget, limits: Limits, values: Budget) {
    forall c :: c in values ==> Value(previous, c) <= values[c] <= limits(c)
  }

  function CounterIndex(c: Counter): nat {
    match c
    case Invocations => 0 case Queries => 1 case RawCandidates => 2 case AssessedCandidates => 3 case EvidenceRecords => 4
    case PaperEvidence => 5 case Propositions => 6 case PropositionRepairs => 7 case Sentences => 8 case SentenceRepairs => 9
    case ElapsedSeconds => 10 case RequestBytes => 11 case ProposalBytes => 12 case StdoutBytes => 13 case StderrBytes => 14
    case RetainedBytes => 15 case WritableEntries => 16 case WritableTreeBytes => 17
  }

  lemma EveryCounter(c: Counter)
    ensures c in COUNTERS
  {
    assert COUNTERS[CounterIndex(c)] == c;
  }

  /** `_check_budget`. */
  method CheckBudget(previous: Budget, limits: Limits, values: Budget) returns (r: Result<Budget, BudgetError>)
    ensures r.Ok? <==> Fits(previous, limits, values)
    ensures r.Ok? ==> r.value == values
    ensures r.Err? && r.error.Regressed? ==>
              r.error.counter in values && values[r.error.counter] < Value(previous, r.error.counter)
    ensures r.Err? && r.error.Exceeded? ==> r.error.counter in values && values[r.error.counter] > limits(r.error.counter)
    ensures r.Err? ==> r.error.Regressed? || r.error.Exceeded?
  {
    hide Value;
    var i := 0;
    while i < |COUNTERS|
      invariant 0 <= i <= |COUNTERS|
      invariant forall k :: 0 <= k < i && COUNTERS[k] in values ==>
                  Value(previous, COUNTERS[k]) <= values[COUNTERS[k]] <= limits(COUNTERS[k])
    {
      var c := COUNTERS[i];
      if c in values {
        if values[c] < Value(previous, c) {
          return Err(Regressed(c));
        }
        if values[c] > limits(c) {
          return Err(Exceeded(c));
        }
      }
      i := i + 1;
    }
    forall c | c in values ensures Value(previous, c) <= values[c] <= limits(c) {
      EveryCounter(c);
    }
    return Ok(values);
  }

  /** `_accepted_budget`. */
  method AcceptedBudget(previous: Budget, limits: Limits, maxTaskSeconds: nat, t: TaskType, repeated: bool, u: Usage, o: Outcome)
    returns (r: Result<Budget, BudgetError>)
    ensures r.Ok? <==> AcceptedFits(previous, limits, maxTaskSeconds, t, repeated, u, o)
    ensures r.Ok? ==> r.value == AcceptedValues(previous, t, repeated, u, o)
    ensures r.Ok? ==> forall c :: Value(r.value, c) == AcceptedCount(previous, t, repeated, u, o, c)
  {
    hide Fits, AcceptedValues, AcceptedCount, Value;
    forall c ensures Value(AcceptedValues(previous, t, repeated, u, o), c) == AcceptedCount(previous, t, repeated, u, o, c) {
      AcceptedCounter(previous, t, repeated, u, o, c);
    }
    if u.requestBytes <= 0 {
      return Err(EmptyRequest);
    }
    if u.elapsedSeconds > maxTaskSeconds {
      return Err(TaskTooLong);
    }
    r := CheckBudget(previous, limits, AcceptedValues(previous, t, repeated, u, o));
  }

  ghost predicate AcceptedFits(previous: Budget, limits: Limits, maxTaskSeconds: nat, t: TaskType, repeated: bool, u: Usage, o: Outcome) {
    && u.requestBytes > 0 && u.elapsedSeconds <= maxTaskSeconds
    && Fits(previous, limits, AcceptedValues(previous, t, repeated, u, o))
  }

  /** What a control stage adds besides its time: the raw candidates of a retrieval. */
  function ControlValues(b: Budget, o: Outcome, elapsed: nat, rawCandidates: Option<nat>): Budget {
    var timed := Add(WithStateCounts(b, o), ElapsedSeconds, elapsed);
    if rawCandidates.Some? then timed[RawCandidates := rawCandidates.value] else timed
  }

  ghost predicate ControlFits(previous: Budget, limits: Limits, maxTaskSeconds: nat, o: Outcome, elapsed: nat, raw: Option<nat>) {
    elapsed <= maxTaskSeconds && Fits(previous, limits, ControlValues(previous, o, elapsed, raw))
  }

  /** `_control_budget`. */
  method ControlBudget(previous: Budget, limits: Limits, maxTaskSeconds: nat, o: Outcome, elapsed: nat, raw: Option<nat>)
    returns (r: Result<Budget, BudgetError>)
    ensures r.Ok? <==> ControlFits(previous, limits, maxTaskSeconds, o, elapsed, raw)
    ensures r.Ok? ==> r.value == ControlValues(previous, o, elapsed, raw)
    ensures r.Ok? ==> forall c :: Value(r.value, c) == ControlCount(previous, o, elapsed, raw, c)
  {
    hide Fits, ControlValues, ControlCount, Value;
    forall c ensures Value(ControlValues(previous, o, elapsed, raw), c) == ControlCount(previous, o, elapsed, raw, c) {
      ControlCounter(previous, o, elapsed, raw, c);
    }
    if elapsed > maxTaskSeconds {
      return Err(TaskTooLong);
    }
    r := CheckBudget(previous, limits, ControlValues(previous, o, elapsed, raw));
  }

  // ---------------------------------------------------------------- failing

  ghost predicate WithinLimits(b: Budget, limits: Limits) {
    forall c :: Value(b, c) <= limits(c)
  }

  /** Up to the limit is consumed, the rest is an overrun. */
  ghost predicate SaturatedAt(values: Budget, limits: Limits, consumed: Budget, overruns: Budget, c: Counter) {
    if c !in values then c !in consumed && c !in overruns
    else if values[c] > limits(c) then
      c in consumed && consumed[c] == limits(c) && c in overruns && overruns[c] == values[c] - limits(c)
    else c in consumed && consumed[c] == values[c] && c !in overruns
  }

  ghost predicate Saturated(values: Budget, limits: Limits, consumed: Budget, overruns: Budget) {
    forall c :: SaturatedAt(values, limits, consumed, overruns, c)
  }

  /** What a failing event consumes and what it overruns. */
  function Consumption(values: Budget, limits: Limits): Budget {
    map c | c in values :: if values[c] > limits(c) then limits(c) else values[c]
  }

  function Overruns(values: Budget, limits: Limits): Budget {
    map c | c in values && values[c] > limits(c) :: values[c] - limits(c)
  }

  lemma SaturatedExactly(values: Budget, limits: Limits, consumed: Budget, overruns: Budget)
    ensures Saturated(values, limits, Consumption(values, limits), Overruns(values, limits))
    ensures Saturated(values, limits, consumed, overruns) ==>
              consumed == Consumption(values, limits) && overruns == Overruns(values, limits)
  {
    if Saturated(values, limits, consumed, overruns) {
      forall c
        ensures c in consumed <==> c in values
        ensures c in values ==> consumed[c] == if values[c] > limits(c) then limits(c) else values[c]
        ensures c in overruns <==> c in values && values[c] > limits(c)
        ensures c in overruns ==> overruns[c] == values[c] - limits(c)
      {
        assert SaturatedAt(values, limits, consumed, overruns, c);
      }
      assert consumed == Consumption(values, limits);
      assert overruns == Overruns(values, limits);
    }
    forall c ensures SaturatedAt(values, limits, Consumption(values, limits), Overruns(values, limits), c) {
    }
  }

  /** `_failed_budget`. The regression check can never fail while the previous budget is within its limits. */
  method FailedBudget(previous: Budget, limits: Limits, u: Usage) returns (r: Result<(Budget, Budget), BudgetError>)
    ensures WithinLimits(previous, limits) ==> r.Ok?
    ensures r.Ok? ==> r.value == (Consumption(WithUsage(previous, u), limits), Overruns(WithUsage(previous, u), limits))
  {
    hide Saturated, WithUsage, Value, Consumption, Overruns;
    var values := WithUsage(previous, u);
    WithUsageValues(previous, u);
    var consumed: Budget, overruns: Budget := map[], map[];
    var i := 0;
    NothingSaturated(values, limits);
    while i < |COUNTERS|
      invariant 0 <= i <= |COUNTERS|
      invariant Saturated(Among(values, COUNTERS[..i]), limits, consumed, overruns)
    {
      var c := COUNTERS[i];
      SaturateNext(values, limits, consumed, overruns, i);
      if c in values {
        var value := values[c];
        ValuePresent(values, c);
        if value > limits(c) {
          overruns := overruns[c := value - limits(c)];
          value := limits(c);
        }
        if value < Value(previous, c) {
          return Err(Regressed(c));
        }
        consumed := consumed[c := value];
      }
      i := i + 1;
    }
    AllAmong(values);
    SaturatedExactly(values, limits, consumed, overruns);
    return Ok((consumed, overruns));
  }

  lemma ValuePresent(b: Budget, c: Counter)
    requires c in b
    ensures Value(b, c) == b[c]
  {
  }

  /** The entries of the counters visited so far. */
  ghost function Among(values: Budget, cs: seq<Counter>): Budget {
    map c | c in values && c in cs :: values[c]
  }

  lemma AllAmong(values: Budget)
    ensures Among(values, COUNTERS[..|COUNTERS|]) == values
  {
    forall c | c in values ensures c in COUNTERS[..|COUNTERS|] {
      EveryCounter(c);
      assert COUNTERS[..|COUNTERS|] == COUNTERS;
    }
  }

  lemma NothingSaturated(values: Budget, limits: Limits)
    ensures Saturated(Among(values, COUNTERS[..0]), limits, map[], map[])
  {
  }

  lemma SaturateNext(values: Budget, limits: Limits, consumed: Budget, overruns: Budget, i: nat)
    requires i < |COUNTERS| && Saturated(Among(values, COUNTERS[..i]), limits, consumed, overruns)
    ensures var c := COUNTERS[i];
            if c !in values then Saturated(Among(values, COUNTERS[..i + 1]), limits, consumed, overruns)
            else if values[c] > limits(c) then
              Saturated(Among(values, COUNTERS[..i + 1]), limits, consumed[c := limits(c)], overruns[c := values[c] - limits(c)])
            else Saturated(Among(values, COUNTERS[..i + 1]), limits, consumed[c := values[c]], overruns)
  {
    var c := COUNTERS[i];
    var before, now := Among(values, COUNTERS[..i]), Among(values, COUNTERS[..i + 1]);
    var more := if c in values then consumed[c := if values[c] > limits(c) then limits(c) else values[c]] else consumed;
    var over := if c in values && values[c] > limits(c) then overruns[c := values[c] - limits(c)] else overruns;
    assert SaturatedAt(before, limits, consumed, overruns, c);
    forall k ensures SaturatedAt(now, limits, more, over, k) {
      assert SaturatedAt(before, limits, consumed, overruns, k);
    }
  }

  /** At a failing event nothing is lost: what is consumed and what overruns is what was there and what was used. */
  lemma FailureConserves(previous: Budget, limits: Limits, u: Usage)
    requires WithinLimits(previous, limits)
    ensures var consumed, overruns := Consumption(WithUsage(previous, u), limits), Overruns(WithUsage(previous, u), limits);
            forall c :: && Value(consumed, c) + Value(overruns, c) == FailedCount(previous, u, c)
                        && Value(previous, c) <= Value(consumed, c) <= limits(c)
                        && (Value(overruns, c) > 0 ==> Value(consumed, c) == limits(c))
  {
    hide WithUsage, SaturatedAt, Consumption, Overruns, FailedCount;
    WithUsageValues(previous, u);
    var consumed, overruns := Consumption(WithUsage(previous, u), limits), Overruns(WithUsage(previous, u), limits);
    SaturatedExactly(WithUsage(previous, u), limits, consumed, overruns);
    forall c
      ensures Value(consumed, c) + Value(overruns, c) == FailedCount(previous, u, c)
      ensures Value(previous, c) <= Value(consumed, c) <= limits(c)
      ensures Value(overruns, c) > 0 ==> Value(consumed, c) == limits(c)
    {
      FailedCounter(previous, u, c);
      SaturatedValue(WithUsage(previous, u), limits, consumed, overruns, c);
      assert Value(previous, c) <= limits(c);
    }
  }

  lemma SaturatedValue(values: Budget, limits: Limits, consumed: Budget, overruns: Budget, c: Counter)
    requires Saturated(values, limits, consumed, overruns)
    ensures Value(consumed, c) + Value(overruns, c) == Value(values, c)
    ensures Value(consumed, c) == if Value(values, c) > limits(c) then limits(c) else Value(values, c)
  {
    assert SaturatedAt(values, limits, consumed, overruns, c);
  }

  /** An accepted or control event keeps every counter monotone and within its limit. */
  lemma FitsBounds(previous: Budget, limits: Limits, values: Budget)
    requires Fits(previous, limits, values) && WithinLimits(previous, limits) && previous.Keys <= values.Keys
    ensures WithinLimits(values, limits) && forall c :: Value(previous, c) <= Value(values, c)
  {
  }

  lemma AcceptedKeys(b: Budget, t: TaskType, repeated: bool, u: Usage, o: Outcome)
    ensures b.Keys <= AcceptedValues(b, t, repeated, u, o).Keys
    ensures Value(AcceptedValues(b, t, repeated, u, o), Invocations) == Value(b, Invocations) + u.attempts
  {
    hide WithUsage;
    WithUsageValues(WithStateCounts(b, o), u);
  }

  lemma ControlKeys(b: Budget, o: Outcome, elapsed: nat, raw: Option<nat>)
    ensures b.Keys <= ControlValues(b, o, elapsed, raw).Keys
    ensures Value(ControlValues(b, o, elapsed, raw), Invocations) == Value(b, Invocations)
  {
  }
}
