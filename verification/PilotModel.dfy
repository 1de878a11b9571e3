/** Stages, tasks and journal events of the synthetic pilot (library/pilot_controller.py). */
module PilotModel {
  import opened Basics

  datatype TaskType =
    | ParseDeepResearch | CorpusChallenger | GenerateCandidateClaims | GenerateRetrievalQueries
    | AssessEvidence | AggregatePaperEvidence | AssessClaim | ReviseClaim | ValidateFinalClaim
    | GeneratePropositions | AuditProposition | RenderProse | AuditRenderedSentence

  const TASK_TYPES: seq<TaskType> := [
    ParseDeepResearch, CorpusChallenger, GenerateCandidateClaims, GenerateRetrievalQueries,
    AssessEvidence, AggregatePaperEvidence, AssessClaim, ReviseClaim, ValidateFinalClaim,
    GeneratePropositions, AuditProposition, RenderProse, AuditRenderedSentence]

  /** `_PREFIX`. */
  const PREFIX: seq<TaskType> := [ParseDeepResearch, CorpusChallenger, GenerateCandidateClaims, GenerateRetrievalQueries]

  /** `_TASK_PHASE`. */
  function TaskPhase(t: TaskType): nat {
    match t
    case ParseDeepResearch => 1
    case CorpusChallenger => 2
    case GenerateCandidateClaims => 3
    case GenerateRetrievalQueries => 4
    case AssessEvidence => 6
    case AggregatePaperEvidence => 7
    case AssessClaim => 7
    case ReviseClaim => 8
    case ValidateFinalClaim => 8
    case GeneratePropositions => 9
    case AuditProposition => 9
    case RenderProse => 10
    case AuditRenderedSentence => 10
  }

  /** The cumulative counters of `_BUDGET_LIMITS`. */
  datatype Counter =
    | Invocations | Queries | RawCandidates | AssessedCandidates | EvidenceRecords | PaperEvidence | Propositions
    | PropositionRepairs | Sentences | SentenceRepairs | ElapsedSeconds | RequestBytes | ProposalBytes | StdoutBytes
    | StderrBytes | RetainedBytes | WritableEntries | WritableTreeBytes

  const COUNTERS: seq<Counter> := [
    Invocations, Queries, RawCandidates, AssessedCandidates, EvidenceRecords, PaperEvidence, Propositions,
    PropositionRepairs, Sentences, SentenceRepairs, ElapsedSeconds, RequestBytes, ProposalBytes, StdoutBytes,
    StderrBytes, RetainedBytes, WritableEntries, WritableTreeBytes]

  type Budget = map<Counter, nat>

  function Value(b: Budget, c: Counter): nat {
    if c in b then b[c] else 0
  }

  /** A stage event: an accepted task, a task that failed for good, or a control event. */
  datatype Event =
    | Accepted(taskType: TaskType, taskId: string, attempts: nat, budget: Budget)
    | Failed(taskType: TaskType, taskId: string, attempts: nat, budget: Budget, overruns: Budget)
    | Prerequisites(budget: Budget)
    | Retrieval(budget: Budget)
    | Assembly(blocked: bool, budget: Budget)
    | ValidationReport(budget: Budget)

  /** Nothing may follow such an event. */
  predicate Terminal(e: Event) {
    e.Failed? || e.ValidationReport? || (e.Assembly? && e.blocked)
  }

  predicate IsTask(e: Event) {
    e.Accepted? || e.Failed?
  }

  /** `_last_phase` after the event; a failed task is recorded without its phase. */
  function EventPhase(e: Event): int {
    match e
    case Accepted(t, _, _, _) => TaskPhase(t)
    case Failed(_, _, _, _, _) => 0
    case Prerequisites(_) => 0
    case Retrieval(_) => 5
    case Assembly(_, _) => 11
    case ValidationReport(_) => 12
  }

  function LastPhase(j: seq<Event>): int {
    if j == [] then -1 else EventPhase(j[|j| - 1])
  }
}
