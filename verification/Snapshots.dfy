/** The records of a repository snapshot (models.py), with the schema checks other proofs rely on. */
module Snapshots {
  import opened Basics
  import opened Ids

  datatype Theme = Theme(themeId: string, parentThemeId: Option<string>)

  datatype Paper = Paper(
    paperId: string, title: Option<string>, authors: Option<seq<string>>, year: Option<int>, doi: Option<string>,
    journal: Option<string>, identityKeys: seq<string>, relatedPublications: seq<string>, rawMdPath: string,
    sourceHash: string, rawMdHash: string)

  datatype Claim = Claim(claimId: string, themeId: string, text: string)

  datatype RetrievalQuery = RetrievalQuery(
    queryId: string, claimId: string, claimHash: string, intent: RetrievalIntent, text: string)

  datatype Locator = Locator(rawMdPath: string, section: Option<string>, start: nat, end: nat, spanHash: string)

  datatype RetrievedSpan = RetrievedSpan(
    spanId: string, paperId: string, locator: Locator, sourceText: string, queryId: string, intent: RetrievalIntent,
    score: real)

  datatype DispositionStatus = Assessed | Duplicate | Redundant | ExcludedByBudget | InvalidLocator

  datatype Disposition = Disposition(
    spanId: string, status: DispositionStatus, reason: Option<string>, canonicalSpanId: Option<string>)

  datatype Relation = Supports | Contradicts | Qualifies | Contextual | Unclear

  /** How good a piece of evidence is judged to be; no check looks at it. */
  datatype Quality = Quality(
    directness: string, relevance: string, strength: string, assessability: string, limitations: seq<string>)

  datatype Evidence = Evidence(
    evidenceId: string, claimId: string, spanId: string, paperId: string, relation: Relation, summary: string,
    quality: Quality, note: string)

  /** `AggregateRelation`: one of the relations of single records, or mixed. */
  datatype Aggregate = Only(relation: Relation) | Mixed

  datatype Components = Components(
    supports: seq<string>, contradicts: seq<string>, qualifies: seq<string>, contextual: seq<string>,
    unclear: seq<string>)
  {
    function Group(r: Relation): seq<string> {
      match r
      case Supports => supports
      case Contradicts => contradicts
      case Qualifies => qualifies
      case Contextual => contextual
      case Unclear => unclear
    }

    /** What belongs to some group. */
    function Grouped(): (ids: seq<string>)
      ensures forall id :: id in ids <==> exists r :: id in Group(r)
      ensures |ids| == |Group(Supports)| + |Group(Contradicts)| + |Group(Qualifies)| + |Group(Contextual)| + |Group(Unclear)|
    {
      assert supports == Group(Supports) && contradicts == Group(Contradicts) && qualifies == Group(Qualifies);
      assert contextual == Group(Contextual) && unclear == Group(Unclear);
      supports + contradicts + qualifies + contextual + unclear
    }

    function SubstantiveGroups(): (n: nat)
      ensures n >= 2 <==> exists a, b :: a != b && Substantive(a) && Substantive(b)
    {
      assert Substantive(Supports) <==> supports != [];
      assert Substantive(Contradicts) <==> contradicts != [];
      assert Substantive(Qualifies) <==> qualifies != [];
      (if supports != [] then 1 else 0) + (if contradicts != [] then 1 else 0) + (if qualifies != [] then 1 else 0)
    }

    /** Something is filed under a relation that bears on the claim. */
    predicate Substantive(r: Relation) {
      (r.Supports? || r.Contradicts? || r.Qualifies?) && Group(r) != []
    }
  }

  /** ClaimPaperEvidence: what one paper says about one claim. */
  datatype Cpe = Cpe(
    cpeId: string, claimId: string, paperId: string, evidenceIds: seq<string>, aggregate: Aggregate,
    components: Components)

  datatype Strength = Low | Moderate | High | UnknownStrength

  datatype Decision = Retain | Weaken | Narrow | Reformulate | Reject

  datatype Assessment = Assessment(claimId: string, strength: Strength, decision: Decision)

  datatype FinalStatus = Valid | ReviseAgain | Rejected | Undetermined

  datatype FinalRelation = FinalRelation(cpeId: string, paperId: string)

  datatype Final = Final(claimId: string, text: string, status: FinalStatus, relations: seq<FinalRelation>)

  datatype Packet = Packet(
    claimId: string, themeId: string, claimText: string, finalText: string, strength: Strength, cpeIds: seq<string>)

  datatype CorpusFact = CorpusFact(factId: string, paperIds: seq<string>)

  datatype ProcessFact = ProcessFact(factId: string)

  datatype Citation = Citation(paperId: string, claimId: string, cpeId: string)

  datatype ContentClass = ScientificClaim | CorpusStatement | ProcessStatement | Rhetorical

  datatype Proposition = Proposition(
    propositionId: string, contentClass: ContentClass, claimIds: seq<string>, citations: seq<Citation>,
    corpusFactIds: seq<string>, processFactIds: seq<string>)

  datatype ClassVerdict = Correct | Misclassified | UnclearClass

  datatype ProvenanceVerdict = Entailed | PartiallySupported | Overstated | Unsupported | UnclearProvenance

  datatype Audit = Audit(
    auditId: string, targetId: string, classVerdict: ClassVerdict, provenanceVerdict: ProvenanceVerdict,
    claimIds: seq<string>, corpusFactIds: seq<string>, processFactIds: seq<string>)

  datatype Sentence = Sentence(sentenceId: string, text: string, propositionIds: seq<string>)

  datatype SentenceAudit = SentenceAudit(auditId: string, sentenceId: string, verdict: ProvenanceVerdict)

  datatype Snapshot = Snapshot(
    themes: seq<Theme>, papers: seq<Paper>, claims: seq<Claim>, queries: seq<RetrievalQuery>,
    spans: seq<RetrievedSpan>, dispositions: seq<Disposition>, evidence: seq<Evidence>, cpes: seq<Cpe>,
    assessments: seq<Assessment>, finals: seq<Final>, packets: seq<Packet>, corpusFacts: seq<CorpusFact>,
    processFacts: seq<ProcessFact>, propositions: seq<Proposition>, audits: seq<Audit>, sentences: seq<Sentence>,
    sentenceAudits: seq<SentenceAudit>)

  // ---------------------------------------------------------------- identifiers

  function ThemeIdOf(x: Theme): string { x.themeId }
  function PaperIdOf(x: Paper): string { x.paperId }
  function ClaimIdOf(x: Claim): string { x.claimId }
  function QueryIdOf(x: RetrievalQuery): string { x.queryId }
  function SpanIdOf(x: RetrievedSpan): string { x.spanId }
  function DisposedSpanOf(x: Disposition): string { x.spanId }
  function EvidenceIdOf(x: Evidence): string { x.evidenceId }
  function EvidenceSpanOf(x: Evidence): string { x.spanId }
  function CpeIdOf(x: Cpe): string { x.cpeId }
  function AssessedClaimOf(x: Assessment): string { x.claimId }
  function FinalClaimOf(x: Final): string { x.claimId }
  function PacketClaimOf(x: Packet): string { x.claimId }
  function CorpusFactIdOf(x: CorpusFact): string { x.factId }
  function ProcessFactIdOf(x: ProcessFact): string { x.factId }
  function PropositionIdOf(x: Proposition): string { x.propositionId }
  function AuditIdOf(x: Audit): string { x.auditId }
  function AuditTargetOf(x: Audit): string { x.targetId }
  function SentenceIdOf(x: Sentence): string { x.sentenceId }
  function SentenceAuditIdOf(x: SentenceAudit): string { x.auditId }
  function AuditedSentenceOf(x: SentenceAudit): string { x.sentenceId }

  // ---------------------------------------------------------------- schema checks

  predicate DispositionModelOk(d: Disposition) {
    match d.status
    case Assessed => d.canonicalSpanId.None?
    case Duplicate => d.canonicalSpanId.Some?
    case Redundant => d.canonicalSpanId.Some? || d.reason.GetOr("") != ""
    case ExcludedByBudget => d.reason.GetOr("") != ""
    case InvalidLocator => d.reason.GetOr("") != ""
  }

  /** The list lengths that `models.py` requires (lines 247, 382-384 and 477). */
  ghost predicate SchemaOk(s: Snapshot) {
    && (forall d :: d in s.dispositions ==> DispositionModelOk(d))
    && (forall x :: x in s.cpes ==> x.evidenceIds != [])
    && (forall x :: x in s.packets ==> x.cpeIds != [])
    && (forall x :: x in s.propositions && x.contentClass.ScientificClaim? ==> x.claimIds != [] && x.citations != [])
    && (forall x :: x in s.sentences ==> x.propositionIds != [])
  }

  /** `derive_semantic_audit_disposition` is PASS. */
  predicate AuditPasses(a: Audit) {
    a.classVerdict.Correct? && a.provenanceVerdict.Entailed?
  }
}
