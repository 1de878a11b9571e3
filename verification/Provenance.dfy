/** What the repository checks imply together: every rendered scientific statement leads back to assessed
    passages of the papers it cites, and no assessed passage of a finished claim is left out. */
module Provenance {
  import opened Basics
  import opened ClaimChecks
  import opened Collecting
  import opened Lookup
  import opened Ordering
  import opened ProseChecks
  import opened RegistryChecks
  import opened RetrievalChecks
  import opened Snapshots
  import opened Validators

  // ---------------------------------------------------------------- from a citation to its passages

  /** The record rests on a solely assessed passage of the paper, retrieved by a query for the claim whose
      hash matches the claim's current text. */
  ghost predicate Grounded(s: Snapshot, hash: ClaimHash, e: Evidence, x: RetrievedSpan, q: RetrievalQuery, c: Claim) {
    && e in s.evidence && x in s.spans && q in s.queries && c in s.claims
    && x.spanId == e.spanId && x.paperId == e.paperId && SolelyAssessed(s.dispositions, x.spanId)
    && q.queryId == x.queryId && q.intent == x.intent && q.claimId == c.claimId == e.claimId
    && q.claimHash == hash(c.text)
  }

  /** The packet, final text and assessment that license a citation of a claim. */
  ghost predicate Licensed(s: Snapshot, b: Citation, x: Cpe, p: Packet, f: Final, a: Assessment) {
    && x in s.cpes && p in s.packets && f in s.finals && a in s.assessments
    && x.cpeId == b.cpeId && x.claimId == b.claimId && x.paperId == b.paperId
    && p.claimId == f.claimId == a.claimId == b.claimId && x.cpeId in p.cpeIds
    && f.status.Valid? && p.finalText == f.text && !a.decision.Reject?
    && (exists r :: r in f.relations && r.cpeId == x.cpeId && r.paperId == b.paperId)
    && (exists y :: y in s.papers && y.paperId == b.paperId)
  }

  lemma LookUp<T(!new)>(xs: seq<T>, key: T -> string, id: string) returns (x: T)
    requires id in ById(xs, key)
    ensures x in xs && key(x) == id && x == ById(xs, key)[id]
  {
    ByIdMember(xs, key, id);
    x := ById(xs, key)[id];
  }

  lemma EvidenceIsGrounded(s: Snapshot, hash: ClaimHash, e: Evidence) returns (x: RetrievedSpan, q: RetrievalQuery, c: Claim)
    requires RetrievalClean(s, hash) && EvidenceClean(s) && e in s.evidence
    ensures Grounded(s, hash, e, x, q, c)
  {
    hide ById, UniqueIds, QueryKeyOk, SolelyAssessed, OneDisposition, SpanEvidenceOk, DispositionOk, CanonicalEdges;
    assert EvidenceOk(e, ById(s.claims, ClaimIdOf), ById(s.queries, QueryIdOf), ById(s.spans, SpanIdOf), s.dispositions);
    x := LookUp(s.spans, SpanIdOf, e.spanId);
    q := LookUp(s.queries, QueryIdOf, x.queryId);
    assert QueryOk(q, ById(s.claims, ClaimIdOf), hash);
    c := LookUp(s.claims, ClaimIdOf, q.claimId);
    assert SpanOk(x, ById(s.queries, QueryIdOf), ById(s.papers, PaperIdOf));
  }

  /** Every record that an aggregate lists belongs to the aggregate's claim and paper. */
  lemma ListedRecord(s: Snapshot, x: Cpe, id: string) returns (e: Evidence)
    requires AggregatesClean(s) && x in s.cpes && id in x.evidenceIds
    ensures e in s.evidence && e.evidenceId == id && e.claimId == x.claimId && e.paperId == x.paperId
    ensures id in ById(s.evidence, EvidenceIdOf) && e == ById(s.evidence, EvidenceIdOf)[id]
  {
    hide ById, UniqueIds, NoRepeats;
    var evidence := ById(s.evidence, EvidenceIdOf);
    assert CpeOk(x, ById(s.claims, ClaimIdOf), ById(s.papers, PaperIdOf), evidence);
    assert id in ToSet(x.components.Grouped());
    var r := RelationListing(x.components, id);
    assert GroupOk(r, x, evidence);
    assert MemberOk(id, r, x, evidence);
    e := LookUp(s.evidence, EvidenceIdOf, id);
  }

  lemma RelationListing(k: Components, id: string) returns (r: Relation)
    requires id in k.Grouped()
    ensures id in k.Group(r)
  {
    r := if id in k.supports then Supports else if id in k.contradicts then Contradicts
         else if id in k.qualifies then Qualifies else if id in k.contextual then Contextual else Unclear;
  }

  lemma CitationIsLicensed(s: Snapshot, p: Proposition, b: Citation) returns (x: Cpe, k: Packet, f: Final, a: Assessment)
    requires AggregatesClean(s) && ClaimsClean(s) && PropositionsClean(s)
    requires p in s.propositions && p.contentClass.ScientificClaim? && b in p.citations
    ensures Licensed(s, b, x, k, f, a)
  {
    hide ById, UniqueIds, NoRepeats, FinalOk, PartitionOk, GroupOk, OneAudit, AuditOk;
    assert PropositionOk(p, s);
    assert b.claimId in CitedClaims(p.citations);
    assert b.claimId in p.claimIds;
    assert CitationOk(b, ById(s.cpes, CpeIdOf), ById(s.packets, PacketClaimOf));
    x := LookUp(s.cpes, CpeIdOf, b.cpeId);
    k := LookUp(s.packets, PacketClaimOf, b.claimId);
    assert PacketOk(k, s);
    f := LookUp(s.finals, FinalClaimOf, b.claimId);
    a := LookUp(s.assessments, AssessedClaimOf, b.claimId);
    FinalListsCitation(s, x, k, f);
    assert CpeOk(x, ById(s.claims, ClaimIdOf), ById(s.papers, PaperIdOf), ById(s.evidence, EvidenceIdOf));
    var y := LookUp(s.papers, PaperIdOf, x.paperId);
  }

  /** The final validation relates the cited paper to the final claim. */
  lemma FinalListsCitation(s: Snapshot, x: Cpe, k: Packet, f: Final)
    requires ClaimsClean(s) && k in s.packets && f in s.finals && f == ById(s.finals, FinalClaimOf)[k.claimId]
    requires k.claimId in ById(s.finals, FinalClaimOf)
    requires x.cpeId in k.cpeIds && x.cpeId in ById(s.cpes, CpeIdOf) && x == ById(s.cpes, CpeIdOf)[x.cpeId]
    ensures exists r :: r in f.relations && r.cpeId == x.cpeId && r.paperId == x.paperId
  {
    hide ById, UniqueIds, NoRepeats;
    assert PacketOk(k, s);
    assert x.cpeId in ToSet(RelationIds(f));
    var i :| 0 <= i < |f.relations| && RelationIds(f)[i] == x.cpeId;
    assert FinalOk(f, ById(s.cpes, CpeIdOf));
    assert RelationOk(f.relations[i], f, ById(s.cpes, CpeIdOf));
  }

  /** A citation with everything it rests on. */
  ghost predicate CitationGrounded(s: Snapshot, hash: ClaimHash, b: Citation) {
    exists x, k, f, a :: Licensed(s, b, x, k, f, a) && x.evidenceIds != []
      && forall id :: id in x.evidenceIds ==> RecordGrounded(s, hash, id, b)
  }

  ghost predicate RecordGrounded(s: Snapshot, hash: ClaimHash, id: string, b: Citation) {
    exists e, x, q, c :: Grounded(s, hash, e, x, q, c) && e.evidenceId == id && e.claimId == b.claimId && e.paperId == b.paperId
  }

  /** A sentence is built from audited statements; scientific ones cite grounded passages for each claim. */
  ghost predicate SentenceGrounded(s: Snapshot, hash: ClaimHash, x: Sentence) {
    && x.propositionIds != []
    && forall id :: id in x.propositionIds ==> StatementGrounded(s, hash, id)
  }

  ghost predicate StatementGrounded(s: Snapshot, hash: ClaimHash, id: string) {
    exists p :: p in s.propositions && p.propositionId == id && SolelyPassing(s.audits, id)
      && (p.contentClass.ScientificClaim? ==> ClaimsCited(p) && forall b :: b in p.citations ==> CitationGrounded(s, hash, b))
  }

  ghost predicate ClaimsCited(p: Proposition) {
    p.claimIds != [] && forall id :: id in p.claimIds ==> exists b :: b in p.citations && b.claimId == id
  }

  lemma CitationHolds(s: Snapshot, hash: ClaimHash, p: Proposition, b: Citation)
    requires RetrievalClean(s, hash) && EvidenceClean(s) && AggregatesClean(s) && ClaimsClean(s) && PropositionsClean(s)
    requires SchemaOk(s) && p in s.propositions && p.contentClass.ScientificClaim? && b in p.citations
    ensures CitationGrounded(s, hash, b)
  {
    hide RetrievalClean, EvidenceClean, AggregatesClean, ClaimsClean, PropositionsClean, Grounded;
    var x, k, f, a := CitationIsLicensed(s, p, b);
    forall id | id in x.evidenceIds ensures RecordGrounded(s, hash, id, b) {
      var e := ListedRecord(s, x, id);
      var span, q, c := EvidenceIsGrounded(s, hash, e);
      assert Grounded(s, hash, e, span, q, c) && e.evidenceId == id && e.claimId == b.claimId && e.paperId == b.paperId;
    }
    assert Licensed(s, b, x, k, f, a) && x.evidenceIds != [];
  }

  /** When no check finds an error, every rendered sentence is grounded. */
  lemma RenderedSentencesAreGrounded(s: Snapshot, hash: ClaimHash, x: Sentence)
    requires RepositoryClean(s, hash) && SchemaOk(s) && x in s.sentences
    ensures SentenceGrounded(s, hash, x)
  {
    hide RetrievalClean, EvidenceClean, AggregatesClean, ClaimsClean, CitationGrounded, SolelyPassing, ById, UniqueIds;
    forall id | id in x.propositionIds ensures StatementGrounded(s, hash, id) {
      assert SentenceOk(x, ById(s.propositions, PropositionIdOf), s.audits);
      assert SourceOk(id, ById(s.propositions, PropositionIdOf), s.audits);
      var p := LookUp(s.propositions, PropositionIdOf, id);
      if p.contentClass.ScientificClaim? {
        assert PropositionOk(p, s);
        EveryClaimCited(p);
        forall b | b in p.citations ensures CitationGrounded(s, hash, b) {
          CitationHolds(s, hash, p, b);
        }
      }
    }
  }

  lemma EveryClaimCited(p: Proposition)
    requires p.claimIds != [] && CitedClaims(p.citations) == ToSet(p.claimIds)
    ensures ClaimsCited(p)
  {
    forall id | id in p.claimIds ensures exists b :: b in p.citations && b.claimId == id {
      assert id in CitedClaims(p.citations);
    }
  }

  // ---------------------------------------------------------------- nothing is dropped

  /** The evidence under the aggregates that a packet names. */
  ghost function PacketEvidence(s: Snapshot, p: Packet): set<string> {
    set x, id | x in s.cpes && x.cpeId in p.cpeIds && id in x.evidenceIds :: id
  }

  ghost function ClaimEvidence(s: Snapshot, claimId: string): set<string> {
    set e | e in s.evidence && e.claimId == claimId :: e.evidenceId
  }

  lemma PacketAggregate(s: Snapshot, p: Packet, x: Cpe)
    requires ClaimsClean(s) && p in s.packets && x in s.cpes
    ensures x.cpeId in p.cpeIds <==> x.claimId == p.claimId
  {
    hide ById, UniqueIds, NoRepeats;
    assert PacketOk(p, s);
    ByIdFinds(s.cpes, CpeIdOf, x);
    if x.cpeId in p.cpeIds {
      assert ById(s.cpes, CpeIdOf)[x.cpeId].claimId == p.claimId;
    }
    if x.claimId == p.claimId {
      assert x.cpeId in CpesOfClaim(s.cpes, p.claimId);
      assert x.cpeId in ToSet(p.cpeIds);
    }
  }

  /** A packet carries exactly the evidence records of its claim. */
  lemma PacketHoldsAllEvidence(s: Snapshot, p: Packet)
    requires AggregatesClean(s) && ClaimsClean(s) && ClosureClean(s) && p in s.packets
    ensures PacketEvidence(s, p) == ClaimEvidence(s, p.claimId)
  {
    hide AggregatesClean, ClaimsClean;
    forall id | id in PacketEvidence(s, p) ensures id in ClaimEvidence(s, p.claimId) {
      var x :| x in s.cpes && x.cpeId in p.cpeIds && id in x.evidenceIds;
      PacketAggregate(s, p, x);
      var e := ListedRecord(s, x, id);
    }
    forall id | id in ClaimEvidence(s, p.claimId) ensures id in PacketEvidence(s, p) {
      var e :| e in s.evidence && e.claimId == p.claimId && e.evidenceId == id;
      assert e.claimId in PacketClaims(s.packets);
      var x :| x in s.cpes && id in x.evidenceIds;
      var listed := ListedRecord(s, x, id);
      EvidenceFound(s, e);
      PacketAggregate(s, p, x);
    }
  }

  lemma EvidenceFound(s: Snapshot, e: Evidence)
    requires AggregatesClean(s) && e in s.evidence
    ensures e.evidenceId in ById(s.evidence, EvidenceIdOf) && ById(s.evidence, EvidenceIdOf)[e.evidenceId] == e
  {
    hide CpeOk, ById;
    ByIdFinds(s.evidence, EvidenceIdOf, e);
  }

  /** Whatever its stance, each assessed passage that was retrieved for the claim of a packet has exactly one
      record for that claim, and the packet carries it. */
  lemma AssessedPassageIsIncluded(s: Snapshot, hash: ClaimHash, p: Packet, x: RetrievedSpan, q: RetrievalQuery)
    returns (e: Evidence)
    requires RepositoryClean(s, hash) && p in s.packets
    requires x in s.spans && SolelyAssessed(s.dispositions, x.spanId)
    requires q in s.queries && q.queryId == x.queryId && q.claimId == p.claimId
    ensures e in s.evidence && e.spanId == x.spanId && e.claimId == p.claimId
    ensures e.evidenceId in PacketEvidence(s, p)
    ensures forall other :: other in s.evidence && other.spanId == x.spanId && other.claimId == p.claimId ==> other == e
  {
    hide IdentityClean, ThemesClean, ReferencesClean, RetrievalClean, AggregatesClean, ClaimsClean, PropositionsClean, ProseClean,
      ById, Matching, UniqueIds, EvidenceOk;
    ByIdFinds(s.queries, QueryIdOf, q);
    var records := Matching(s.evidence, EvidenceSpanOf, x.spanId);
    var relevant := Relevant(records, x, ById(s.queries, QueryIdOf));
    assert SpanEvidenceOk(x, ById(s.queries, QueryIdOf), s.dispositions, s.evidence);
    assert |relevant| == 1;
    e := relevant[0];
    MatchingMember(records, EvidenceClaimOf, p.claimId, e);
    MatchingMember(s.evidence, EvidenceSpanOf, x.spanId, e);
    forall other | other in s.evidence && other.spanId == x.spanId && other.claimId == p.claimId ensures other == e {
      MatchingMember(s.evidence, EvidenceSpanOf, x.spanId, other);
      MatchingMember(records, EvidenceClaimOf, p.claimId, other);
    }
    PacketHoldsAllEvidence(s, p);
    assert e.evidenceId in ClaimEvidence(s, p.claimId);
  }
}
