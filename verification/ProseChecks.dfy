/** Propositions, their audits and the sentences rendered from them (validators.py). */
module ProseChecks {
  import opened Basics
  import opened Collecting
  import opened Lookup
  import opened Ordering
  import opened Snapshots

  // ---------------------------------------------------------------- propositions

  predicate CitationOk(b: Citation, cpes: map<string, Cpe>, packets: map<string, Packet>) {
    && b.cpeId in cpes && b.claimId == cpes[b.cpeId].claimId && b.paperId == cpes[b.cpeId].paperId
    && (b.claimId in packets ==> b.cpeId in packets[b.claimId].cpeIds)
  }

  function CitedClaims(citations: seq<Citation>): set<string> {
    set b | b in citations :: b.claimId
  }

  ghost predicate AllIn<T>(ids: seq<string>, known: map<string, T>) {
    forall id :: id in ids ==> id in known
  }

  ghost predicate PropositionOk(p: Proposition, s: Snapshot) {
    var packets := ById(s.packets, PacketClaimOf);
    && AllIn(p.claimIds, packets) && AllIn(p.corpusFactIds, ById(s.corpusFacts, CorpusFactIdOf))
    && AllIn(p.processFactIds, ById(s.processFacts, ProcessFactIdOf))
    && (forall b :: b in p.citations ==> CitationOk(b, ById(s.cpes, CpeIdOf), packets))
    && (p.contentClass.ScientificClaim? ==> CitedClaims(p.citations) == ToSet(p.claimIds))
  }

  ghost predicate AuditOk(a: Audit, propositions: map<string, Proposition>) {
    && a.targetId in propositions
    && var p := propositions[a.targetId];
       && ToSet(a.claimIds) == ToSet(p.claimIds) && ToSet(a.corpusFactIds) == ToSet(p.corpusFactIds)
       && ToSet(a.processFactIds) == ToSet(p.processFactIds)
  }

  ghost predicate OneAudit(p: Proposition, audits: seq<Audit>) {
    |Matching(audits, AuditTargetOf, p.propositionId)| == 1
  }

  ghost predicate PropositionsClean(s: Snapshot) {
    && UniqueIds(s.packets, PacketClaimOf) && UniqueIds(s.cpes, CpeIdOf)
    && UniqueIds(s.corpusFacts, CorpusFactIdOf) && UniqueIds(s.processFacts, ProcessFactIdOf)
    && UniqueIds(s.propositions, PropositionIdOf) && UniqueIds(s.audits, AuditIdOf)
    && (forall p :: p in s.propositions ==> PropositionOk(p, s))
    && (forall a :: a in s.audits ==> AuditOk(a, ById(s.propositions, PropositionIdOf)))
    && (forall p :: p in s.propositions ==> OneAudit(p, s.audits))
  }

  method CheckKnown<T>(ids: seq<string>, known: map<string, T>, here: Place, c: Collector)
    modifies c
    ensures c.Ok() <==> old(c.Ok()) && AllIn(ids, known)
  {
    hide Collector.Ok;
    var i := 0;
    while i < |ids|
      invariant 0 <= i <= |ids|
      invariant c.Ok() <==> old(c.Ok()) && forall k :: 0 <= k < i ==> ids[k] in known
    {
      if ids[i] !in known {
        c.AddError(InvalidReference, here);
      }
      i := i + 1;
    }
  }

  method CheckCitations(citations: seq<Citation>, cpes: map<string, Cpe>, packets: map<string, Packet>, here: Place,
                        c: Collector)
    modifies c
    ensures c.Ok() <==> old(c.Ok()) && forall b :: b in citations ==> CitationOk(b, cpes, packets)
  {
    hide Collector.Ok;
    var i := 0;
    while i < |citations|
      invariant 0 <= i <= |citations|
      invariant c.Ok() <==> old(c.Ok()) && forall k :: 0 <= k < i ==> CitationOk(citations[k], cpes, packets)
    {
      var b := citations[i];
      i := i + 1;
      if b.cpeId !in cpes {
        c.AddError(InvalidReference, here);
        continue;
      }
      if b.claimId != cpes[b.cpeId].claimId {
        c.AddError(CitationBindingClaimMismatch, here);
      }
      if b.paperId != cpes[b.cpeId].paperId {
        c.AddError(CitationBindingPaperMismatch, here);
      }
      if b.claimId in packets && b.cpeId !in packets[b.claimId].cpeIds {
        c.AddError(CitationBindingUnlicensedCpe, here);
      }
    }
  }

  method CheckPropositions(s: Snapshot, packets: map<string, Packet>, cpes: map<string, Cpe>,
                           corpus: map<string, CorpusFact>, process: map<string, ProcessFact>, c: Collector)
    requires packets == ById(s.packets, PacketClaimOf) && cpes == ById(s.cpes, CpeIdOf)
    requires corpus == ById(s.corpusFacts, CorpusFactIdOf) && process == ById(s.processFacts, ProcessFactIdOf)
    modifies c
    ensures c.Ok() <==> old(c.Ok()) && forall p :: p in s.propositions ==> PropositionOk(p, s)
  {
    hide Collector.Ok, ById, AllIn, CitationOk, CitedClaims, ToSet;
    var position := 0;
    while position < |s.propositions|
      invariant 0 <= position <= |s.propositions|
      invariant c.Ok() <==> old(c.Ok()) && forall k :: 0 <= k < position ==> PropositionOk(s.propositions[k], s)
    {
      var p, here := s.propositions[position], At(Propositions, position);
      CheckKnown(p.claimIds, packets, here, c);
      CheckKnown(p.corpusFactIds, corpus, here, c);
      CheckKnown(p.processFactIds, process, here, c);
      CheckCitations(p.citations, cpes, packets, here, c);
      if p.contentClass.ScientificClaim? && CitedClaims(p.citations) != ToSet(p.claimIds) {
        c.AddError(ScientificClaimCitationCoverage, here);
      }
      position := position + 1;
    }
  }

  method CheckAudits(audits: seq<Audit>, propositions: map<string, Proposition>, c: Collector)
    returns (byTarget: map<string, seq<Audit>>)
    modifies c
    ensures c.Ok() <==> old(c.Ok()) && forall a :: a in audits ==> AuditOk(a, propositions)
    ensures Groups(byTarget, audits, AuditTargetOf)
  {
    hide Collector.Ok, Groups, ToSet;
    byTarget := map[];
    NothingGrouped(audits, AuditTargetOf);
    var position := 0;
    while position < |audits|
      invariant 0 <= position <= |audits|
      invariant c.Ok() <==> old(c.Ok()) && forall k :: 0 <= k < position ==> AuditOk(audits[k], propositions)
      invariant Groups(byTarget, audits[..position], AuditTargetOf)
    {
      var a := audits[position];
      GroupsSnoc(byTarget, audits, position, AuditTargetOf);
      byTarget := Append(byTarget, a.targetId, a);
      if a.targetId !in propositions {
        c.AddError(InvalidReference, At(Audits, position));
      } else {
        var p := propositions[a.targetId];
        if ToSet(a.claimIds) != ToSet(p.claimIds) || ToSet(a.corpusFactIds) != ToSet(p.corpusFactIds)
           || ToSet(a.processFactIds) != ToSet(p.processFactIds) {
          c.AddError(SemanticAuditIncompleteProvenance, At(Audits, position));
        }
      }
      position := position + 1;
    }
    assert audits[..position] == audits;
  }

  /** `_collect_proposition_bundle`. */
  method CollectPropositions(s: Snapshot, c: Collector)
    modifies c
    ensures c.Ok() <==> old(c.Ok()) && PropositionsClean(s)
  {
    hide Collector.Ok, UniqueIds, ById, PropositionOk, AuditOk, Groups, Matching;
    var _, packets := Index(s.packets, PacketClaimOf, Packets, c);
    var _, cpes := Index(s.cpes, CpeIdOf, Cpes, c);
    var _, corpus := Index(s.corpusFacts, CorpusFactIdOf, CorpusFacts, c);
    var _, process := Index(s.processFacts, ProcessFactIdOf, ProcessFacts, c);
    var ids, propositions := Index(s.propositions, PropositionIdOf, Propositions, c);
    var _, _ := Index(s.audits, AuditIdOf, Audits, c);
    CheckPropositions(s, packets, cpes, corpus, process, c);
    var byTarget := CheckAudits(s.audits, propositions, c);
    CheckOneEach(ids, byTarget, Propositions, c);
    OneEach(ids, s.propositions, PropositionIdOf, byTarget, s.audits, AuditTargetOf);
  }

  // ---------------------------------------------------------------- rendered prose

  datatype AuditDisposition = Pass | Repair | RepairBlocking | HumanReview

  /** `derive_semantic_audit_disposition`. */
  function DeriveDisposition(a: Audit): (d: AuditDisposition)
    ensures d.Pass? <==> AuditPasses(a)
    ensures d.HumanReview? <==> a.classVerdict.UnclearClass? || a.provenanceVerdict.UnclearProvenance?
    ensures d.Repair? <==> a.classVerdict.Correct? && a.provenanceVerdict.PartiallySupported?
  {
    if a.classVerdict.UnclearClass? || a.provenanceVerdict.UnclearProvenance? then HumanReview
    else if a.classVerdict.Misclassified? then RepairBlocking
    else if a.provenanceVerdict.Overstated? || a.provenanceVerdict.Unsupported? then RepairBlocking
    else if a.provenanceVerdict.PartiallySupported? then Repair
    else Pass
  }

  ghost predicate SolelyPassing(audits: seq<Audit>, propositionId: string) {
    var found := Matching(audits, AuditTargetOf, propositionId);
    |found| == 1 && AuditPasses(found[0])
  }

  ghost predicate SourceOk(id: string, propositions: map<string, Proposition>, audits: seq<Audit>) {
    id in propositions && SolelyPassing(audits, id)
  }

  ghost predicate SentenceOk(x: Sentence, propositions: map<string, Proposition>, audits: seq<Audit>) {
    forall id :: id in x.propositionIds ==> SourceOk(id, propositions, audits)
  }

  predicate SentenceAuditOk(a: SentenceAudit, sentences: map<string, Sentence>) {
    a.sentenceId in sentences && a.verdict.Entailed?
  }

  ghost predicate OneSentenceAudit(x: Sentence, audits: seq<SentenceAudit>) {
    |Matching(audits, AuditedSentenceOf, x.sentenceId)| == 1
  }

  ghost predicate ProseClean(s: Snapshot) {
    && UniqueIds(s.propositions, PropositionIdOf) && UniqueIds(s.sentences, SentenceIdOf)
    && UniqueIds(s.sentenceAudits, SentenceAuditIdOf)
    && (forall x :: x in s.sentences ==> SentenceOk(x, ById(s.propositions, PropositionIdOf), s.audits))
    && (forall a :: a in s.sentenceAudits ==> SentenceAuditOk(a, ById(s.sentences, SentenceIdOf)))
    && (forall x :: x in s.sentences ==> OneSentenceAudit(x, s.sentenceAudits))
  }

  method CheckSentence(x: Sentence, propositions: map<string, Proposition>, byTarget: map<string, seq<Audit>>,
                       ghost audits: seq<Audit>, position: nat, c: Collector)
    requires Groups(byTarget, audits, AuditTargetOf)
    modifies c
    ensures c.Ok() <==> old(c.Ok()) && SentenceOk(x, propositions, audits)
  {
    hide Collector.Ok, Matching;
    var i := 0;
    while i < |x.propositionIds|
      invariant 0 <= i <= |x.propositionIds|
      invariant c.Ok() <==> old(c.Ok()) && forall k :: 0 <= k < i ==> SourceOk(x.propositionIds[k], propositions, audits)
    {
      var id := x.propositionIds[i];
      i := i + 1;
      if id !in propositions {
        c.AddError(InvalidReference, At(Sentences, position));
        continue;
      }
      var found := Group(byTarget, id);
      if |found| != 1 || DeriveDisposition(found[0]) != Pass {
        c.AddError(RenderedFromNonpassingProposition, At(Sentences, position));
      }
    }
  }

  method CheckSentences(s: Snapshot, propositions: map<string, Proposition>, byTarget: map<string, seq<Audit>>, c: Collector)
    requires Groups(byTarget, s.audits, AuditTargetOf)
    modifies c
    ensures c.Ok() <==> old(c.Ok()) && forall x :: x in s.sentences ==> SentenceOk(x, propositions, s.audits)
  {
    hide Collector.Ok, SentenceOk, Groups;
    var position := 0;
    while position < |s.sentences|
      invariant 0 <= position <= |s.sentences|
      invariant c.Ok() <==> old(c.Ok()) && forall k :: 0 <= k < position ==> SentenceOk(s.sentences[k], propositions, s.audits)
    {
      CheckSentence(s.sentences[position], propositions, byTarget, s.audits, position, c);
      position := position + 1;
    }
  }

  method CheckSentenceAudits(audits: seq<SentenceAudit>, sentences: map<string, Sentence>, c: Collector)
    returns (bySentence: map<string, seq<SentenceAudit>>)
    modifies c
    ensures c.Ok() <==> old(c.Ok()) && forall a :: a in audits ==> SentenceAuditOk(a, sentences)
    ensures Groups(bySentence, audits, AuditedSentenceOf)
  {
    hide Collector.Ok, Groups;
    bySentence := map[];
    NothingGrouped(audits, AuditedSentenceOf);
    var position := 0;
    while position < |audits|
      invariant 0 <= position <= |audits|
      invariant c.Ok() <==> old(c.Ok()) && forall k :: 0 <= k < position ==> SentenceAuditOk(audits[k], sentences)
      invariant Groups(bySentence, audits[..position], AuditedSentenceOf)
    {
      var a := audits[position];
      GroupsSnoc(bySentence, audits, position, AuditedSentenceOf);
      bySentence := Append(bySentence, a.sentenceId, a);
      if a.sentenceId !in sentences {
        c.AddError(InvalidReference, At(SentenceAudits, position));
      }
      if !a.verdict.Entailed? {
        c.AddError(RenderedSentenceNotEntailed, At(SentenceAudits, position));
      }
      position := position + 1;
    }
    assert audits[..position] == audits;
  }

  /** `_collect_rendered_prose_bundle`. */
  method CollectProse(s: Snapshot, c: Collector)
    modifies c
    ensures c.Ok() <==> old(c.Ok()) && ProseClean(s)
  {
    hide Collector.Ok, UniqueIds, ById, SentenceOk, SentenceAuditOk, Groups, Matching;
    var _, propositions := Index(s.propositions, PropositionIdOf, Propositions, c);
    var ids, sentences := Index(s.sentences, SentenceIdOf, Sentences, c);
    var _, _ := Index(s.sentenceAudits, SentenceAuditIdOf, SentenceAudits, c);
    var byTarget := GroupBy(s.audits, AuditTargetOf);
    CheckSentences(s, propositions, byTarget, c);
    var bySentence := CheckSentenceAudits(s.sentenceAudits, sentences, c);
    CheckOneEach(ids, bySentence, Sentences, c);
    OneEach(ids, s.sentences, SentenceIdOf, bySentence, s.sentenceAudits, AuditedSentenceOf);
  }
}
