/** An import changes nothing but the Papers, so a repository without errors stays without errors. */
module ImportValidity {
  import opened ClaimChecks
  import opened CorpusImport
  import opened Cycles
  import opened Lookup
  import opened ProseChecks
  import opened RegistryChecks
  import opened RetrievalChecks
  import opened Snapshots
  import opened Validators

  lemma PapersStillFound(before: seq<Paper>, now: seq<Paper>, touched: seq<string>)
    requires NothingLost(before, now, touched)
    ensures forall id :: id in ById(before, PaperIdOf) ==> id in ById(now, PaperIdOf)
  {
    hide ById;
    forall id | id in ById(before, PaperIdOf) ensures id in ById(now, PaperIdOf) {
      ByIdMember(before, PaperIdOf, id);
      var p := ById(before, PaperIdOf)[id];
      var q :| q in now && Continues(p, q);
      ByIdHas(now, PaperIdOf, q);
    }
  }

  lemma RetrievalStaysClean(s: Snapshot, hash: ClaimHash, now: seq<Paper>)
    requires RetrievalClean(s, hash) && UniqueIds(now, PaperIdOf)
    requires forall id :: id in ById(s.papers, PaperIdOf) ==> id in ById(now, PaperIdOf)
    ensures RetrievalClean(s.(papers := now), hash)
  {
    hide ById, UniqueIds, QueryOk, DispositionOk, OneDisposition, WellFounded, CanonicalEdges;
    forall x | x in s.spans ensures SpanOk(x, ById(s.queries, QueryIdOf), ById(now, PaperIdOf)) {
      assert SpanOk(x, ById(s.queries, QueryIdOf), ById(s.papers, PaperIdOf));
    }
  }

  lemma AggregatesStayClean(s: Snapshot, now: seq<Paper>)
    requires AggregatesClean(s) && UniqueIds(now, PaperIdOf)
    requires forall id :: id in ById(s.papers, PaperIdOf) ==> id in ById(now, PaperIdOf)
    ensures AggregatesClean(s.(papers := now))
  {
    hide ById, UniqueIds, PartitionOk, GroupOk;
    forall x | x in s.cpes
      ensures CpeOk(x, ById(s.claims, ClaimIdOf), ById(now, PaperIdOf), ById(s.evidence, EvidenceIdOf))
    {
      assert CpeOk(x, ById(s.claims, ClaimIdOf), ById(s.papers, PaperIdOf), ById(s.evidence, EvidenceIdOf));
    }
  }

  lemma OthersStayClean(s: Snapshot, now: seq<Paper>)
    requires ReferencesClean(s) && EvidenceClean(s) && ClaimsClean(s) && ClosureClean(s) && PropositionsClean(s) && ProseClean(s)
    requires forall id :: id in ById(s.papers, PaperIdOf) ==> id in ById(now, PaperIdOf)
    ensures var t := s.(papers := now);
            ReferencesClean(t) && EvidenceClean(t) && ClaimsClean(t) && ClosureClean(t) && PropositionsClean(t) && ProseClean(t)
  {
    hide ById, UniqueIds, FinalOk, PacketFinalOk, PacketCpesOk, AuditOk, OneAudit, SentenceOk, SentenceAuditOk, OneSentenceAudit,
      AllIn, CitationOk, CitedClaims, EvidenceOk, SpanEvidenceOk;
    var t := s.(papers := now);
    forall p | p in s.packets ensures PacketOk(p, t) {
      assert PacketOk(p, s);
    }
    forall p | p in s.propositions ensures PropositionOk(p, t) {
      assert PropositionOk(p, s);
    }
  }

  /** The commit that follows an import never fails its validation. */
  lemma ImportKeepsClean(s: Snapshot, hash: ClaimHash, now: seq<Paper>, touched: seq<string>)
    requires RepositoryClean(s, hash) && IdentityClean(now) && NothingLost(s.papers, now, touched)
    ensures RepositoryClean(s.(papers := now), hash)
  {
    hide ThemesClean, ReferencesClean, RetrievalClean, EvidenceClean, AggregatesClean, ClaimsClean, ClosureClean,
      PropositionsClean, ProseClean, ById, SoleOwners, RelatedExist, NothingLost;
    PapersStillFound(s.papers, now, touched);
    RetrievalStaysClean(s, hash, now);
    AggregatesStayClean(s, now);
    OthersStayClean(s, now);
  }
}
