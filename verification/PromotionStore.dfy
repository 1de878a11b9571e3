/** Committing promotions to the generation store (library/retrieval_promotion.py, runtime/repository.py). */
module PromotionStore {
  import opened Basics
  import opened Collecting
  import opened Lookup
  import opened PromotionBuild
  import opened PromotionRequests
  import opened PromotionRuns
  import opened PromotionValidity
  import opened Registry
  import opened RetrievalBackends
  import opened RetrievalChecks
  import opened RetrievalHits
  import opened RetrievalLedger
  import opened Snapshots
  import opened Validators

  datatype CommitError = StaleSnapshot | Refused(error: PromotionError) | StagedInvalid(issues: seq<Issue>)

  /** The identifiers in use that the registry's counters must cover. */
  ghost predicate RegistryCovers(s: Snapshot, spanCounter: nat, evidenceCounter: nat) {
    && Covers('R', spanCounter, ById(s.spans, SpanIdOf).Keys)
    && Covers('E', evidenceCounter, ById(s.evidence, EvidenceIdOf).Keys)
  }

  lemma CoversFewer(prefix: char, counter: nat, ids: set<string>, more: set<string>)
    requires Covers(prefix, counter, more) && ids <= more
    ensures Covers(prefix, counter, ids)
  {
  }

  lemma {:induction false} ByIdKeySet<T(!new)>(xs: seq<T>, key: T -> string, ids: seq<string>)
    requires forall x :: x in xs ==> key(x) in ids
    ensures forall id :: id in ById(xs, key) ==> id in ids
  {
    forall id | id in ById(xs, key) ensures id in ids {
      ByIdMember(xs, key, id);
    }
  }

  lemma {:induction false} EvidenceIdsUsed(chosen: seq<Chosen>, spanIds: seq<string>, evidenceIds: seq<string>, q: RetrievalQuery)
    requires PairsOk(chosen) && IdsFit(chosen, spanIds, evidenceIds)
    ensures forall e :: e in NewEvidence(chosen, spanIds, evidenceIds, q) ==> e.evidenceId in evidenceIds
  {
    hide NewEvidence, AssessedCount, Located, DecisionModelOk;
    var es := NewEvidence(chosen, spanIds, evidenceIds, q);
    forall e | e in es ensures e.evidenceId in evidenceIds {
      var k :| 0 <= k < |es| && es[k] == e;
      var i := NewEvidenceIndexed(chosen, spanIds, evidenceIds, q, k);
    }
  }

  /** What authentication says about one candidate. */
  lemma AuthenticHit(st: Setting, l: Ledger, x: Replay, terms: seq<string>, s: Snapshot, c: LockedCorpus, q: RetrievalQuery, h: Hit)
    requires LedgerOk(l) && (forall k :: k in l.rawHits ==> HitOk(st.digest, k))
    requires LedgerAuthentic(st, l, x, q, terms, s, c) && h in l.rawHits
    ensures h.queryId == l.queryId && h.intent == q.intent && h.paperId in ById(s.papers, PaperIdOf)
    ensures Matching(s.queries, QueryIdOf, l.queryId) == [q]
  {
    LedgerHitQuery(l, h);
    hide LedgerOk, HitOk, ExactIn, ById, Matching, Replayed;
  }

  /** What authentication says about the chosen candidates. */
  lemma ChosenFromQuery(st: Setting, r: Request, x: Replay, terms: seq<string>, s: Snapshot, c: LockedCorpus,
                        q: RetrievalQuery)
    requires RequestModelOk(st.digest, r) && LedgerAuthentic(st, r.ledger, x, q, terms, s, c)
    ensures KeysKnown(r.ledger.selectedKeys, ValidHits(r.ledger), ById(r.decisions, DecisionKeyOf))
    ensures PairsOk(RequestPairs(r)) && FromQuery(RequestPairs(r), s, q) && q in s.queries
  {
    hide HitOk, ById, DecisionModelOk, LedgerOk, Matching, ValidHits, RequestPairs, Located, LedgerAuthentic;
    SelectedKnown(st.digest, r);
    forall p | p in RequestPairs(r)
      ensures p.hit.queryId == q.queryId && p.hit.intent == q.intent && p.hit.paperId in ById(s.papers, PaperIdOf)
    {
      AuthenticHit(st, r.ledger, x, terms, s, c, q, p.hit);
      MatchedQuery(s, r.ledger.queryId, q);
    }
    AuthenticQuery(st, r.ledger, x, terms, s, c, q);
    MatchedQuery(s, r.ledger.queryId, q);
  }

  lemma MatchedQuery(s: Snapshot, id: string, q: RetrievalQuery)
    requires Matching(s.queries, QueryIdOf, id) == [q]
    ensures q in s.queries && q.queryId == id
  {
    hide Matching;
    assert q in Matching(s.queries, QueryIdOf, id);
    MatchingMember(s.queries, QueryIdOf, id, q);
  }

  lemma AuthenticQuery(st: Setting, l: Ledger, x: Replay, terms: seq<string>, s: Snapshot, c: LockedCorpus, q: RetrievalQuery)
    requires LedgerOk(l) && (forall k :: k in l.rawHits ==> HitOk(st.digest, k))
    requires LedgerAuthentic(st, l, x, q, terms, s, c)
    ensures Matching(s.queries, QueryIdOf, l.queryId) == [q]
  {
    hide LedgerOk, HitOk, HitAuthentic, ById, Matching, Replayed;
  }

  lemma LedgerHitQuery(l: Ledger, h: Hit)
    requires LedgerOk(l) && h in l.rawHits
    ensures h.queryId == l.queryId
  {
    hide CountsOk, ClassificationOk, OrderOk, FieldBounds;
  }

  lemma KeysAfter<T(!new)>(prefix: char, counter: nat, xs: seq<T>, ys: seq<T>, key: T -> string, ids: seq<string>)
    requires forall y :: y in ys ==> key(y) in ids && key(y) !in ById(xs, key)
    requires Covers(prefix, counter, ById(xs, key).Keys + set id | id in ids)
    ensures Covers(prefix, counter, ById(xs + ys, key).Keys)
  {
    hide ById, Covers;
    ByIdConcat(xs, ys, key);
    ByIdKeySet(ys, key, ids);
    CoversFewer(prefix, counter, ById(xs + ys, key).Keys, ById(xs, key).Keys + set id | id in ids);
  }

  lemma SpanKeysAfter(s: Snapshot, chosen: seq<Chosen>, counter: nat)
    requires PairsOk(chosen) && Covers('R', counter, ById(s.spans, SpanIdOf).Keys)
    ensures var spanIds := Allocate('R', counter, |chosen|);
            && FreshIds(spanIds, ById(s.spans, SpanIdOf).Keys)
            && Covers('R', counter + |chosen|, ById(s.spans + NewSpans(chosen, spanIds), SpanIdOf).Keys)
  {
    hide ById, Located, DecisionModelOk, Covers, Allocate;
    var spanIds := Allocate('R', counter, |chosen|);
    AllocatedFresh('R', counter, |chosen|, ById(s.spans, SpanIdOf).Keys);
    var spans := NewSpans(chosen, spanIds);
    forall x | x in spans ensures x.spanId in spanIds {
      var i :| 0 <= i < |spans| && spans[i] == x;
      assert spans[i].spanId == spanIds[i];
    }
    KeysAfter('R', counter + |chosen|, s.spans, spans, SpanIdOf, spanIds);
  }

  lemma EvidenceKeysAfter(s: Snapshot, chosen: seq<Chosen>, spanIds: seq<string>, q: RetrievalQuery, counter: nat)
    requires PairsOk(chosen) && |spanIds| == |chosen| && Covers('E', counter, ById(s.evidence, EvidenceIdOf).Keys)
    ensures var n := AssessedCount(chosen);
            var evidenceIds := Allocate('E', counter, n);
            && FreshIds(evidenceIds, ById(s.evidence, EvidenceIdOf).Keys)
            && Covers('E', counter + n, ById(s.evidence + NewEvidence(chosen, spanIds, evidenceIds, q), EvidenceIdOf).Keys)
  {
    hide ById, Located, DecisionModelOk, Covers, NewEvidence, AssessedCount;
    var n := AssessedCount(chosen);
    var evidenceIds := Allocate('E', counter, n);
    AllocatedFresh('E', counter, n, ById(s.evidence, EvidenceIdOf).Keys);
    EvidenceIdsUsed(chosen, spanIds, evidenceIds, q);
    KeysAfter('E', counter + n, s.evidence, NewEvidence(chosen, spanIds, evidenceIds, q), EvidenceIdOf, evidenceIds);
  }

  /** The new counters cover the identifiers of the promoted snapshot. */
  lemma PromotedCovered(s: Snapshot, chosen: seq<Chosen>, q: RetrievalQuery, spanCounter: nat, evidenceCounter: nat)
    requires RegistryCovers(s, spanCounter, evidenceCounter) && PairsOk(chosen)
    ensures var spanIds := Allocate('R', spanCounter, |chosen|);
            var evidenceIds := Allocate('E', evidenceCounter, AssessedCount(chosen));
            && FreshIds(spanIds, ById(s.spans, SpanIdOf).Keys) && FreshIds(evidenceIds, ById(s.evidence, EvidenceIdOf).Keys)
            && RegistryCovers(Promoted(s, chosen, spanIds, evidenceIds, q), spanCounter + |chosen|,
                              evidenceCounter + AssessedCount(chosen))
  {
    hide ById, NewEvidence, AssessedCount, PairsOk, Covers, FreshIds, Name, NewSpans, NewDispositions, Allocate, Promoted;
    var spanIds := Allocate('R', spanCounter, |chosen|);
    var evidenceIds := Allocate('E', evidenceCounter, AssessedCount(chosen));
    SpanKeysAfter(s, chosen, spanCounter);
    EvidenceKeysAfter(s, chosen, spanIds, q, evidenceCounter);
    PromotedFields(s, chosen, spanIds, evidenceIds, q);
  }

  lemma PromotedFields(s: Snapshot, chosen: seq<Chosen>, spanIds: seq<string>, evidenceIds: seq<string>, q: RetrievalQuery)
    requires PairsOk(chosen) && IdsFit(chosen, spanIds, evidenceIds)
    ensures Promoted(s, chosen, spanIds, evidenceIds, q).spans == s.spans + NewSpans(chosen, spanIds)
    ensures Promoted(s, chosen, spanIds, evidenceIds, q).evidence == s.evidence + NewEvidence(chosen, spanIds, evidenceIds, q)
  {
    hide PairsOk, NewSpans, NewDispositions, NewEvidence, AssessedCount;
  }

  /** What the locked checks demand of a request. */
  ghost predicate RequestAccepted(st: Setting, r: Request, x: Replay, terms: seq<string>, s: Snapshot, c: LockedCorpus) {
    && LedgerOk(r.ledger) && (forall h :: h in r.ledger.rawHits ==> HitOk(st.digest, h))
    && (forall p :: p in RequestPairs(r) ==> Located(p.hit))
    && exists q :: LedgerAuthentic(st, r.ledger, x, q, terms, s, c) && DecisionsAllowed(RequestPairs(r), s, q.claimId)
  }

  lemma OnlyOneQuery(st: Setting, r: Request, x: Replay, terms: seq<string>, s: Snapshot, c: LockedCorpus, q: RetrievalQuery)
    requires LedgerOk(r.ledger) && forall h :: h in r.ledger.rawHits ==> HitOk(st.digest, h)
    requires LedgerAuthentic(st, r.ledger, x, q, terms, s, c)
    ensures forall other :: LedgerAuthentic(st, r.ledger, x, other, terms, s, c) ==> other == q
  {
    hide LedgerOk, HitOk, Matching, LedgerAuthentic;
    AuthenticQuery(st, r.ledger, x, terms, s, c, q);
    forall other | LedgerAuthentic(st, r.ledger, x, other, terms, s, c) ensures other == q {
      AuthenticQuery(st, r.ledger, x, terms, s, c, other);
      assert [other][0] == [q][0];
    }
  }

  /** `_validate_locked_request`: authenticate the ledger, then decide on the selected candidates. */
  method ValidateLocked(st: Setting, r: Request, x: Replay, terms: seq<string>, s: Snapshot, c: LockedCorpus)
    returns (result: Result<(seq<Chosen>, RetrievalQuery), PromotionError>)
    requires RequestModelOk(st.digest, r)
    ensures result.Ok? <==> RequestAccepted(st, r, x, terms, s, c)
    ensures result.Ok? ==> (forall p :: p in RequestPairs(r) ==> Located(p.hit))
    ensures result.Ok? ==>
              && result.value.0 == RequestPairs(r) && result.value.1 in s.queries && result.value.1.queryId == r.ledger.queryId
              && PairsOk(RequestPairs(r)) && FromQuery(RequestPairs(r), s, result.value.1)
              && DecisionsAllowed(RequestPairs(r), s, result.value.1.claimId)
  {
    hide DecisionsAllowed, FromQuery, PairsOk, RequestModelOk, LedgerAuthentic, RequestPairs, KeysKnown, Located, ById, LedgerOk,
      HitOk, ValidHits;
    RequestLedgerOk(st.digest, r);
    SelectedKnown(st.digest, r);
    var authentic := AuthenticateLedger(st, r.ledger, x, terms, s, ById(s.papers, PaperIdOf), c);
    if authentic.Err? {
      return Err(authentic.error);
    }
    var q := authentic.value;
    ChosenFromQuery(st, r, x, terms, s, c, q);
    OnlyOneQuery(st, r, x, terms, s, c, q);
    AuthenticQuery(st, r.ledger, x, terms, s, c, q);
    MatchedQuery(s, r.ledger.queryId, q);
    var validated := ValidateDecisions(st.digest, r, s, q);
    if validated.Err? {
      return Err(validated.error);
    }
    return Ok((validated.value, q));
  }

  lemma RequestLedgerOk(digest: Digest, r: Request)
    requires RequestModelOk(digest, r)
    ensures LedgerOk(r.ledger) && forall h :: h in r.ledger.rawHits ==> HitOk(digest, h)
  {
    hide LedgerOk, HitOk;
  }

  /** The candidate and the decision of the request's `i`-th selected key. */
  predicate SelectedPair(r: Request, i: nat, p: Chosen)
    requires i < |r.ledger.selectedKeys|
  {
    && p.hit in r.ledger.rawHits && p.hit.isValid && p.hit.key == r.ledger.selectedKeys[i]
    && p.decision in r.decisions && p.decision.key == r.ledger.selectedKeys[i]
  }

  lemma PairsSelected(digest: Digest, r: Request)
    requires RequestModelOk(digest, r)
    ensures |RequestPairs(r)| == |r.ledger.selectedKeys|
    ensures forall i :: 0 <= i < |r.ledger.selectedKeys| ==> SelectedPair(r, i, RequestPairs(r)[i])
  {
    SelectedKnown(digest, r);
    hide LedgerOk, HitOk, HitsOf, ById, DecisionModelOk, Located;
    var pairs, hits, decisions := RequestPairs(r), ValidHits(r.ledger), ById(r.decisions, DecisionKeyOf);
    forall i | 0 <= i < |r.ledger.selectedKeys| ensures SelectedPair(r, i, pairs[i]) {
      assert pairs[i] in pairs;
      ByIdMember(HitsOf(r.ledger.rawHits, true), HitKeyOf, r.ledger.selectedKeys[i]);
      ByIdMember(r.decisions, DecisionKeyOf, r.ledger.selectedKeys[i]);
    }
  }

  /** Everything but spans, dispositions and evidence stays, and those only grow. */
  ghost predicate Grows(s: Snapshot, now: Snapshot) {
    && now == s.(spans := now.spans, dispositions := now.dispositions, evidence := now.evidence)
    && s.spans <= now.spans && s.dispositions <= now.dispositions && s.evidence <= now.evidence
  }

  /** What was added is what the pairs say, in order. */
  ghost predicate Adds(s: Snapshot, now: Snapshot, pairs: seq<Chosen>, claimId: string) {
    && Grows(s, now)
    && Recorded(pairs, claimId, now.spans[|s.spans|..], now.dispositions[|s.dispositions|..], now.evidence[|s.evidence|..])
  }

  /** The request has been carried out: for its canonical query's claim, one span, one disposition and, if assessed, one
      record for each selected key, repeating the ledger's candidate and the request's decision. */
  ghost predicate CarriedOut(s: Snapshot, now: Snapshot, r: Request) {
    exists q, pairs ::
      && q in s.queries && q.queryId == r.ledger.queryId && |pairs| == |r.ledger.selectedKeys|
      && (forall i :: 0 <= i < |pairs| ==> SelectedPair(r, i, pairs[i]))
      && Adds(s, now, pairs, q.claimId)
  }

  lemma CarriedOutBy(s: Snapshot, now: Snapshot, digest: Digest, r: Request, q: RetrievalQuery)
    requires RequestModelOk(digest, r) && q in s.queries && q.queryId == r.ledger.queryId
    requires Adds(s, now, RequestPairs(r), q.claimId)
    ensures CarriedOut(s, now, r)
  {
    hide RequestModelOk, RequestPairs, Adds, SelectedPair;
    PairsSelected(digest, r);
  }

  lemma AddsBuilt(s: Snapshot, chosen: seq<Chosen>, spanIds: seq<string>, evidenceIds: seq<string>, q: RetrievalQuery)
    requires Accepted(s, chosen, spanIds, evidenceIds, q)
    ensures Adds(s, Promoted(s, chosen, spanIds, evidenceIds, q), chosen, q.claimId)
  {
    hide PairsOk, FromQuery, DecisionsAllowed, Recorded, NewEvidence, AssessedCount, ById;
    BuiltRecorded(chosen, spanIds, evidenceIds, q);
    var spans, ds, es := NewSpans(chosen, spanIds), NewDispositions(chosen, spanIds), NewEvidence(chosen, spanIds, evidenceIds, q);
    assert (s.spans + spans)[|s.spans|..] == spans && (s.dispositions + ds)[|s.dispositions|..] == ds;
    assert (s.evidence + es)[|s.evidence|..] == es;
  }

  /** The generations of a review, with the registry counters for spans and evidence records. */
  class Store {
    const hash: ClaimHash
    var generations: seq<Snapshot>
    var spanCounter: nat
    var evidenceCounter: nat

    /** Every generation is valid and counts each passage once; the registry covers the current one. */
    ghost predicate Valid()
      reads this
    {
      && generations != []
      && (forall s :: s in generations ==> RepositoryClean(s, hash) && CountedOnce(s))
      && RegistryCovers(generations[|generations| - 1], spanCounter, evidenceCounter)
    }

    constructor (hash: ClaimHash, first: Snapshot)
      requires RepositoryClean(first, hash) && first.spans == [] && first.dispositions == [] && first.evidence == []
      ensures Valid() && generations == [first]
    {
      this.hash := hash;
      generations := [first];
      spanCounter, evidenceCounter := 0, 0;
      new;
      NothingCounted(first);
    }

    ghost function Current(): Snapshot
      requires generations != []
      reads this
    {
      generations[|generations| - 1]
    }

    /** `promote` under the writer lock: allocates identifiers and builds the next snapshot. */
    method Promote(chosen: seq<Chosen>, q: RetrievalQuery, s: Snapshot)
      returns (now: Snapshot, spans: nat, evidence: nat)
      requires Valid() && s == Current() && q in s.queries && PairsOk(chosen) && FromQuery(chosen, s, q)
      requires DecisionsAllowed(chosen, s, q.claimId)
      ensures RepositoryClean(now, hash) && CountedOnce(now) && RegistryCovers(now, spans, evidence)
      ensures Promotes(s, now, chosen) && Adds(s, now, chosen, q.claimId)
    {
      hide RepositoryClean, CountedOnce, DecisionsAllowed, FromQuery, RegistryCovers, PairsOk, FreshIds, NewEvidence, AssessedCount,
        Adds;
      var spanIds := Allocate('R', spanCounter, |chosen|);
      var assessed := CountAssessed(chosen);
      var evidenceIds := Allocate('E', evidenceCounter, assessed);
      PromotedCovered(s, chosen, q, spanCounter, evidenceCounter);
      assert s in generations;
      StepKeepsAll(s, chosen, spanIds, evidenceIds, q, hash);
      var newSpans, newDispositions, newEvidence := BuildRecords(chosen, spanIds, evidenceIds, q);
      now := s.(spans := s.spans + newSpans, dispositions := s.dispositions + newDispositions,
                evidence := s.evidence + newEvidence);
      spans, evidence := spanCounter + |chosen|, evidenceCounter + assessed;
      assert Accepted(s, chosen, spanIds, evidenceIds, q) && now == Promoted(s, chosen, spanIds, evidenceIds, q);
      AddsBuilt(s, chosen, spanIds, evidenceIds, q);
    }

    /** `_promote_retrieval_candidates_for_testing` up to the commit: compare the generation, validate the request
        against the locked snapshot, promote, validate the result and append it. */
    method CommitPromotion(st: Setting, r: Request, x: Replay, terms: seq<string>, c: LockedCorpus)
      returns (result: Result<nat, CommitError>)
      requires Valid() && RequestModelOk(st.digest, r)
      modifies this
      ensures Valid()
      ensures old(r.ledger.sourceGeneration + 1 != |generations|) <==> result == Err(StaleSnapshot)
      ensures result.Ok? <==> r.ledger.sourceGeneration + 1 == |old(generations)|
                              && RequestAccepted(st, r, x, terms, old(Current()), c)
      ensures result.Err? ==> generations == old(generations) && !result.error.StagedInvalid?
      ensures result.Ok? ==> |generations| == |old(generations)| + 1 && generations[..|old(generations)|] == old(generations)
                             && Promotes(old(Current()), Current(), RequestPairs(r))
                             && CarriedOut(old(Current()), Current(), r)
    {
      hide RepositoryClean, CountedOnce, DecisionsAllowed, FromQuery, RegistryCovers, PairsOk, RequestModelOk, Promotes, RequestPairs, RequestAccepted,
        Adds, CarriedOut;
      if r.ledger.sourceGeneration + 1 != |generations| {
        return Err(StaleSnapshot);
      }
      var s := generations[|generations| - 1];
      var validated := ValidateLocked(st, r, x, terms, s, c);
      if validated.Err? {
        return Err(Refused(validated.error));
      }
      var now, spans, evidence := Promote(validated.value.0, validated.value.1, s);
      var report := ValidateRepository(now, hash);
      if report.Err? {
        return Err(StagedInvalid(report.error));
      }
      CarriedOutBy(s, now, st.digest, r, validated.value.1);
      generations, spanCounter, evidenceCounter := generations + [now], spans, evidence;
      return Ok(|generations| - 1);
    }
  }
}
