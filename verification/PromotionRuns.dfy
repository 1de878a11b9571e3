/** Runs of promotions: no passage is counted twice (library/retrieval_promotion.py). */
module PromotionRuns {
  import opened Basics
  import opened Cycles
  import opened Lookup
  import opened PromotionBuild
  import opened PromotionRequests
  import opened PromotionValidity
  import opened RetrievalChecks
  import opened Snapshots
  import opened Validators

  // ---------------------------------------------------------------- counting passages

  ghost predicate IsDuplicate(s: Snapshot, x: RetrievedSpan) {
    exists d :: d in s.dispositions && d.spanId == x.spanId && d.status.Duplicate?
  }

  /** Of the spans that show one passage only the first can be anything but a duplicate. */
  ghost predicate FirstOnly(s: Snapshot) {
    forall i, j :: 0 <= i < j < |s.spans| && IdentityOfSpan(s.spans[i]) == IdentityOfSpan(s.spans[j])
      ==> IsDuplicate(s, s.spans[j])
  }

  ghost predicate PointsBack(spans: seq<RetrievedSpan>, d: Disposition) {
    exists j, i :: 0 <= j < i < |spans| && spans[i].spanId == d.spanId && d.canonicalSpanId == Some(spans[j].spanId)
      && IdentityOfSpan(spans[j]) == IdentityOfSpan(spans[i])
  }

  /** A duplicate refers to an earlier span that shows the same passage. */
  ghost predicate DuplicatesPointBack(s: Snapshot) {
    forall d :: d in s.dispositions && d.status.Duplicate? ==> PointsBack(s.spans, d)
  }

  ghost predicate CountedOnce(s: Snapshot) {
    FirstOnly(s) && DuplicatesPointBack(s)
  }

  lemma SpanAt(s: Snapshot, x: RetrievedSpan) returns (i: nat)
    requires x in s.spans
    ensures i < |s.spans| && s.spans[i] == x
  {
    var k :| 0 <= k < |s.spans| && s.spans[k] == x;
    i := k;
  }

  /** Each passage has at most one span that is not a duplicate. */
  lemma OneSpanPerPassage(s: Snapshot, x: RetrievedSpan, y: RetrievedSpan)
    requires CountedOnce(s) && x in s.spans && y in s.spans && SamePassage(x, y)
    requires !IsDuplicate(s, x) && !IsDuplicate(s, y)
    ensures x == y
  {
    var i := SpanAt(s, x);
    var j := SpanAt(s, y);
    assert !(i < j) && !(j < i);
  }

  /** Hence at most one evidence record. */
  lemma OneRecordPerPassage(s: Snapshot, hash: ClaimHash, e: Evidence, f: Evidence, x: RetrievedSpan, y: RetrievedSpan)
    requires RepositoryClean(s, hash) && CountedOnce(s) && e in s.evidence && f in s.evidence
    requires x in s.spans && x.spanId == e.spanId && y in s.spans && y.spanId == f.spanId
    requires SamePassage(x, y)
    ensures e == f
  {
    hide RetrievalClean, CountedOnce, SamePassage, EvidenceClean;
    AssessedNotDuplicate(s, hash, e, x);
    AssessedNotDuplicate(s, hash, f, y);
    OneSpanPerPassage(s, x, y);
    OneRecordPerSpan(s, hash, e, f, x);
  }

  lemma AssessedNotDuplicate(s: Snapshot, hash: ClaimHash, e: Evidence, x: RetrievedSpan)
    requires RetrievalClean(s, hash) && EvidenceClean(s) && e in s.evidence && x in s.spans && x.spanId == e.spanId
    ensures !IsDuplicate(s, x) && SolelyAssessed(s.dispositions, x.spanId)
  {
    hide ById, Matching, RetrievalClean, UniqueIds, SpanEvidenceOk;
    assert EvidenceOk(e, ById(s.claims, ClaimIdOf), ById(s.queries, QueryIdOf), ById(s.spans, SpanIdOf), s.dispositions);
    ByIdFinds(s.spans, SpanIdOf, x);
    forall d | d in s.dispositions && d.spanId == x.spanId ensures d.status.Assessed? {
      MatchingMember(s.dispositions, DisposedSpanOf, x.spanId, d);
    }
  }

  lemma OneRecordPerSpan(s: Snapshot, hash: ClaimHash, e: Evidence, f: Evidence, x: RetrievedSpan)
    requires RetrievalClean(s, hash) && EvidenceClean(s) && e in s.evidence && f in s.evidence
    requires x in s.spans && x.spanId == e.spanId == f.spanId
    ensures e == f
  {
    hide ById, Matching, UniqueIds;
    RecordIsRelevant(s, hash, e, x);
    RecordIsRelevant(s, hash, f, x);
    var relevant := Relevant(Matching(s.evidence, EvidenceSpanOf, x.spanId), x, ById(s.queries, QueryIdOf));
    AssessedNotDuplicate(s, hash, e, x);
    assert SpanEvidenceOk(x, ById(s.queries, QueryIdOf), s.dispositions, s.evidence);
    assert |relevant| == 1;
  }

  lemma RecordIsRelevant(s: Snapshot, hash: ClaimHash, e: Evidence, x: RetrievedSpan)
    requires EvidenceClean(s) && e in s.evidence && x in s.spans && x.spanId == e.spanId
    ensures e in Relevant(Matching(s.evidence, EvidenceSpanOf, x.spanId), x, ById(s.queries, QueryIdOf))
  {
    hide ById, Matching, UniqueIds, SpanEvidenceOk, SolelyAssessed;
    assert EvidenceOk(e, ById(s.claims, ClaimIdOf), ById(s.queries, QueryIdOf), ById(s.spans, SpanIdOf), s.dispositions);
    ByIdFinds(s.spans, SpanIdOf, x);
    var records := Matching(s.evidence, EvidenceSpanOf, x.spanId);
    MatchingMember(s.evidence, EvidenceSpanOf, x.spanId, e);
    MatchingMember(records, EvidenceClaimOf, e.claimId, e);
  }

  // ---------------------------------------------------------------- following duplicates

  function Duplicates(ds: seq<Disposition>): (r: seq<Disposition>)
    ensures forall d :: d in r <==> d in ds && d.status.Duplicate?
  {
    if ds == [] then []
    else
      assert ds == ds[..|ds| - 1] + [ds[|ds| - 1]];
      Duplicates(ds[..|ds| - 1]) + if ds[|ds| - 1].status.Duplicate? then [ds[|ds| - 1]] else []
  }

  /** Where duplicates refer to. */
  function DuplicateEdges(s: Snapshot): map<string, string> {
    CanonicalEdges(Duplicates(s.dispositions))
  }

  ghost predicate EndsAt(s: Snapshot, x: RetrievedSpan, n: nat, y: RetrievedSpan) {
    && y in s.spans && !IsDuplicate(s, y) && IdentityOfSpan(y) == IdentityOfSpan(x)
    && Follow(DuplicateEdges(s), x.spanId, n) == Some(y.spanId)
    && y.spanId !in DuplicateEdges(s)
  }

  lemma {:induction false} HasEdge(ds: seq<Disposition>, d: Disposition)
    requires d in ds && d.canonicalSpanId.Some?
    ensures d.spanId in CanonicalEdges(ds)
  {
    var n := |ds| - 1;
    if d != ds[n] {
      assert ds == ds[..n] + [ds[n]];
      HasEdge(ds[..n], d);
    }
  }

  lemma EdgeOfDuplicate(s: Snapshot, x: RetrievedSpan)
    requires forall d :: d in s.dispositions ==> DispositionModelOk(d)
    ensures x.spanId in DuplicateEdges(s) <==> IsDuplicate(s, x)
  {
    hide CanonicalEdges;
    if x.spanId in DuplicateEdges(s) {
      EdgesMember(Duplicates(s.dispositions), x.spanId);
    }
    if IsDuplicate(s, x) {
      var d :| d in s.dispositions && d.spanId == x.spanId && d.status.Duplicate?;
      assert DispositionModelOk(d);
      HasEdge(Duplicates(s.dispositions), d);
    }
  }

  /** The span that a duplicate refers to comes earlier and shows the same passage. */
  lemma EdgePointsBack(s: Snapshot, i: nat) returns (j: nat)
    requires DuplicatesPointBack(s) && UniqueIds(s.spans, SpanIdOf) && i < |s.spans|
    requires s.spans[i].spanId in DuplicateEdges(s)
    ensures j < i && DuplicateEdges(s)[s.spans[i].spanId] == s.spans[j].spanId
    ensures IdentityOfSpan(s.spans[j]) == IdentityOfSpan(s.spans[i])
  {
    hide CanonicalEdges, IdentityOfSpan;
    var id := s.spans[i].spanId;
    EdgesMember(Duplicates(s.dispositions), id);
    var d :| d in Duplicates(s.dispositions) && d.spanId == id && d.canonicalSpanId == Some(DuplicateEdges(s)[id]);
    assert PointsBack(s.spans, d);
    var k, l :| 0 <= k < l < |s.spans| && s.spans[l].spanId == id && d.canonicalSpanId == Some(s.spans[k].spanId)
      && IdentityOfSpan(s.spans[k]) == IdentityOfSpan(s.spans[l]);
    assert SpanIdOf(s.spans[l]) == SpanIdOf(s.spans[i]);
    assert l == i;
    j := k;
  }

  /** Following duplicate references from any span ends at the one span that counts for the passage. */
  lemma {:induction false} DuplicateChainEnds(s: Snapshot, i: nat) returns (n: nat, y: RetrievedSpan)
    requires CountedOnce(s) && UniqueIds(s.spans, SpanIdOf) && i < |s.spans|
    requires forall d :: d in s.dispositions ==> DispositionModelOk(d)
    ensures EndsAt(s, s.spans[i], n, y)
    ensures forall z :: z in s.spans && !IsDuplicate(s, z) && SamePassage(z, y) ==> z == y
  {
    hide DuplicateEdges, IdentityOfSpan, SamePassage, DispositionModelOk, IsDuplicate, UniqueIds, FirstOnly;
    var x := s.spans[i];
    EdgeOfDuplicate(s, x);
    if x.spanId in DuplicateEdges(s) {
      var j := EdgePointsBack(s, i);
      var m;
      m, y := DuplicateChainEnds(s, j);
      n := m + 1;
      assert Follow(DuplicateEdges(s), x.spanId, 0) == Some(x.spanId);
      assert Follow(DuplicateEdges(s), x.spanId, 1) == Some(s.spans[j].spanId);
      FollowLater(DuplicateEdges(s), x.spanId, 1, m);
    } else {
      n, y := 0, x;
      forall z | z in s.spans && !IsDuplicate(s, z) && SamePassage(z, y) ensures z == y {
        OneSpanPerPassage(s, z, y);
      }
    }
  }

  // ---------------------------------------------------------------- one promotion

  /** What the decision checks say about the passages of the new spans. */
  ghost predicate PassagesAllowed(s: Snapshot, spans: seq<RetrievedSpan>, ds: seq<Disposition>)
    requires |ds| == |spans|
  {
    && (forall i :: 0 <= i < |spans| && IdentityOfSpan(spans[i]) in Occupied(s.spans) ==> ds[i].status.Duplicate?)
    && (forall i, j :: 0 <= i < j < |spans| && IdentityOfSpan(spans[i]) == IdentityOfSpan(spans[j]) ==> ds[j].status.Duplicate?)
    && (forall i :: 0 <= i < |ds| && ds[i].status.Duplicate? ==> RefersToSame(s, spans[i], ds[i]))
  }

  ghost predicate RefersToSame(s: Snapshot, x: RetrievedSpan, d: Disposition) {
    && d.canonicalSpanId.Some? && d.canonicalSpanId.value in ById(s.spans, SpanIdOf)
    && IdentityOfSpan(ById(s.spans, SpanIdOf)[d.canonicalSpanId.value]) == IdentityOfSpan(x)
  }

  lemma IdentityOfBuilt(chosen: seq<Chosen>, spanIds: seq<string>, i: nat)
    requires PairsOk(chosen) && |spanIds| == |chosen| && i < |chosen|
    ensures IdentityOfSpan(NewSpans(chosen, spanIds)[i]) == IdentityOfHit(chosen[i].hit)
  {
  }

  lemma BuiltPassagesAllowed(s: Snapshot, chosen: seq<Chosen>, spanIds: seq<string>, claimId: string)
    requires PairsOk(chosen) && |spanIds| == |chosen| && DecisionsAllowed(chosen, s, claimId)
    ensures PassagesAllowed(s, NewSpans(chosen, spanIds), NewDispositions(chosen, spanIds))
  {
    hide ById, Occupied, IdentityOfSpan, IdentityOfHit, Located, ClaimOpen, AnyAssessed;
    var spans, ds := NewSpans(chosen, spanIds), NewDispositions(chosen, spanIds);
    forall i | 0 <= i < |chosen|
      ensures IdentityOfSpan(spans[i]) == IdentityOfHit(chosen[i].hit)
      ensures IdentityOfSpan(spans[i]) in Occupied(s.spans) ==> ds[i].status.Duplicate?
      ensures ds[i].status.Duplicate? ==> RefersToSame(s, spans[i], ds[i])
    {
      IdentityOfBuilt(chosen, spanIds, i);
      assert PairAllowed(chosen, i, s);
      assert chosen[i] in chosen;
    }
    forall i, j | 0 <= i < j < |chosen| && IdentityOfSpan(spans[i]) == IdentityOfSpan(spans[j]) ensures ds[j].status.Duplicate? {
      assert PairAllowed(chosen, j, s);
      assert chosen[..j][i] == chosen[i];
      assert IdentityOfHit(chosen[i].hit) in Identities(chosen[..j]);
    }
  }

  lemma OldDuplicateStays(s: Snapshot, spans: seq<RetrievedSpan>, ds: seq<Disposition>, es: seq<Evidence>, x: RetrievedSpan)
    requires IsDuplicate(s, x)
    ensures IsDuplicate(Extended(s, spans, ds, es), x)
  {
    var d :| d in s.dispositions && d.spanId == x.spanId && d.status.Duplicate?;
    assert d in s.dispositions + ds;
  }

  lemma NewDuplicate(s: Snapshot, spans: seq<RetrievedSpan>, ds: seq<Disposition>, es: seq<Evidence>, i: nat)
    requires NewDispositionsOk(s, spans, ds) && i < |ds| && ds[i].status.Duplicate?
    ensures IsDuplicate(Extended(s, spans, ds, es), spans[i])
  {
    assert (s.dispositions + ds)[|s.dispositions| + i] == ds[i];
  }

  lemma FirstOnlyStays(s: Snapshot, spans: seq<RetrievedSpan>, ds: seq<Disposition>, es: seq<Evidence>)
    requires FirstOnly(s) && NewDispositionsOk(s, spans, ds) && PassagesAllowed(s, spans, ds)
    ensures FirstOnly(Extended(s, spans, ds, es))
  {
    hide IdentityOfSpan, ById, IsDuplicate, RefersToSame;
    var now, n := Extended(s, spans, ds, es), |s.spans|;
    forall i, j | 0 <= i < j < |now.spans| && IdentityOfSpan(now.spans[i]) == IdentityOfSpan(now.spans[j])
      ensures IsDuplicate(now, now.spans[j])
    {
      if j < n {
        OldDuplicateStays(s, spans, ds, es, s.spans[j]);
      } else {
        assert i < n ==> s.spans[i] in s.spans;
        NewDuplicate(s, spans, ds, es, j - n);
      }
    }
  }

  lemma PointsBackStays(spans: seq<RetrievedSpan>, more: seq<RetrievedSpan>, d: Disposition)
    requires PointsBack(spans, d)
    ensures PointsBack(spans + more, d)
  {
    hide IdentityOfSpan;
    var j, i :| 0 <= j < i < |spans| && spans[i].spanId == d.spanId && d.canonicalSpanId == Some(spans[j].spanId)
      && IdentityOfSpan(spans[j]) == IdentityOfSpan(spans[i]);
    var all := spans + more;
    assert all[i] == spans[i] && all[j] == spans[j];
  }

  lemma NewPointsBack(s: Snapshot, spans: seq<RetrievedSpan>, ds: seq<Disposition>, k: nat)
    requires NewDispositionsOk(s, spans, ds) && k < |ds| && RefersToSame(s, spans[k], ds[k])
    ensures PointsBack(s.spans + spans, ds[k])
  {
    hide IdentityOfSpan;
    var target := ds[k].canonicalSpanId.value;
    ByIdMember(s.spans, SpanIdOf, target);
    var j := SpanAt(s, ById(s.spans, SpanIdOf)[target]);
    var all := s.spans + spans;
    assert all[j] == s.spans[j] && all[|s.spans| + k] == spans[k];
  }

  lemma PromotionCountsOnce(s: Snapshot, spans: seq<RetrievedSpan>, ds: seq<Disposition>, es: seq<Evidence>)
    requires CountedOnce(s) && NewDispositionsOk(s, spans, ds) && PassagesAllowed(s, spans, ds)
    ensures CountedOnce(Extended(s, spans, ds, es))
  {
    hide IdentityOfSpan, ById, PointsBack, RefersToSame, FirstOnly, NewDispositionsOk;
    FirstOnlyStays(s, spans, ds, es);
    forall d | d in s.dispositions + ds && d.status.Duplicate? ensures PointsBack(s.spans + spans, d) {
      if d in s.dispositions {
        PointsBackStays(s.spans, spans, d);
      } else {
        var k :| 0 <= k < |ds| && ds[k] == d;
        NewPointsBack(s, spans, ds, k);
      }
    }
  }

  // ---------------------------------------------------------------- whole runs

  /** An accepted promotion: what the locked checks and the identifier registry together guarantee. */
  ghost predicate Accepted(s: Snapshot, chosen: seq<Chosen>, spanIds: seq<string>, evidenceIds: seq<string>, q: RetrievalQuery) {
    && q in s.queries && PairsOk(chosen) && IdsFit(chosen, spanIds, evidenceIds) && FromQuery(chosen, s, q)
    && FreshIds(spanIds, ById(s.spans, SpanIdOf).Keys) && FreshIds(evidenceIds, ById(s.evidence, EvidenceIdOf).Keys)
    && DecisionsAllowed(chosen, s, q.claimId)
  }

  /** `now` is `s` with the chosen candidates promoted under new identifiers. */
  ghost predicate Promotes(s: Snapshot, now: Snapshot, chosen: seq<Chosen>) {
    exists spanIds, evidenceIds, q ::
      Accepted(s, chosen, spanIds, evidenceIds, q) && now == Promoted(s, chosen, spanIds, evidenceIds, q)
  }

  ghost predicate PromotionStep(s: Snapshot, now: Snapshot) {
    exists chosen :: Promotes(s, now, chosen)
  }

  /** Any other commit that passes validation and leaves spans, dispositions and evidence alone. */
  ghost predicate OtherStep(s: Snapshot, now: Snapshot, hash: ClaimHash) {
    RepositoryClean(now, hash) && now.spans == s.spans && now.dispositions == s.dispositions && now.evidence == s.evidence
  }

  ghost predicate Run(states: seq<Snapshot>, hash: ClaimHash) {
    && states != [] && RepositoryClean(states[0], hash)
    && states[0].spans == [] && states[0].dispositions == [] && states[0].evidence == []
    && forall k :: 0 < k < |states| ==> PromotionStep(states[k - 1], states[k]) || OtherStep(states[k - 1], states[k], hash)
  }

  lemma StepKeepsAll(s: Snapshot, chosen: seq<Chosen>, spanIds: seq<string>, evidenceIds: seq<string>, q: RetrievalQuery,
                     hash: ClaimHash)
    requires RepositoryClean(s, hash) && CountedOnce(s) && Accepted(s, chosen, spanIds, evidenceIds, q)
    ensures var now := Promoted(s, chosen, spanIds, evidenceIds, q); RepositoryClean(now, hash) && CountedOnce(now)
  {
    hide RepositoryClean, CountedOnce, PairsOk, DecisionsAllowed, FromQuery, FreshIds, NewSpansOk, NewDispositionsOk, NewEvidenceOk,
      PassagesAllowed, ById, NewEvidence, AssessedCount;
    BuiltCoupled(s, chosen, spanIds, evidenceIds, q);
    BuiltPassagesAllowed(s, chosen, spanIds, q.claimId);
    var spans, ds := NewSpans(chosen, spanIds), NewDispositions(chosen, spanIds);
    var es := NewEvidence(chosen, spanIds, evidenceIds, q);
    PromotionKeepsClean(s, hash, q, spans, ds, es);
    PromotionCountsOnce(s, spans, ds, es);
    assert Promoted(s, chosen, spanIds, evidenceIds, q) == Extended(s, spans, ds, es);
  }

  lemma PromotionKeepsAll(s: Snapshot, now: Snapshot, chosen: seq<Chosen>, hash: ClaimHash)
    requires RepositoryClean(s, hash) && CountedOnce(s) && Promotes(s, now, chosen)
    ensures RepositoryClean(now, hash) && CountedOnce(now)
  {
    hide RepositoryClean, CountedOnce, PairsOk, DecisionsAllowed, FromQuery, FreshIds, ById, NewEvidence, AssessedCount;
    var spanIds, evidenceIds, q :|
      Accepted(s, chosen, spanIds, evidenceIds, q) && now == Promoted(s, chosen, spanIds, evidenceIds, q);
    StepKeepsAll(s, chosen, spanIds, evidenceIds, q, hash);
  }

  /** Over every run from an empty store each generation is valid and counts each passage once. */
  lemma {:induction false} RunCountsOnce(states: seq<Snapshot>, hash: ClaimHash, k: nat)
    requires Run(states, hash) && k < |states|
    ensures RepositoryClean(states[k], hash) && CountedOnce(states[k])
  {
    hide RepositoryClean, Promotes, CountedOnce;
    if k > 0 {
      RunCountsOnce(states, hash, k - 1);
      if PromotionStep(states[k - 1], states[k]) {
        var chosen :| Promotes(states[k - 1], states[k], chosen);
        PromotionKeepsAll(states[k - 1], states[k], chosen, hash);
      } else {
        assert OtherStep(states[k - 1], states[k], hash);
        SameSpansCountOnce(states[k - 1], states[k]);
      }
    } else {
      NothingCounted(states[0]);
    }
  }

  /** Over every run each disposition passes the checks on dispositions. */
  lemma {:induction false} RunDispositionsOk(states: seq<Snapshot>, hash: ClaimHash, k: nat)
    requires Run(states, hash) && k < |states|
    ensures forall d :: d in states[k].dispositions ==> DispositionModelOk(d)
  {
    hide RepositoryClean, Promotes, DispositionModelOk;
    if k > 0 {
      RunDispositionsOk(states, hash, k - 1);
      if PromotionStep(states[k - 1], states[k]) {
        var chosen :| Promotes(states[k - 1], states[k], chosen);
        PromotedDispositionsOk(states[k - 1], states[k], chosen);
      } else {
        assert OtherStep(states[k - 1], states[k], hash);
      }
    }
  }

  lemma PromotedDispositionsOk(s: Snapshot, now: Snapshot, chosen: seq<Chosen>)
    requires Promotes(s, now, chosen) && forall d :: d in s.dispositions ==> DispositionModelOk(d)
    ensures forall d :: d in now.dispositions ==> DispositionModelOk(d)
  {
    hide DecisionsAllowed, FromQuery, FreshIds, NewEvidence, AssessedCount, DispositionModelOk, DecisionModelOk, DispositionFrom;
    var spanIds, evidenceIds, q :|
      Accepted(s, chosen, spanIds, evidenceIds, q) && now == Promoted(s, chosen, spanIds, evidenceIds, q);
    var ds := NewDispositions(chosen, spanIds);
    forall i | 0 <= i < |ds| ensures DispositionModelOk(ds[i]) {
      assert chosen[i] in chosen;
      DecidedDisposition(chosen[i].decision, spanIds[i]);
    }
  }

  /** Over every run, following duplicate references from any span ends at the one span that counts for its passage. */
  lemma RunChainsEnd(states: seq<Snapshot>, hash: ClaimHash, k: nat, i: nat) returns (n: nat, y: RetrievedSpan)
    requires Run(states, hash) && k < |states| && i < |states[k].spans|
    ensures EndsAt(states[k], states[k].spans[i], n, y)
    ensures forall z :: z in states[k].spans && !IsDuplicate(states[k], z) && SamePassage(z, y) ==> z == y
  {
    hide Run, CountedOnce, RetrievalClean, EvidenceClean, DispositionModelOk, EndsAt, IsDuplicate, SamePassage;
    RunCountsOnce(states, hash, k);
    RunDispositionsOk(states, hash, k);
    SpanIdsUnique(states[k], hash);
    n, y := DuplicateChainEnds(states[k], i);
  }

  lemma SpanIdsUnique(s: Snapshot, hash: ClaimHash)
    requires RetrievalClean(s, hash)
    ensures UniqueIds(s.spans, SpanIdOf)
  {
    hide UniqueIds;
  }

  lemma NothingCounted(s: Snapshot)
    requires s.spans == [] && s.dispositions == []
    ensures CountedOnce(s)
  {
  }

  lemma SameSpansCountOnce(s: Snapshot, now: Snapshot)
    requires CountedOnce(s) && now.spans == s.spans && now.dispositions == s.dispositions
    ensures CountedOnce(now)
  {
    hide IdentityOfSpan, PointsBack;
    forall x | IsDuplicate(s, x) ensures IsDuplicate(now, x) {
    }
  }
}
