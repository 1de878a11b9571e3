/** The records that an accepted promotion adds to the snapshot (library/retrieval_promotion.py). */
module PromotionBuild {
  import opened Basics
  import opened Lookup
  import opened PromotionRequests
  import opened RetrievalHits
  import opened Snapshots

  function SpanFrom(h: Hit, spanId: string): RetrievedSpan
    requires Located(h)
  {
    RetrievedSpan(spanId, h.paperId, Locator(h.rawMdPath, h.section, h.start.value, h.end.value, h.spanHash.value),
                  h.sourceText, h.queryId, h.intent, h.score)
  }

  function DispositionFrom(d: PromotionDecision, spanId: string): Disposition {
    Disposition(spanId, d.status, d.reason, d.canonicalSpanId)
  }

  /** What is recorded of an admitted decision passes the checks on dispositions. */
  lemma DecidedDisposition(d: PromotionDecision, spanId: string)
    requires DecisionModelOk(d)
    ensures DispositionModelOk(DispositionFrom(d, spanId))
  {
  }

  function EvidenceFrom(p: Chosen, evidenceId: string, spanId: string, q: RetrievalQuery): Evidence
    requires p.decision.evidence.Some?
  {
    var e := p.decision.evidence.value;
    Evidence(evidenceId, q.claimId, spanId, p.hit.paperId, e.relation, e.summary, e.quality, e.note)
  }

  /** Every pair has passed the schema and carries a valid candidate. */
  predicate PairsOk(chosen: seq<Chosen>) {
    forall p :: p in chosen ==> Located(p.hit) && DecisionModelOk(p.decision)
  }

  function NewSpans(chosen: seq<Chosen>, spanIds: seq<string>): (r: seq<RetrievedSpan>)
    requires PairsOk(chosen) && |spanIds| == |chosen|
    ensures |r| == |chosen| && forall i :: 0 <= i < |r| ==> r[i] == SpanFrom(chosen[i].hit, spanIds[i])
  {
    seq(|chosen|, i requires 0 <= i < |chosen| => SpanFrom(chosen[i].hit, spanIds[i]))
  }

  function NewDispositions(chosen: seq<Chosen>, spanIds: seq<string>): (r: seq<Disposition>)
    requires |spanIds| == |chosen|
    ensures |r| == |chosen| && forall i :: 0 <= i < |r| ==> r[i] == DispositionFrom(chosen[i].decision, spanIds[i])
  {
    seq(|chosen|, i requires 0 <= i < |chosen| => DispositionFrom(chosen[i].decision, spanIds[i]))
  }

  function AssessedCount(chosen: seq<Chosen>): (n: nat)
    ensures n <= |chosen|
  {
    if chosen == [] then 0
    else AssessedCount(chosen[..|chosen| - 1]) + if chosen[|chosen| - 1].decision.status.Assessed? then 1 else 0
  }

  lemma {:induction false} AssessedCountGrows(chosen: seq<Chosen>, i: nat)
    requires i <= |chosen|
    ensures AssessedCount(chosen[..i]) <= AssessedCount(chosen)
    decreases |chosen| - i
  {
    if i < |chosen| {
      assert chosen[..i + 1][..i] == chosen[..i];
      AssessedCountGrows(chosen, i + 1);
    } else {
      assert chosen[..i] == chosen;
    }
  }

  /** One record for each assessed pair, in order. */
  function NewEvidence(chosen: seq<Chosen>, spanIds: seq<string>, evidenceIds: seq<string>, q: RetrievalQuery): (r: seq<Evidence>)
    requires PairsOk(chosen) && |spanIds| == |chosen| && |evidenceIds| >= AssessedCount(chosen)
    ensures |r| == AssessedCount(chosen)
  {
    if chosen == [] then []
    else
      var n := |chosen| - 1;
      var front := NewEvidence(chosen[..n], spanIds[..n], evidenceIds, q);
      if chosen[n].decision.status.Assessed? then front + [EvidenceFrom(chosen[n], evidenceIds[|front|], spanIds[n], q)]
      else front
  }

  ghost predicate IdsFit(chosen: seq<Chosen>, spanIds: seq<string>, evidenceIds: seq<string>) {
    |spanIds| == |chosen| && |evidenceIds| == AssessedCount(chosen)
  }

  ghost function Promoted(s: Snapshot, chosen: seq<Chosen>, spanIds: seq<string>, evidenceIds: seq<string>,
                          q: RetrievalQuery): Snapshot
    requires PairsOk(chosen) && IdsFit(chosen, spanIds, evidenceIds)
  {
    s.(spans := s.spans + NewSpans(chosen, spanIds), dispositions := s.dispositions + NewDispositions(chosen, spanIds),
       evidence := s.evidence + NewEvidence(chosen, spanIds, evidenceIds, q))
  }

  method CountAssessed(chosen: seq<Chosen>) returns (n: nat)
    ensures n == AssessedCount(chosen)
  {
    n := 0;
    var i := 0;
    while i < |chosen|
      invariant 0 <= i <= |chosen| && n == AssessedCount(chosen[..i])
    {
      assert chosen[..i + 1][..i] == chosen[..i];
      if chosen[i].decision.status.Assessed? {
        n := n + 1;
      }
      i := i + 1;
    }
    assert chosen[..i] == chosen;
  }

  /** The loop of `promote` over the accepted pairs; `next` is where the evidence iterator stands. */
  method BuildRecords(chosen: seq<Chosen>, spanIds: seq<string>, evidenceIds: seq<string>, q: RetrievalQuery)
    returns (spans: seq<RetrievedSpan>, dispositions: seq<Disposition>, evidence: seq<Evidence>)
    requires PairsOk(chosen) && IdsFit(chosen, spanIds, evidenceIds)
    ensures spans == NewSpans(chosen, spanIds) && dispositions == NewDispositions(chosen, spanIds)
    ensures evidence == NewEvidence(chosen, spanIds, evidenceIds, q)
    ensures |evidence| == |evidenceIds|
  {
    hide Located, DecisionModelOk, NewEvidence, AssessedCount;
    spans, dispositions, evidence := [], [], [];
    var next := 0;
    var i := 0;
    while i < |chosen|
      invariant 0 <= i <= |chosen| && next == |evidence| && AssessedCount(chosen[..i]) <= |evidenceIds|
      invariant spans == NewSpans(chosen[..i], spanIds[..i])
      invariant dispositions == NewDispositions(chosen[..i], spanIds[..i])
      invariant evidence == NewEvidence(chosen[..i], spanIds[..i], evidenceIds, q)
    {
      var p := chosen[i];
      assert p in chosen;
      EvidenceStep(chosen, spanIds, evidenceIds, q, i);
      spans := spans + [SpanFrom(p.hit, spanIds[i])];
      dispositions := dispositions + [DispositionFrom(p.decision, spanIds[i])];
      if p.decision.evidence.Some? {
        evidence := evidence + [EvidenceFrom(p, evidenceIds[next], spanIds[i], q)];
        next := next + 1;
      }
      i := i + 1;
    }
    assert chosen[..i] == chosen && spanIds[..i] == spanIds;
  }

  lemma EvidenceStep(chosen: seq<Chosen>, spanIds: seq<string>, evidenceIds: seq<string>, q: RetrievalQuery, i: nat)
    requires PairsOk(chosen) && IdsFit(chosen, spanIds, evidenceIds) && i < |chosen|
    ensures AssessedCount(chosen[..i]) <= AssessedCount(chosen[..i + 1]) <= |evidenceIds|
    ensures var n, p := AssessedCount(chosen[..i]), chosen[i];
            && (p.decision.evidence.Some? ==> n < |evidenceIds|)
            && NewEvidence(chosen[..i + 1], spanIds[..i + 1], evidenceIds, q)
               == NewEvidence(chosen[..i], spanIds[..i], evidenceIds, q)
                  + if p.decision.evidence.Some? then [EvidenceFrom(p, evidenceIds[n], spanIds[i], q)] else []
  {
    hide Located, DecisionModelOk;
    assert chosen[i] in chosen;
    AssessedHasEvidence(chosen[i].decision);
    assert chosen[..i + 1][..i] == chosen[..i] && spanIds[..i + 1][..i] == spanIds[..i];
    AssessedCountGrows(chosen, i + 1);
    AssessedCountGrows(chosen, i);
    var front := NewEvidence(chosen[..i], spanIds[..i], evidenceIds, q);
    assert front + [] == front;
  }

  lemma AssessedHasEvidence(d: PromotionDecision)
    requires DecisionModelOk(d)
    ensures d.status.Assessed? <==> d.evidence.Some?
  {
  }

  // ---------------------------------------------------------------- what the new records are, independently of how they are built

  /** New spans, their dispositions and their evidence, relative to a snapshot and the query they came from. */
  ghost predicate Coupled(s: Snapshot, q: RetrievalQuery, spans: seq<RetrievedSpan>, ds: seq<Disposition>, es: seq<Evidence>) {
    && NewSpansOk(s, q, spans) && NewDispositionsOk(s, spans, ds) && NewEvidenceOk(s, q, spans, ds, es)
  }

  ghost predicate NewSpansOk(s: Snapshot, q: RetrievalQuery, spans: seq<RetrievedSpan>) {
    && UniqueIds(spans, SpanIdOf)
    && forall x :: x in spans ==>
         && x.spanId !in ById(s.spans, SpanIdOf) && x.paperId in ById(s.papers, PaperIdOf)
         && x.queryId == q.queryId && x.intent == q.intent
  }

  /** One disposition per new span, referring to spans of the same paper that existed before. */
  ghost predicate NewDispositionsOk(s: Snapshot, spans: seq<RetrievedSpan>, ds: seq<Disposition>) {
    && |ds| == |spans|
    && forall i :: 0 <= i < |ds| ==>
         && ds[i].spanId == spans[i].spanId
         && (ds[i].canonicalSpanId.Some? ==>
               && ds[i].canonicalSpanId.value in ById(s.spans, SpanIdOf)
               && ById(s.spans, SpanIdOf)[ds[i].canonicalSpanId.value].paperId == spans[i].paperId)
  }

  /** Exactly the assessed new spans have a record each, for the query's claim, which has no packet yet. */
  ghost predicate NewEvidenceOk(s: Snapshot, q: RetrievalQuery, spans: seq<RetrievedSpan>, ds: seq<Disposition>, es: seq<Evidence>)
    requires |ds| == |spans|
  {
    && UniqueIds(es, EvidenceIdOf) && UniqueIds(es, EvidenceSpanOf)
    && (forall e :: e in es ==> e.evidenceId !in ById(s.evidence, EvidenceIdOf) && e.claimId == q.claimId
                                && AboutAssessed(e, spans, ds))
    && (forall i :: 0 <= i < |ds| && ds[i].status.Assessed? ==> exists e :: e in es && e.spanId == spans[i].spanId)
    && (es != [] ==> forall p :: p in s.packets ==> p.claimId != q.claimId)
  }

  ghost predicate AboutAssessed(e: Evidence, spans: seq<RetrievedSpan>, ds: seq<Disposition>)
    requires |ds| == |spans|
  {
    exists i :: 0 <= i < |spans| && e.spanId == spans[i].spanId && e.paperId == spans[i].paperId && ds[i].status.Assessed?
  }

  // ---------------------------------------------------------------- what is built is coupled

  ghost predicate FreshIds(ids: seq<string>, used: set<string>) {
    NoRepeats(ids) && forall id :: id in ids ==> id !in used
  }

  /** Facts that the authenticated ledger supplies about the chosen candidates. */
  ghost predicate FromQuery(chosen: seq<Chosen>, s: Snapshot, q: RetrievalQuery) {
    forall p :: p in chosen ==> p.hit.queryId == q.queryId && p.hit.intent == q.intent && p.hit.paperId in ById(s.papers, PaperIdOf)
  }

  lemma {:induction false} NewEvidenceIndexed(chosen: seq<Chosen>, spanIds: seq<string>, evidenceIds: seq<string>, q: RetrievalQuery,
                                              k: nat)
      returns (i: nat)
    requires PairsOk(chosen) && |spanIds| == |chosen| && |evidenceIds| >= AssessedCount(chosen) && k < AssessedCount(chosen)
    ensures i < |chosen| && chosen[i].decision.status.Assessed? && k == AssessedCount(chosen[..i])
    ensures chosen[i].decision.evidence.Some?
    ensures NewEvidence(chosen, spanIds, evidenceIds, q)[k] == EvidenceFrom(chosen[i], evidenceIds[k], spanIds[i], q)
  {
    var n := |chosen| - 1;
    assert chosen[n] in chosen;
    AssessedHasEvidence(chosen[n].decision);
    if k < AssessedCount(chosen[..n]) {
      i := NewEvidenceIndexed(chosen[..n], spanIds[..n], evidenceIds, q, k);
      assert chosen[..n][..i] == chosen[..i];
    } else {
      i := n;
    }
  }

  lemma {:induction false} AssessedIsIndexed(chosen: seq<Chosen>, i: nat)
    requires i < |chosen| && chosen[i].decision.status.Assessed?
    ensures AssessedCount(chosen[..i]) < AssessedCount(chosen)
  {
    assert chosen[..i + 1][..i] == chosen[..i];
    AssessedCountGrows(chosen, i + 1);
  }

  lemma BuiltSpansOk(s: Snapshot, chosen: seq<Chosen>, spanIds: seq<string>, q: RetrievalQuery)
    requires PairsOk(chosen) && |spanIds| == |chosen| && FromQuery(chosen, s, q)
    requires FreshIds(spanIds, ById(s.spans, SpanIdOf).Keys)
    ensures NewSpansOk(s, q, NewSpans(chosen, spanIds))
  {
    hide ById;
    var spans := NewSpans(chosen, spanIds);
    forall x | x in spans
      ensures x.spanId !in ById(s.spans, SpanIdOf) && x.paperId in ById(s.papers, PaperIdOf)
      ensures x.queryId == q.queryId && x.intent == q.intent
    {
      var i :| 0 <= i < |spans| && spans[i] == x;
      assert chosen[i] in chosen && spanIds[i] in spanIds;
    }
  }

  lemma BuiltDispositionsOk(s: Snapshot, chosen: seq<Chosen>, spanIds: seq<string>)
    requires PairsOk(chosen) && |spanIds| == |chosen|
    requires forall i :: 0 <= i < |chosen| ==> TargetAllowed(chosen[i], ById(s.spans, SpanIdOf))
    ensures NewDispositionsOk(s, NewSpans(chosen, spanIds), NewDispositions(chosen, spanIds))
  {
    hide ById;
  }

  lemma BuiltEvidenceUnique(chosen: seq<Chosen>, spanIds: seq<string>, evidenceIds: seq<string>, q: RetrievalQuery)
    requires PairsOk(chosen) && IdsFit(chosen, spanIds, evidenceIds) && NoRepeats(spanIds) && NoRepeats(evidenceIds)
    ensures UniqueIds(NewEvidence(chosen, spanIds, evidenceIds, q), EvidenceIdOf)
    ensures UniqueIds(NewEvidence(chosen, spanIds, evidenceIds, q), EvidenceSpanOf)
  {
    hide NewEvidence, AssessedCount;
    var es := NewEvidence(chosen, spanIds, evidenceIds, q);
    forall a, b | 0 <= a < b < |es| ensures es[a].evidenceId != es[b].evidenceId && es[a].spanId != es[b].spanId {
      var i := NewEvidenceIndexed(chosen, spanIds, evidenceIds, q, a);
      var j := NewEvidenceIndexed(chosen, spanIds, evidenceIds, q, b);
      assert i != j;
    }
  }

  lemma BuiltEvidenceSound(s: Snapshot, chosen: seq<Chosen>, spanIds: seq<string>, evidenceIds: seq<string>, q: RetrievalQuery,
                           e: Evidence)
    requires PairsOk(chosen) && IdsFit(chosen, spanIds, evidenceIds)
    requires FreshIds(evidenceIds, ById(s.evidence, EvidenceIdOf).Keys)
    requires e in NewEvidence(chosen, spanIds, evidenceIds, q)
    ensures e.evidenceId !in ById(s.evidence, EvidenceIdOf) && e.claimId == q.claimId && AnyAssessed(chosen)
    ensures AboutAssessed(e, NewSpans(chosen, spanIds), NewDispositions(chosen, spanIds))
  {
    hide NewEvidence, AssessedCount, ById, Located, DecisionModelOk;
    var spans, es := NewSpans(chosen, spanIds), NewEvidence(chosen, spanIds, evidenceIds, q);
    var k :| 0 <= k < |es| && es[k] == e;
    var i := NewEvidenceIndexed(chosen, spanIds, evidenceIds, q, k);
    assert evidenceIds[k] in evidenceIds && chosen[i] in chosen;
    assert e.spanId == spans[i].spanId;
  }

  lemma BuiltEvidenceComplete(chosen: seq<Chosen>, spanIds: seq<string>, evidenceIds: seq<string>, q: RetrievalQuery, i: nat)
    requires PairsOk(chosen) && IdsFit(chosen, spanIds, evidenceIds) && i < |chosen| && chosen[i].decision.status.Assessed?
    ensures exists e :: e in NewEvidence(chosen, spanIds, evidenceIds, q) && e.spanId == spanIds[i]
  {
    hide NewEvidence, AssessedCount, Located, DecisionModelOk;
    AssessedIsIndexed(chosen, i);
    var k := AssessedCount(chosen[..i]);
    var j := NewEvidenceIndexed(chosen, spanIds, evidenceIds, q, k);
    SameCountSamePair(chosen, i, j);
    var e := NewEvidence(chosen, spanIds, evidenceIds, q)[k];
    assert e in NewEvidence(chosen, spanIds, evidenceIds, q);
  }

  lemma BuiltEvidenceOk(s: Snapshot, chosen: seq<Chosen>, spanIds: seq<string>, evidenceIds: seq<string>, q: RetrievalQuery)
    requires PairsOk(chosen) && IdsFit(chosen, spanIds, evidenceIds) && NoRepeats(spanIds)
    requires FreshIds(evidenceIds, ById(s.evidence, EvidenceIdOf).Keys)
    requires AnyAssessed(chosen) ==> ClaimOpen(s, q.claimId)
    ensures NewEvidenceOk(s, q, NewSpans(chosen, spanIds), NewDispositions(chosen, spanIds),
                          NewEvidence(chosen, spanIds, evidenceIds, q))
  {
    hide NewEvidence, AssessedCount, ById, Located, DecisionModelOk, AboutAssessed, AnyAssessed, UniqueIds, PairsOk;
    var spans, ds, es := NewSpans(chosen, spanIds), NewDispositions(chosen, spanIds), NewEvidence(chosen, spanIds, evidenceIds, q);
    BuiltEvidenceUnique(chosen, spanIds, evidenceIds, q);
    forall e | e in es
      ensures e.evidenceId !in ById(s.evidence, EvidenceIdOf) && e.claimId == q.claimId && AboutAssessed(e, spans, ds)
      ensures AnyAssessed(chosen)
    {
      BuiltEvidenceSound(s, chosen, spanIds, evidenceIds, q, e);
    }
    forall i | 0 <= i < |ds| && ds[i].status.Assessed? ensures exists e :: e in es && e.spanId == spans[i].spanId {
      BuiltEvidenceComplete(chosen, spanIds, evidenceIds, q, i);
    }
    if es != [] {
      assert es[0] in es;
    }
  }

  lemma SameCountSamePair(chosen: seq<Chosen>, i: nat, j: nat)
    requires i < |chosen| && j < |chosen| && chosen[i].decision.status.Assessed? && chosen[j].decision.status.Assessed?
    requires AssessedCount(chosen[..i]) == AssessedCount(chosen[..j])
    ensures i == j
  {
    if i < j {
      CountAdvances(chosen, i, j);
    } else if j < i {
      CountAdvances(chosen, j, i);
    }
  }

  lemma CountAdvances(chosen: seq<Chosen>, i: nat, j: nat)
    requires i < j <= |chosen| && chosen[i].decision.status.Assessed?
    ensures AssessedCount(chosen[..i]) < AssessedCount(chosen[..j])
  {
    AssessedIsIndexed(chosen[..j], i);
    assert chosen[..j][..i] == chosen[..i];
  }

  /** The records of an accepted request are coupled to the snapshot. */
  lemma BuiltCoupled(s: Snapshot, chosen: seq<Chosen>, spanIds: seq<string>, evidenceIds: seq<string>, q: RetrievalQuery)
    requires PairsOk(chosen) && IdsFit(chosen, spanIds, evidenceIds) && FromQuery(chosen, s, q)
    requires FreshIds(spanIds, ById(s.spans, SpanIdOf).Keys) && FreshIds(evidenceIds, ById(s.evidence, EvidenceIdOf).Keys)
    requires DecisionsAllowed(chosen, s, q.claimId)
    ensures Coupled(s, q, NewSpans(chosen, spanIds), NewDispositions(chosen, spanIds), NewEvidence(chosen, spanIds, evidenceIds, q))
  {
    hide ById, Located, DecisionModelOk, NewEvidence, AnyAssessed, ClaimOpen, TargetAllowed, SourceAllowed, NewEvidenceOk,
      NewSpansOk, NewDispositionsOk, AssessedCount;
    forall i | 0 <= i < |chosen| ensures TargetAllowed(chosen[i], ById(s.spans, SpanIdOf)) {
      assert PairAllowed(chosen, i, s);
    }
    BuiltSpansOk(s, chosen, spanIds, q);
    BuiltDispositionsOk(s, chosen, spanIds);
    BuiltEvidenceOk(s, chosen, spanIds, evidenceIds, q);
  }

  // ---------------------------------------------------------------- what is recorded, field by field

  /** The span repeats the candidate. */
  predicate SpanRepeats(x: RetrievedSpan, h: Hit) {
    && x.paperId == h.paperId && x.locator.rawMdPath == h.rawMdPath && x.locator.section == h.section
    && Some(x.locator.start) == h.start && Some(x.locator.end) == h.end && Some(x.locator.spanHash) == h.spanHash
    && x.sourceText == h.sourceText && x.queryId == h.queryId && x.intent == h.intent && x.score == h.score
  }

  predicate DispositionRepeats(x: Disposition, spanId: string, d: PromotionDecision) {
    x.spanId == spanId && x.status == d.status && x.reason == d.reason && x.canonicalSpanId == d.canonicalSpanId
  }

  /** The record repeats the proposal of the decision, for the query's claim and the candidate's paper. */
  predicate RecordRepeats(e: Evidence, spanId: string, p: Chosen, claimId: string) {
    && e.spanId == spanId && e.claimId == claimId && e.paperId == p.hit.paperId && p.decision.evidence.Some?
    && var proposal := p.decision.evidence.value;
       e.relation == proposal.relation && e.summary == proposal.summary && e.quality == proposal.quality && e.note == proposal.note
  }

  /** Pair `i` of those chosen has a span and a disposition that repeat it and, exactly if it is assessed, one record. */
  ghost predicate PairRecorded(p: Chosen, x: RetrievedSpan, d: Disposition, es: seq<Evidence>, claimId: string) {
    && SpanRepeats(x, p.hit) && DispositionRepeats(d, x.spanId, p.decision)
    && (if p.decision.status.Assessed? then exists k :: OnlyRecord(es, k, x.spanId) && RecordRepeats(es[k], x.spanId, p, claimId)
        else forall l :: 0 <= l < |es| ==> es[l].spanId != x.spanId)
  }

  predicate OnlyRecord(es: seq<Evidence>, k: int, spanId: string) {
    0 <= k < |es| && forall l :: 0 <= l < |es| ==> (es[l].spanId == spanId <==> l == k)
  }

  /** The new records are those of the chosen pairs, in order, and no others. */
  ghost predicate Recorded(chosen: seq<Chosen>, claimId: string, spans: seq<RetrievedSpan>, ds: seq<Disposition>, es: seq<Evidence>) {
    && |spans| == |ds| == |chosen|
    && (forall i :: 0 <= i < |chosen| ==> PairRecorded(chosen[i], spans[i], ds[i], es, claimId))
    && (forall e :: e in es ==> AboutOne(e, spans))
  }

  ghost predicate AboutOne(e: Evidence, spans: seq<RetrievedSpan>) {
    exists i :: 0 <= i < |spans| && e.spanId == spans[i].spanId
  }

  lemma BuiltRecorded(chosen: seq<Chosen>, spanIds: seq<string>, evidenceIds: seq<string>, q: RetrievalQuery)
    requires PairsOk(chosen) && IdsFit(chosen, spanIds, evidenceIds) && NoRepeats(spanIds) && NoRepeats(evidenceIds)
    ensures Recorded(chosen, q.claimId, NewSpans(chosen, spanIds), NewDispositions(chosen, spanIds),
                     NewEvidence(chosen, spanIds, evidenceIds, q))
  {
    hide NewEvidence, AssessedCount, DecisionModelOk, PairRecorded;
    var spans, ds, es := NewSpans(chosen, spanIds), NewDispositions(chosen, spanIds), NewEvidence(chosen, spanIds, evidenceIds, q);
    forall i | 0 <= i < |chosen| ensures PairRecorded(chosen[i], spans[i], ds[i], es, q.claimId) {
      PairIsRecorded(chosen, spanIds, evidenceIds, q, i);
    }
    forall e | e in es ensures AboutOne(e, spans) {
      var l :| 0 <= l < |es| && es[l] == e;
      var i := NewEvidenceIndexed(chosen, spanIds, evidenceIds, q, l);
      assert es[l].spanId == spanIds[i] == spans[i].spanId;
    }
  }

  lemma PairIsRecorded(chosen: seq<Chosen>, spanIds: seq<string>, evidenceIds: seq<string>, q: RetrievalQuery, i: nat)
    requires PairsOk(chosen) && IdsFit(chosen, spanIds, evidenceIds) && NoRepeats(spanIds) && i < |chosen|
    ensures PairRecorded(chosen[i], NewSpans(chosen, spanIds)[i], NewDispositions(chosen, spanIds)[i],
                         NewEvidence(chosen, spanIds, evidenceIds, q), q.claimId)
  {
    hide NewEvidence, AssessedCount, DecisionModelOk;
    var es, p := NewEvidence(chosen, spanIds, evidenceIds, q), chosen[i];
    assert p in chosen;
    forall l | 0 <= l < |es| && es[l].spanId == spanIds[i]
      ensures p.decision.status.Assessed? && l == AssessedCount(chosen[..i])
    {
      var j := NewEvidenceIndexed(chosen, spanIds, evidenceIds, q, l);
      assert spanIds[j] == spanIds[i];
    }
    if p.decision.status.Assessed? {
      AssessedIsIndexed(chosen, i);
      var k := AssessedCount(chosen[..i]);
      var j := NewEvidenceIndexed(chosen, spanIds, evidenceIds, q, k);
      SameCountSamePair(chosen, i, j);
      assert OnlyRecord(es, k, spanIds[i]) && RecordRepeats(es[k], spanIds[i], p, q.claimId);
    }
  }
}
