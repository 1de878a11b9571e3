/** Queries, spans, dispositions and evidence records (validators.py). */
module RetrievalChecks {
  import opened Basics
  import opened Collecting
  import opened Cycles
  import opened Ids
  import opened Lookup
  import opened Snapshots

  /** SHA-256 of a claim's text. */
  type ClaimHash = string -> string

  // ---------------------------------------------------------------- queries and spans

  predicate QueryKeyOk(q: RetrievalQuery) {
    && ParseQueryId(q.queryId).Some?
    && var key := ParseQueryId(q.queryId).value;
       key.claimId == q.claimId && key.intent == q.intent && 1 <= key.ordinal <= 99
  }

  predicate QueryOk(q: RetrievalQuery, claims: map<string, Claim>, hash: ClaimHash) {
    && q.claimId in claims && q.claimHash == hash(claims[q.claimId].text)
    && QueryKeyOk(q)
  }

  predicate SpanOk(x: RetrievedSpan, queries: map<string, RetrievalQuery>, papers: map<string, Paper>) {
    && x.queryId in queries && x.intent == queries[x.queryId].intent
    && x.paperId in papers
  }

  predicate DispositionOk(d: Disposition, spans: map<string, RetrievedSpan>) {
    && d.spanId in spans
    && (d.canonicalSpanId.Some? ==>
          var target := d.canonicalSpanId.value;
          target in spans && target != d.spanId && spans[target].paperId == spans[d.spanId].paperId)
  }

  /** `canonical_edges`: the last reference given for a span wins. */
  function CanonicalEdges(dispositions: seq<Disposition>): map<string, string> {
    if dispositions == [] then map[]
    else
      var m := CanonicalEdges(dispositions[..|dispositions| - 1]);
      var d := dispositions[|dispositions| - 1];
      if d.canonicalSpanId.Some? then m[d.spanId := d.canonicalSpanId.value] else m
  }

  ghost predicate OneDisposition(x: RetrievedSpan, dispositions: seq<Disposition>) {
    |Matching(dispositions, DisposedSpanOf, x.spanId)| == 1
  }

  ghost predicate RetrievalClean(s: Snapshot, hash: ClaimHash) {
    var claims, queries := ById(s.claims, ClaimIdOf), ById(s.queries, QueryIdOf);
    var spans, papers := ById(s.spans, SpanIdOf), ById(s.papers, PaperIdOf);
    && UniqueIds(s.claims, ClaimIdOf) && UniqueIds(s.queries, QueryIdOf)
    && UniqueIds(s.spans, SpanIdOf) && UniqueIds(s.papers, PaperIdOf)
    && (forall q :: q in s.queries ==> QueryOk(q, claims, hash))
    && (forall x :: x in s.spans ==> SpanOk(x, queries, papers))
    && (forall d :: d in s.dispositions ==> DispositionOk(d, spans))
    && (forall x :: x in s.spans ==> OneDisposition(x, s.dispositions))
    && WellFounded(CanonicalEdges(s.dispositions))
  }

  method CheckQuery(q: RetrievalQuery, claims: map<string, Claim>, hash: ClaimHash, position: nat, c: Collector)
    modifies c
    ensures c.Ok() <==> old(c.Ok()) && QueryOk(q, claims, hash)
  {
    hide Collector.Ok, ParseQueryId;
    if q.claimId !in claims {
      c.AddError(InvalidReference, At(Queries, position));
    } else if q.claimHash != hash(claims[q.claimId].text) {
      c.AddError(CandidateClaimMutatedAfterRetrieval, At(Queries, position));
    }
    var parsed := ParseQueryId(q.queryId);
    match parsed
    case None =>
      c.AddError(QueryIdMismatch, At(Queries, position));
    case Some(key) =>
      if key.claimId != q.claimId {
        c.AddError(QueryIdMismatch, At(Queries, position));
      }
      if key.intent != q.intent {
        c.AddError(QueryIdMismatch, At(Queries, position));
      }
      if !(1 <= key.ordinal <= 99) {
        c.AddError(QueryIdMismatch, At(Queries, position));
      }
  }

  method CheckQueries(queries: seq<RetrievalQuery>, claims: map<string, Claim>, hash: ClaimHash, c: Collector)
    modifies c
    ensures c.Ok() <==> old(c.Ok()) && forall q :: q in queries ==> QueryOk(q, claims, hash)
  {
    hide Collector.Ok, QueryOk;
    var position := 0;
    while position < |queries|
      invariant 0 <= position <= |queries|
      invariant c.Ok() <==> old(c.Ok()) && forall k :: 0 <= k < position ==> QueryOk(queries[k], claims, hash)
    {
      CheckQuery(queries[position], claims, hash, position, c);
      position := position + 1;
    }
  }

  method CheckSpans(spans: seq<RetrievedSpan>, queries: map<string, RetrievalQuery>, papers: map<string, Paper>, c: Collector)
    modifies c
    ensures c.Ok() <==> old(c.Ok()) && forall x :: x in spans ==> SpanOk(x, queries, papers)
  {
    hide Collector.Ok;
    var position := 0;
    while position < |spans|
      invariant 0 <= position <= |spans|
      invariant c.Ok() <==> old(c.Ok()) && forall k :: 0 <= k < position ==> SpanOk(spans[k], queries, papers)
    {
      var x := spans[position];
      if x.queryId !in queries {
        c.AddError(InvalidReference, At(Spans, position));
      } else if x.intent != queries[x.queryId].intent {
        c.AddError(RetrievalIntentMismatch, At(Spans, position));
      }
      if x.paperId !in papers {
        c.AddError(InvalidReference, At(Spans, position));
      }
      position := position + 1;
    }
  }

  // ---------------------------------------------------------------- dispositions

  method CheckDisposition(d: Disposition, spans: map<string, RetrievedSpan>, position: nat, c: Collector)
    modifies c
    ensures c.Ok() <==> old(c.Ok()) && DispositionOk(d, spans)
  {
    hide Collector.Ok;
    var here := At(Dispositions, position);
    if d.spanId !in spans {
      c.AddError(InvalidReference, here);
    }
    if d.canonicalSpanId.Some? && d.canonicalSpanId.value !in spans {
      c.AddError(InvalidReference, here);
    }
    if d.canonicalSpanId.Some? {
      if d.canonicalSpanId.value == d.spanId {
        c.AddError(CanonicalSpanSelfReference, here);
      }
      if d.spanId in spans && d.canonicalSpanId.value in spans
         && spans[d.spanId].paperId != spans[d.canonicalSpanId.value].paperId {
        c.AddError(CanonicalSpanCrossPaper, here);
      }
    }
  }

  /** The loop over dispositions: checks each one, groups them by span and collects the references. */
  method CheckDispositions(dispositions: seq<Disposition>, spans: map<string, RetrievedSpan>, c: Collector)
    returns (bySpan: map<string, seq<Disposition>>, starts: seq<string>, edges: map<string, string>)
    modifies c
    ensures c.Ok() <==> old(c.Ok()) && forall d :: d in dispositions ==> DispositionOk(d, spans)
    ensures Groups(bySpan, dispositions, DisposedSpanOf)
    ensures edges == CanonicalEdges(dispositions) && forall x :: x in starts <==> x in edges
  {
    hide Collector.Ok, DispositionOk, Groups;
    bySpan, starts, edges := map[], [], map[];
    NothingGrouped(dispositions, DisposedSpanOf);
    var position := 0;
    while position < |dispositions|
      invariant 0 <= position <= |dispositions|
      invariant c.Ok() <==> old(c.Ok()) && forall k :: 0 <= k < position ==> DispositionOk(dispositions[k], spans)
      invariant Groups(bySpan, dispositions[..position], DisposedSpanOf)
      invariant edges == CanonicalEdges(dispositions[..position]) && forall x :: x in starts <==> x in edges
    {
      var d := dispositions[position];
      GroupsSnoc(bySpan, dispositions, position, DisposedSpanOf);
      assert dispositions[..position + 1][..position] == dispositions[..position];
      bySpan := Append(bySpan, d.spanId, d);
      CheckDisposition(d, spans, position, c);
      if d.canonicalSpanId.Some? {
        if d.spanId !in edges {
          starts := starts + [d.spanId];
        }
        edges := edges[d.spanId := d.canonicalSpanId.value];
      }
      position := position + 1;
    }
    assert dispositions[..position] == dispositions;
  }

  function CycleIssue(start: string): Issue {
    Issue(Error, CanonicalSpanCycle, Of(Dispositions, start))
  }

  /** Reports a cycle at a start exactly when following references from it never ends. */
  method CheckCanonicalCycles(starts: seq<string>, edges: map<string, string>, c: Collector)
    requires forall x :: x in starts <==> x in edges
    modifies c
    ensures old(c.issues) <= c.issues
    ensures forall x :: CycleIssue(x) in c.issues[|old(c.issues)|..] <==> x in edges && NeverEnds(edges, x)
    ensures c.Ok() <==> old(c.Ok()) && WellFounded(edges)
  {
    hide Collector.Ok, NeverEnds;
    ghost var n := |c.issues|;
    var i := 0;
    while i < |starts|
      invariant 0 <= i <= |starts|
      invariant old(c.issues) <= c.issues
      invariant forall x :: CycleIssue(x) in c.issues[n..] <==> x in starts[..i] && NeverEnds(edges, x)
      invariant c.Ok() <==> old(c.Ok()) && forall k :: 0 <= k < i ==> !NeverEnds(edges, starts[k])
    {
      assert starts[..i + 1] == starts[..i] + [starts[i]];
      var cyclic := WalkFindsCycle(edges, starts[i]);
      if cyclic {
        ghost var before := c.issues;
        c.AddError(CanonicalSpanCycle, Of(Dispositions, starts[i]));
        assert c.issues[n..] == before[n..] + [CycleIssue(starts[i])];
      }
      i := i + 1;
    }
    assert starts[..i] == starts;
  }

  /** `_collect_retrieval_bundle`. */
  method CollectRetrieval(s: Snapshot, hash: ClaimHash, c: Collector)
    modifies c
    ensures c.Ok() <==> old(c.Ok()) && RetrievalClean(s, hash)
  {
    hide Collector.Ok, UniqueIds, ById, QueryOk, SpanOk, DispositionOk, WellFounded, CanonicalEdges, Groups, Matching;
    var _, claims := Index(s.claims, ClaimIdOf, Claims, c);
    var _, queries := Index(s.queries, QueryIdOf, Queries, c);
    var ids, spans := Index(s.spans, SpanIdOf, Spans, c);
    var _, papers := Index(s.papers, PaperIdOf, Papers, c);
    CheckQueries(s.queries, claims, hash, c);
    CheckSpans(s.spans, queries, papers, c);
    var bySpan, starts, edges := CheckDispositions(s.dispositions, spans, c);
    CheckOneEach(ids, bySpan, Spans, c);
    OneEach(ids, s.spans, SpanIdOf, bySpan, s.dispositions, DisposedSpanOf);
    CheckCanonicalCycles(starts, edges, c);
  }

  // ---------------------------------------------------------------- evidence

  function EvidenceClaimOf(x: Evidence): string { x.claimId }

  /** The only disposition of the span says that it was assessed. */
  ghost predicate SolelyAssessed(dispositions: seq<Disposition>, spanId: string) {
    var ds := Matching(dispositions, DisposedSpanOf, spanId);
    |ds| == 1 && ds[0].status.Assessed?
  }

  ghost predicate EvidenceOk(e: Evidence, claims: map<string, Claim>, queries: map<string, RetrievalQuery>,
                             spans: map<string, RetrievedSpan>, dispositions: seq<Disposition>) {
    && e.claimId in claims && e.spanId in spans
    && var x := spans[e.spanId];
       && x.queryId in queries && e.claimId == queries[x.queryId].claimId && e.paperId == x.paperId
       && SolelyAssessed(dispositions, x.spanId)
  }

  /** The records about a span that belong to the claim of its query. */
  function Relevant(records: seq<Evidence>, x: RetrievedSpan, queries: map<string, RetrievalQuery>): seq<Evidence> {
    if x.queryId in queries then Matching(records, EvidenceClaimOf, queries[x.queryId].claimId) else []
  }

  ghost predicate SpanEvidenceOk(x: RetrievedSpan, queries: map<string, RetrievalQuery>,
                                 dispositions: seq<Disposition>, evidence: seq<Evidence>) {
    var ds, records := Matching(dispositions, DisposedSpanOf, x.spanId), Matching(evidence, EvidenceSpanOf, x.spanId);
    |ds| == 1 ==> if ds[0].status.Assessed? then |Relevant(records, x, queries)| == 1 else records == []
  }

  ghost predicate EvidenceClean(s: Snapshot) {
    var claims, queries, spans := ById(s.claims, ClaimIdOf), ById(s.queries, QueryIdOf), ById(s.spans, SpanIdOf);
    && UniqueIds(s.claims, ClaimIdOf) && UniqueIds(s.queries, QueryIdOf)
    && UniqueIds(s.spans, SpanIdOf) && UniqueIds(s.evidence, EvidenceIdOf)
    && (forall e :: e in s.evidence ==> EvidenceOk(e, claims, queries, spans, s.dispositions))
    && (forall x :: x in s.spans ==> SpanEvidenceOk(x, queries, s.dispositions, s.evidence))
  }

  method CheckEvidence(e: Evidence, claims: map<string, Claim>, queries: map<string, RetrievalQuery>,
                       spans: map<string, RetrievedSpan>, bySpan: map<string, seq<Disposition>>,
                       ghost dispositions: seq<Disposition>, position: nat, c: Collector)
    requires Groups(bySpan, dispositions, DisposedSpanOf)
    modifies c
    ensures c.Ok() <==> old(c.Ok()) && EvidenceOk(e, claims, queries, spans, dispositions)
  {
    hide Collector.Ok, Matching;
    var here := At(EvidenceRecords, position);
    if e.claimId !in claims {
      c.AddError(InvalidReference, here);
    }
    if e.spanId !in spans {
      c.AddError(InvalidReference, here);
      return;
    }
    var x := spans[e.spanId];
    if x.queryId !in queries {
      c.AddError(InvalidReference, Of(Spans, x.spanId));
    } else if e.claimId != queries[x.queryId].claimId {
      c.AddError(EvidenceClaimMismatch, here);
    }
    if e.paperId != x.paperId {
      c.AddError(EvidencePaperMismatch, here);
    }
    var ds := Group(bySpan, x.spanId);
    if |ds| != 1 || !ds[0].status.Assessed? {
      c.AddError(DiscardedSpanHasEvidence, here);
    }
  }

  method CheckEvidenceRecords(s: Snapshot, claims: map<string, Claim>, queries: map<string, RetrievalQuery>,
                              spans: map<string, RetrievedSpan>, bySpan: map<string, seq<Disposition>>, c: Collector)
    returns (evidenceBySpan: map<string, seq<Evidence>>)
    requires Groups(bySpan, s.dispositions, DisposedSpanOf)
    modifies c
    ensures c.Ok() <==> (old(c.Ok())
      && forall e :: e in s.evidence ==> EvidenceOk(e, claims, queries, spans, s.dispositions))
    ensures Groups(evidenceBySpan, s.evidence, EvidenceSpanOf)
  {
    hide Collector.Ok, EvidenceOk, Groups;
    evidenceBySpan := map[];
    NothingGrouped(s.evidence, EvidenceSpanOf);
    var position := 0;
    while position < |s.evidence|
      invariant 0 <= position <= |s.evidence|
      invariant c.Ok() <==> (old(c.Ok())
        && forall k :: 0 <= k < position ==> EvidenceOk(s.evidence[k], claims, queries, spans, s.dispositions))
      invariant Groups(evidenceBySpan, s.evidence[..position], EvidenceSpanOf)
    {
      var e := s.evidence[position];
      GroupsSnoc(evidenceBySpan, s.evidence, position, EvidenceSpanOf);
      evidenceBySpan := Append(evidenceBySpan, e.spanId, e);
      CheckEvidence(e, claims, queries, spans, bySpan, s.dispositions, position, c);
      position := position + 1;
    }
    assert s.evidence[..position] == s.evidence;
  }

  method CheckSpanEvidence(x: RetrievedSpan, queries: map<string, RetrievalQuery>, ds: seq<Disposition>,
                           records: seq<Evidence>, c: Collector)
    modifies c
    ensures c.Ok() <==> old(c.Ok()) && (|ds| == 1 ==>
              if ds[0].status.Assessed? then |Relevant(records, x, queries)| == 1 else records == [])
  {
    hide Collector.Ok, Matching;
    if |ds| != 1 {
      return;
    }
    if ds[0].status.Assessed? {
      if |Relevant(records, x, queries)| != 1 {
        c.AddError(AssessedSpanEvidenceCardinality, Of(Spans, x.spanId));
      }
    } else if records != [] {
      c.AddError(DiscardedSpanHasEvidence, Of(Spans, x.spanId));
    }
  }

  method CheckSpansEvidence(s: Snapshot, queries: map<string, RetrievalQuery>, bySpan: map<string, seq<Disposition>>,
                            evidenceBySpan: map<string, seq<Evidence>>, c: Collector)
    requires Groups(bySpan, s.dispositions, DisposedSpanOf)
    requires Groups(evidenceBySpan, s.evidence, EvidenceSpanOf)
    modifies c
    ensures c.Ok() <==> old(c.Ok()) && forall x :: x in s.spans ==> SpanEvidenceOk(x, queries, s.dispositions, s.evidence)
  {
    hide Collector.Ok, Relevant, Matching;
    var position := 0;
    while position < |s.spans|
      invariant 0 <= position <= |s.spans|
      invariant c.Ok() <==> (old(c.Ok())
        && forall k :: 0 <= k < position ==> SpanEvidenceOk(s.spans[k], queries, s.dispositions, s.evidence))
    {
      var x := s.spans[position];
      CheckSpanEvidence(x, queries, Group(bySpan, x.spanId), Group(evidenceBySpan, x.spanId), c);
      position := position + 1;
    }
  }

  /** `_collect_evidence_bundle`. */
  method CollectEvidence(s: Snapshot, c: Collector)
    modifies c
    ensures c.Ok() <==> old(c.Ok()) && EvidenceClean(s)
  {
    hide Collector.Ok, UniqueIds, ById, EvidenceOk, SpanEvidenceOk, Groups;
    var _, claims := Index(s.claims, ClaimIdOf, Claims, c);
    var _, queries := Index(s.queries, QueryIdOf, Queries, c);
    var _, spans := Index(s.spans, SpanIdOf, Spans, c);
    var _, _ := Index(s.evidence, EvidenceIdOf, EvidenceRecords, c);
    var bySpan := GroupBy(s.dispositions, DisposedSpanOf);
    var evidenceBySpan := CheckEvidenceRecords(s, claims, queries, spans, bySpan, c);
    CheckSpansEvidence(s, queries, bySpan, evidenceBySpan, c);
  }
}
