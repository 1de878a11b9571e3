/** Promotion preserves validity: adding coupled records to a clean snapshot leaves it clean. */
module PromotionValidity {
  import opened Basics
  import opened ClaimChecks
  import opened Cycles
  import opened Lookup
  import opened PromotionBuild
  import opened ProseChecks
  import opened RegistryChecks
  import opened RetrievalChecks
  import opened Snapshots
  import opened Validators

  function Extended(s: Snapshot, spans: seq<RetrievedSpan>, ds: seq<Disposition>, es: seq<Evidence>): Snapshot {
    s.(spans := s.spans + spans, dispositions := s.dispositions + ds, evidence := s.evidence + es)
  }

  // ---------------------------------------------------------------- dictionaries and groups

  lemma SpansExtend(s: Snapshot, q: RetrievalQuery, spans: seq<RetrievedSpan>)
    requires UniqueIds(s.spans, SpanIdOf) && NewSpansOk(s, q, spans)
    ensures UniqueIds(s.spans + spans, SpanIdOf)
    ensures ById(s.spans + spans, SpanIdOf) == ById(s.spans, SpanIdOf) + ById(spans, SpanIdOf)
  {
    hide ById;
    UniqueConcat(s.spans, spans, SpanIdOf);
    ByIdConcat(s.spans, spans, SpanIdOf);
  }

  lemma {:induction false} UniqueMatch<T(!new)>(xs: seq<T>, key: T -> string, x: T)
    requires UniqueIds(xs, key) && x in xs
    ensures Matching(xs, key, key(x)) == [x]
  {
    var n := |xs| - 1;
    assert xs == xs[..n] + [xs[n]];
    if x == xs[n] {
      forall y | y in xs[..n] ensures key(y) != key(x) {
      }
      NoMatch(xs[..n], key, key(x));
    } else {
      assert forall i, j :: 0 <= i < j < n ==> xs[..n][i] == xs[i] && xs[..n][j] == xs[j];
      UniqueMatch(xs[..n], key, x);
      assert key(xs[n]) != key(x);
    }
  }

  lemma DispositionIdsUnique(s: Snapshot, q: RetrievalQuery, spans: seq<RetrievedSpan>, ds: seq<Disposition>)
    requires NewSpansOk(s, q, spans) && NewDispositionsOk(s, spans, ds)
    ensures UniqueIds(ds, DisposedSpanOf)
    ensures forall d :: d in ds ==> d.spanId in ById(spans, SpanIdOf) && d.spanId !in ById(s.spans, SpanIdOf)
  {
    hide ById;
    forall i, j | 0 <= i < j < |ds| ensures DisposedSpanOf(ds[i]) != DisposedSpanOf(ds[j]) {
      assert SpanIdOf(spans[i]) != SpanIdOf(spans[j]);
    }
    forall d | d in ds ensures d.spanId in ById(spans, SpanIdOf) && d.spanId !in ById(s.spans, SpanIdOf) {
      var i :| 0 <= i < |ds| && ds[i] == d;
      assert spans[i] in spans;
      ByIdHas(spans, SpanIdOf, spans[i]);
    }
  }

  /** Dispositions of old spans stay what they were. */
  lemma OldMatches(s: Snapshot, q: RetrievalQuery, spans: seq<RetrievedSpan>, ds: seq<Disposition>, id: string)
    requires NewSpansOk(s, q, spans) && NewDispositionsOk(s, spans, ds) && id in ById(s.spans, SpanIdOf)
    ensures Matching(s.dispositions + ds, DisposedSpanOf, id) == Matching(s.dispositions, DisposedSpanOf, id)
  {
    hide ById, Matching;
    DispositionIdsUnique(s, q, spans, ds);
    NoMatch(ds, DisposedSpanOf, id);
    MatchingConcat(s.dispositions, ds, DisposedSpanOf, id);
    assert Matching(s.dispositions, DisposedSpanOf, id) + [] == Matching(s.dispositions, DisposedSpanOf, id);
  }

  /** A new span has exactly its own disposition. */
  lemma NewMatch(s: Snapshot, q: RetrievalQuery, spans: seq<RetrievedSpan>, ds: seq<Disposition>, i: nat)
    requires NewSpansOk(s, q, spans) && NewDispositionsOk(s, spans, ds) && i < |spans|
    requires forall d :: d in s.dispositions ==> d.spanId in ById(s.spans, SpanIdOf)
    ensures Matching(s.dispositions + ds, DisposedSpanOf, spans[i].spanId) == [ds[i]]
  {
    hide ById, Matching;
    DispositionIdsUnique(s, q, spans, ds);
    assert spans[i] in spans && ds[i] in ds;
    NoMatch(s.dispositions, DisposedSpanOf, spans[i].spanId);
    UniqueMatch(ds, DisposedSpanOf, ds[i]);
    MatchingConcat(s.dispositions, ds, DisposedSpanOf, spans[i].spanId);
    assert [] + [ds[i]] == [ds[i]];
  }

  // ---------------------------------------------------------------- retrieval

  lemma {:induction false} EdgesConcat(xs: seq<Disposition>, ys: seq<Disposition>)
    ensures CanonicalEdges(xs + ys) == CanonicalEdges(xs) + CanonicalEdges(ys)
  {
    if ys == [] {
      assert xs + ys == xs;
    } else {
      var n := |ys| - 1;
      EdgesConcat(xs, ys[..n]);
      assert (xs + ys)[..|xs + ys| - 1] == xs + ys[..n];
    }
  }

  lemma {:induction false} EdgesMember(xs: seq<Disposition>, id: string)
    requires id in CanonicalEdges(xs)
    ensures exists d :: d in xs && d.spanId == id && d.canonicalSpanId == Some(CanonicalEdges(xs)[id])
  {
    var n := |xs| - 1;
    if xs[n].canonicalSpanId.Some? && xs[n].spanId == id {
      assert xs[n] in xs;
    } else {
      EdgesMember(xs[..n], id);
      var d :| d in xs[..n] && d.spanId == id && d.canonicalSpanId == Some(CanonicalEdges(xs[..n])[id]);
      assert d in xs;
    }
  }

  /** References from new spans to old ones close no cycle. */
  lemma EdgesStayWellFounded(s: Snapshot, q: RetrievalQuery, spans: seq<RetrievedSpan>, ds: seq<Disposition>)
    requires NewSpansOk(s, q, spans) && NewDispositionsOk(s, spans, ds)
    requires forall d :: d in s.dispositions ==> DispositionOk(d, ById(s.spans, SpanIdOf))
    requires WellFounded(CanonicalEdges(s.dispositions))
    ensures WellFounded(CanonicalEdges(s.dispositions + ds))
  {
    hide ById, CanonicalEdges, WellFounded;
    var before, added := CanonicalEdges(s.dispositions), CanonicalEdges(ds);
    var ids := ById(spans, SpanIdOf).Keys;
    EdgesConcat(s.dispositions, ds);
    DispositionIdsUnique(s, q, spans, ds);
    forall id | id in before ensures id in ById(s.spans, SpanIdOf) && before[id] in ById(s.spans, SpanIdOf) {
      EdgesMember(s.dispositions, id);
    }
    forall id | id in added ensures id in ids && id !in ById(s.spans, SpanIdOf) && added[id] in ById(s.spans, SpanIdOf) {
      EdgesMember(ds, id);
    }
    NewNotOld(s, q, spans);
    ExtensionWellFounded(before, before + added, ids);
  }

  lemma NewNotOld(s: Snapshot, q: RetrievalQuery, spans: seq<RetrievedSpan>)
    requires NewSpansOk(s, q, spans)
    ensures ById(spans, SpanIdOf).Keys !! ById(s.spans, SpanIdOf).Keys
  {
    forall id | id in ById(spans, SpanIdOf) ensures id !in ById(s.spans, SpanIdOf) {
      ByIdMember(spans, SpanIdOf, id);
    }
  }

  lemma RetrievalStaysClean(s: Snapshot, hash: ClaimHash, q: RetrievalQuery, spans: seq<RetrievedSpan>, ds: seq<Disposition>,
                            es: seq<Evidence>)
    requires RetrievalClean(s, hash) && q in s.queries && NewSpansOk(s, q, spans) && NewDispositionsOk(s, spans, ds)
    ensures RetrievalClean(Extended(s, spans, ds, es), hash)
  {
    hide ById, QueryOk, WellFounded, CanonicalEdges, Matching, UniqueIds;
    SpansExtend(s, q, spans);
    ByIdFinds(s.queries, QueryIdOf, q);
    EdgesStayWellFounded(s, q, spans, ds);
    var all := s.spans + spans;
    forall x | x in all ensures OneDisposition(x, s.dispositions + ds) {
      if x in s.spans {
        ByIdHas(s.spans, SpanIdOf, x);
        OldMatches(s, q, spans, ds, x.spanId);
        assert OneDisposition(x, s.dispositions);
      } else {
        var i :| 0 <= i < |spans| && spans[i] == x;
        NewMatch(s, q, spans, ds, i);
      }
    }
    forall d | d in s.dispositions + ds ensures DispositionOk(d, ById(all, SpanIdOf)) {
      if d in s.dispositions {
        OldDispositionOk(s, q, spans, d);
      } else {
        NewDispositionOk(s, q, spans, ds, d);
      }
    }
  }

  lemma OldDispositionOk(s: Snapshot, q: RetrievalQuery, spans: seq<RetrievedSpan>, d: Disposition)
    requires UniqueIds(s.spans, SpanIdOf) && NewSpansOk(s, q, spans) && DispositionOk(d, ById(s.spans, SpanIdOf))
    ensures DispositionOk(d, ById(s.spans + spans, SpanIdOf))
  {
    hide ById, UniqueIds;
    SpansExtend(s, q, spans);
    NewNotOld(s, q, spans);
  }

  lemma NewDispositionOk(s: Snapshot, q: RetrievalQuery, spans: seq<RetrievedSpan>, ds: seq<Disposition>, d: Disposition)
    requires UniqueIds(s.spans, SpanIdOf) && NewSpansOk(s, q, spans) && NewDispositionsOk(s, spans, ds) && d in ds
    ensures DispositionOk(d, ById(s.spans + spans, SpanIdOf))
  {
    hide ById, UniqueIds;
    SpansExtend(s, q, spans);
    NewNotOld(s, q, spans);
    var i :| 0 <= i < |ds| && ds[i] == d;
    assert spans[i] in spans;
    ByIdFinds(spans, SpanIdOf, spans[i]);
  }

  // ---------------------------------------------------------------- evidence

  lemma EvidenceExtends(s: Snapshot, es: seq<Evidence>)
    requires UniqueIds(s.evidence, EvidenceIdOf) && UniqueIds(es, EvidenceIdOf)
    requires forall e :: e in es ==> e.evidenceId !in ById(s.evidence, EvidenceIdOf)
    ensures UniqueIds(s.evidence + es, EvidenceIdOf)
    ensures ById(s.evidence + es, EvidenceIdOf) == ById(s.evidence, EvidenceIdOf) + ById(es, EvidenceIdOf)
    ensures ById(s.evidence, EvidenceIdOf).Keys !! ById(es, EvidenceIdOf).Keys
  {
    hide ById;
    UniqueConcat(s.evidence, es, EvidenceIdOf);
    ByIdConcat(s.evidence, es, EvidenceIdOf);
    forall id | id in ById(es, EvidenceIdOf) ensures id !in ById(s.evidence, EvidenceIdOf) {
      ByIdMember(es, EvidenceIdOf, id);
    }
  }

  lemma OldEvidenceOk(s: Snapshot, q: RetrievalQuery, spans: seq<RetrievedSpan>, ds: seq<Disposition>, e: Evidence)
    requires UniqueIds(s.spans, SpanIdOf) && NewSpansOk(s, q, spans) && NewDispositionsOk(s, spans, ds)
    requires EvidenceOk(e, ById(s.claims, ClaimIdOf), ById(s.queries, QueryIdOf), ById(s.spans, SpanIdOf), s.dispositions)
    ensures EvidenceOk(e, ById(s.claims, ClaimIdOf), ById(s.queries, QueryIdOf), ById(s.spans + spans, SpanIdOf),
                       s.dispositions + ds)
  {
    hide ById, Matching, UniqueIds;
    SpansExtend(s, q, spans);
    NewNotOld(s, q, spans);
    SpanNamed(s, e.spanId);
    OldMatches(s, q, spans, ds, e.spanId);
  }

  lemma SpanNamed(s: Snapshot, id: string)
    requires id in ById(s.spans, SpanIdOf)
    ensures ById(s.spans, SpanIdOf)[id].spanId == id
  {
    ByIdMember(s.spans, SpanIdOf, id);
  }

  lemma NewEvidenceRecordOk(s: Snapshot, hash: ClaimHash, q: RetrievalQuery, spans: seq<RetrievedSpan>, ds: seq<Disposition>,
                            es: seq<Evidence>, e: Evidence)
    requires RetrievalClean(s, hash) && q in s.queries && Coupled(s, q, spans, ds, es) && e in es
    ensures EvidenceOk(e, ById(s.claims, ClaimIdOf), ById(s.queries, QueryIdOf), ById(s.spans + spans, SpanIdOf),
                       s.dispositions + ds)
  {
    hide ById, UniqueIds, QueryOk, WellFounded, CanonicalEdges, OneDisposition, NewSpansOk, SolelyAssessed;
    QueryFound(s, hash, q);
    assert QueryOk(q, ById(s.claims, ClaimIdOf), hash);
    ClaimOfQuery(q, ById(s.claims, ClaimIdOf), hash);
    var i := AssessedSpanOf(s, spans, ds, e);
    NewSpanFound(s, q, spans, i);
    NewSolelyAssessed(s, q, spans, ds, i);
  }

  lemma ClaimOfQuery(q: RetrievalQuery, claims: map<string, Claim>, hash: ClaimHash)
    requires QueryOk(q, claims, hash)
    ensures q.claimId in claims
  {
  }

  lemma AssessedSpanOf(s: Snapshot, spans: seq<RetrievedSpan>, ds: seq<Disposition>, e: Evidence) returns (i: nat)
    requires |ds| == |spans| && AboutAssessed(e, spans, ds)
    ensures i < |spans| && e.spanId == spans[i].spanId && e.paperId == spans[i].paperId && ds[i].status.Assessed?
  {
    var k :| 0 <= k < |spans| && e.spanId == spans[k].spanId && e.paperId == spans[k].paperId && ds[k].status.Assessed?;
    i := k;
  }

  lemma NewSpanFound(s: Snapshot, q: RetrievalQuery, spans: seq<RetrievedSpan>, i: nat)
    requires UniqueIds(s.spans, SpanIdOf) && NewSpansOk(s, q, spans) && i < |spans|
    ensures var all := ById(s.spans + spans, SpanIdOf); spans[i].spanId in all && all[spans[i].spanId] == spans[i]
    ensures spans[i].queryId == q.queryId
  {
    hide ById;
    SpansExtend(s, q, spans);
    assert (s.spans + spans)[|s.spans| + i] == spans[i];
    ByIdFinds(s.spans + spans, SpanIdOf, spans[i]);
  }

  lemma NewSolelyAssessed(s: Snapshot, q: RetrievalQuery, spans: seq<RetrievedSpan>, ds: seq<Disposition>, i: nat)
    requires NewSpansOk(s, q, spans) && NewDispositionsOk(s, spans, ds) && i < |spans| && ds[i].status.Assessed?
    requires forall d :: d in s.dispositions ==> DispositionOk(d, ById(s.spans, SpanIdOf))
    ensures SolelyAssessed(s.dispositions + ds, spans[i].spanId)
  {
    hide ById, Matching, NewSpansOk;
    NewMatch(s, q, spans, ds, i);
  }

  /** Records about old spans stay what they were. */
  lemma OldRecords(s: Snapshot, q: RetrievalQuery, spans: seq<RetrievedSpan>, ds: seq<Disposition>, es: seq<Evidence>, id: string)
    requires Coupled(s, q, spans, ds, es) && id in ById(s.spans, SpanIdOf)
    ensures Matching(s.evidence + es, EvidenceSpanOf, id) == Matching(s.evidence, EvidenceSpanOf, id)
  {
    hide ById, Matching, UniqueIds;
    forall e | e in es ensures EvidenceSpanOf(e) != id {
      assert AboutAssessed(e, spans, ds);
      var i :| 0 <= i < |spans| && e.spanId == spans[i].spanId;
      assert spans[i] in spans;
    }
    NoMatch(es, EvidenceSpanOf, id);
    MatchingConcat(s.evidence, es, EvidenceSpanOf, id);
    assert Matching(s.evidence, EvidenceSpanOf, id) + [] == Matching(s.evidence, EvidenceSpanOf, id);
  }

  /** Records about a new span are new. */
  lemma NewRecords(s: Snapshot, q: RetrievalQuery, spans: seq<RetrievedSpan>, es: seq<Evidence>, x: RetrievedSpan)
    requires EvidenceClean(s) && NewSpansOk(s, q, spans) && x in spans
    ensures Matching(s.evidence + es, EvidenceSpanOf, x.spanId) == Matching(es, EvidenceSpanOf, x.spanId)
  {
    hide ById, Matching, UniqueIds, SpanEvidenceOk, SolelyAssessed;
    forall e | e in s.evidence ensures EvidenceSpanOf(e) != x.spanId {
      assert EvidenceOk(e, ById(s.claims, ClaimIdOf), ById(s.queries, QueryIdOf), ById(s.spans, SpanIdOf), s.dispositions);
    }
    NoMatch(s.evidence, EvidenceSpanOf, x.spanId);
    MatchingConcat(s.evidence, es, EvidenceSpanOf, x.spanId);
    assert [] + Matching(es, EvidenceSpanOf, x.spanId) == Matching(es, EvidenceSpanOf, x.spanId);
  }

  /** The new evidence about one new span: a single record if it was assessed, none otherwise. */
  lemma RecordsOfNewSpan(s: Snapshot, q: RetrievalQuery, spans: seq<RetrievedSpan>, ds: seq<Disposition>, es: seq<Evidence>, i: nat)
    requires Coupled(s, q, spans, ds, es) && i < |spans|
    ensures !ds[i].status.Assessed? ==> Matching(es, EvidenceSpanOf, spans[i].spanId) == []
    ensures ds[i].status.Assessed? ==>
              var records := Matching(es, EvidenceSpanOf, spans[i].spanId); |records| == 1 && records[0].claimId == q.claimId
  {
    hide ById, Matching;
    if ds[i].status.Assessed? {
      var e :| e in es && e.spanId == spans[i].spanId;
      UniqueMatch(es, EvidenceSpanOf, e);
    } else {
      forall e | e in es ensures EvidenceSpanOf(e) != spans[i].spanId {
        assert AboutAssessed(e, spans, ds);
        var j :| 0 <= j < |spans| && e.spanId == spans[j].spanId && ds[j].status.Assessed?;
        assert i != j ==> SpanIdOf(spans[i]) != SpanIdOf(spans[j]);
      }
      NoMatch(es, EvidenceSpanOf, spans[i].spanId);
    }
  }

  lemma NewSpanEvidenceOk(s: Snapshot, hash: ClaimHash, q: RetrievalQuery, spans: seq<RetrievedSpan>, ds: seq<Disposition>,
                          es: seq<Evidence>, i: nat)
    requires RetrievalClean(s, hash) && EvidenceClean(s) && q in s.queries && Coupled(s, q, spans, ds, es) && i < |spans|
    ensures SpanEvidenceOk(spans[i], ById(s.queries, QueryIdOf), s.dispositions + ds, s.evidence + es)
  {
    hide ById, UniqueIds, EvidenceClean, NewEvidenceOk, WellFounded, CanonicalEdges, QueryOk, SpanOk, OneDisposition;
    assert spans[i] in spans;
    QueryFound(s, hash, q);
    NewMatch(s, q, spans, ds, i);
    NewRecords(s, q, spans, es, spans[i]);
    RecordsOfNewSpan(s, q, spans, ds, es, i);
    SingleRelevant(Matching(es, EvidenceSpanOf, spans[i].spanId), spans[i], q, ById(s.queries, QueryIdOf));
  }

  lemma QueryFound(s: Snapshot, hash: ClaimHash, q: RetrievalQuery)
    requires RetrievalClean(s, hash) && q in s.queries
    ensures q.queryId in ById(s.queries, QueryIdOf) && ById(s.queries, QueryIdOf)[q.queryId] == q
  {
    hide ById;
    ByIdFinds(s.queries, QueryIdOf, q);
  }

  lemma SingleRelevant(records: seq<Evidence>, x: RetrievedSpan, q: RetrievalQuery, queries: map<string, RetrievalQuery>)
    requires q.queryId in queries && queries[q.queryId] == q && x.queryId == q.queryId
    ensures |records| == 1 && records[0].claimId == q.claimId ==> |Relevant(records, x, queries)| == 1
  {
    if |records| == 1 && records[0].claimId == q.claimId {
      assert records == [records[0]];
      assert Matching(records[..0], EvidenceClaimOf, q.claimId) == [];
    }
  }

  lemma OldSpanEvidenceOk(s: Snapshot, q: RetrievalQuery, spans: seq<RetrievedSpan>, ds: seq<Disposition>, es: seq<Evidence>,
                          x: RetrievedSpan)
    requires Coupled(s, q, spans, ds, es) && x in s.spans
    requires SpanEvidenceOk(x, ById(s.queries, QueryIdOf), s.dispositions, s.evidence)
    ensures SpanEvidenceOk(x, ById(s.queries, QueryIdOf), s.dispositions + ds, s.evidence + es)
  {
    hide ById, Matching, UniqueIds, NewEvidenceOk, NewSpansOk, NewDispositionsOk, Relevant;
    ByIdHas(s.spans, SpanIdOf, x);
    OldMatches(s, q, spans, ds, x.spanId);
    OldRecords(s, q, spans, ds, es, x.spanId);
  }

  lemma EvidenceStaysClean(s: Snapshot, hash: ClaimHash, q: RetrievalQuery, spans: seq<RetrievedSpan>, ds: seq<Disposition>,
                           es: seq<Evidence>)
    requires RetrievalClean(s, hash) && EvidenceClean(s) && q in s.queries && Coupled(s, q, spans, ds, es)
    ensures EvidenceClean(Extended(s, spans, ds, es))
  {
    hide ById, Matching, UniqueIds, RetrievalClean, SpanEvidenceOk, EvidenceOk, AboutAssessed, NewDispositionsOk;
    SpansExtend(s, q, spans);
    EvidenceExtends(s, es);
    var claims, queries := ById(s.claims, ClaimIdOf), ById(s.queries, QueryIdOf);
    forall e | e in s.evidence + es ensures EvidenceOk(e, claims, queries, ById(s.spans + spans, SpanIdOf), s.dispositions + ds) {
      if e in s.evidence {
        OldEvidenceOk(s, q, spans, ds, e);
      } else {
        NewEvidenceRecordOk(s, hash, q, spans, ds, es, e);
      }
    }
    forall x | x in s.spans + spans ensures SpanEvidenceOk(x, queries, s.dispositions + ds, s.evidence + es) {
      if x in s.spans {
        OldSpanEvidenceOk(s, q, spans, ds, es, x);
      } else {
        var i :| 0 <= i < |spans| && spans[i] == x;
        NewSpanEvidenceOk(s, hash, q, spans, ds, es, i);
      }
    }
  }

  // ---------------------------------------------------------------- aggregates and closure

  lemma OldCpeOk(s: Snapshot, es: seq<Evidence>, x: Cpe)
    requires UniqueIds(s.evidence, EvidenceIdOf) && UniqueIds(es, EvidenceIdOf)
    requires forall e :: e in es ==> e.evidenceId !in ById(s.evidence, EvidenceIdOf)
    requires CpeOk(x, ById(s.claims, ClaimIdOf), ById(s.papers, PaperIdOf), ById(s.evidence, EvidenceIdOf))
    ensures CpeOk(x, ById(s.claims, ClaimIdOf), ById(s.papers, PaperIdOf), ById(s.evidence + es, EvidenceIdOf))
  {
    hide ById, PartitionOk, UniqueIds;
    EvidenceExtends(s, es);
    forall r: Relation ensures GroupOk(r, x, ById(s.evidence + es, EvidenceIdOf)) {
      assert GroupOk(r, x, ById(s.evidence, EvidenceIdOf));
    }
  }

  lemma AggregatesStayClean(s: Snapshot, q: RetrievalQuery, spans: seq<RetrievedSpan>, ds: seq<Disposition>, es: seq<Evidence>)
    requires AggregatesClean(s) && Coupled(s, q, spans, ds, es)
    ensures AggregatesClean(Extended(s, spans, ds, es))
  {
    hide ById, CpeOk, UniqueIds, NewSpansOk, NewDispositionsOk, AboutAssessed;
    EvidenceExtends(s, es);
    forall x | x in s.cpes
      ensures CpeOk(x, ById(s.claims, ClaimIdOf), ById(s.papers, PaperIdOf), ById(s.evidence + es, EvidenceIdOf))
    {
      OldCpeOk(s, es, x);
    }
  }

  /** Claims that have a packet gain no evidence. */
  lemma ClosureStaysClean(s: Snapshot, q: RetrievalQuery, spans: seq<RetrievedSpan>, ds: seq<Disposition>, es: seq<Evidence>)
    requires ClosureClean(s) && Coupled(s, q, spans, ds, es)
    ensures ClosureClean(Extended(s, spans, ds, es))
  {
    hide ById, UniqueIds, NewSpansOk, NewDispositionsOk, AboutAssessed, AggregatedIds;
    assert es != [] ==> q.claimId !in PacketClaims(s.packets);
    assert forall e :: e in s.evidence + es ==> e in s.evidence || (es != [] && e.claimId == q.claimId);
  }

  lemma UntouchedStaysClean(s: Snapshot, spans: seq<RetrievedSpan>, ds: seq<Disposition>, es: seq<Evidence>)
    requires ReferencesClean(s) && ClaimsClean(s) && PropositionsClean(s) && ProseClean(s)
    ensures var now := Extended(s, spans, ds, es);
            ReferencesClean(now) && ClaimsClean(now) && PropositionsClean(now) && ProseClean(now)
  {
    hide ById, UniqueIds, FinalOk, PacketFinalOk, PacketCpesOk, AuditOk, OneAudit, SentenceOk, SentenceAuditOk, OneSentenceAudit,
      AllIn, CitationOk, CitedClaims;
    var now := Extended(s, spans, ds, es);
    forall p | p in s.packets ensures PacketOk(p, now) {
      assert PacketOk(p, s);
    }
    forall p | p in s.propositions ensures PropositionOk(p, now) {
      assert PropositionOk(p, s);
    }
  }

  /** Main result: adding coupled records to a snapshot without errors raises none. */
  lemma PromotionKeepsClean(s: Snapshot, hash: ClaimHash, q: RetrievalQuery, spans: seq<RetrievedSpan>, ds: seq<Disposition>,
                            es: seq<Evidence>)
    requires RepositoryClean(s, hash) && q in s.queries && Coupled(s, q, spans, ds, es)
    ensures RepositoryClean(Extended(s, spans, ds, es), hash)
  {
    hide IdentityClean, ThemesClean, ReferencesClean, RetrievalClean, EvidenceClean, AggregatesClean, ClaimsClean, ClosureClean,
      PropositionsClean, ProseClean, NewSpansOk, NewDispositionsOk, NewEvidenceOk;
    RetrievalStaysClean(s, hash, q, spans, ds, es);
    EvidenceStaysClean(s, hash, q, spans, ds, es);
    AggregatesStayClean(s, q, spans, ds, es);
    ClosureStaysClean(s, q, spans, ds, es);
    UntouchedStaysClean(s, spans, ds, es);
  }
}
