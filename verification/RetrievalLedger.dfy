/** The retrieval ledger, its checks, and the coordinator that fills it (library/retrieval.py). */
module RetrievalLedger {
  import opened Basics
  import opened Ordering
  import opened RetrievalHits
  import opened RetrievalBackends
  import opened RetrievalMerge
  import opened RetrievalTruncation

  const MAX_LEDGER_HITS: nat := 2 * MAX_TOP_K + 2 * MAX_INVALID_DIAGNOSTICS
  const MAX_QUERY_TERMS: nat := 64
  const MAX_TRUNCATED_CANDIDATES: nat := 0x7FFF_FFFF_FFFF_FFFF

  datatype Ledger = Ledger(
    sourceGeneration: nat, queryId: string, queryTextHash: string, corpusLockHash: string,
    requestedTopK: nat, maxQueryTerms: nat,
    totalCandidates: nat, validCandidates: nat, invalidCandidates: nat,
    textTruncatedValid: nat, textTruncatedInvalid: nat, graphTruncatedValid: nat, graphTruncatedInvalid: nat,
    selectedKeys: seq<string>, excludedKeys: seq<string>, rawHits: seq<Hit>)

  function Keys(hits: seq<Hit>): (keys: seq<string>)
    ensures |keys| == |hits| && forall i :: 0 <= i < |hits| ==> keys[i] == hits[i].key
  {
    seq(|hits|, i requires 0 <= i < |hits| => hits[i].key)
  }

  predicate FieldBounds(l: Ledger) {
    && 1 <= l.requestedTopK <= MAX_TOP_K && 1 <= l.maxQueryTerms <= MAX_QUERY_TERMS
    && l.textTruncatedValid <= MAX_TRUNCATED_CANDIDATES && l.textTruncatedInvalid <= MAX_TRUNCATED_CANDIDATES
    && l.graphTruncatedValid <= MAX_TRUNCATED_CANDIDATES && l.graphTruncatedInvalid <= MAX_TRUNCATED_CANDIDATES
  }

  predicate CountsOk(l: Ledger) {
    var valid, invalid := HitsOf(l.rawHits, true), HitsOf(l.rawHits, false);
    && |l.rawHits| <= MAX_LEDGER_HITS
    && |valid| <= 2 * MAX_TOP_K && |invalid| <= 2 * MAX_INVALID_DIAGNOSTICS
    && l.totalCandidates == |l.rawHits| && l.validCandidates == |valid| && l.invalidCandidates == |invalid|
  }

  predicate ClassificationOk(l: Ledger) {
    && |l.selectedKeys| <= l.requestedTopK
    && NoRepeats(l.selectedKeys) && NoRepeats(l.excludedKeys)
    && ToSet(l.selectedKeys) * ToSet(l.excludedKeys) == {}
    && ToSet(l.selectedKeys) + ToSet(l.excludedKeys) == ToSet(Keys(HitsOf(l.rawHits, true)))
  }

  predicate OrderOk(l: Ledger) {
    var orderedValid := StableSort(RankLeq, HitsOf(l.rawHits, true));
    && l.selectedKeys == Keys(Take(orderedValid, l.requestedTopK))
    && l.excludedKeys == Keys(Drop(orderedValid, l.requestedTopK))
    && l.rawHits == orderedValid + StableSort(InvalidLeq, HitsOf(l.rawHits, false))
  }

  /** `RetrievalLedger._counts_and_query_agree`. */
  predicate LedgerOk(l: Ledger) {
    && FieldBounds(l) && CountsOk(l)
    && (forall i :: 0 <= i < |l.rawHits| ==>
          l.rawHits[i].queryId == l.queryId && l.rawHits[i].queryTextHash == l.queryTextHash)
    && NoRepeats(Keys(l.rawHits))
    && ClassificationOk(l) && OrderOk(l)
  }

  // ---------------------------------------------------------------- the coordinator

  datatype RetrieveError = TopKOutOfRange | TermsOutOfRange | Backend(error: SearchError)
                         | DuplicateCandidateKeys | LedgerRejected

  datatype Retrieved = Retrieved(selected: seq<Hit>, ledger: Ledger)

  function RankedValid(s: Setting, q: Query, papers: seq<PaperText>, backendHits: seq<Hit>): seq<Hit> {
    StableSort(RankLeq, MergeAll(s, q, papers, HitsOf(backendHits, true)))
  }

  function RankedInvalid(backendHits: seq<Hit>): seq<Hit> {
    StableSort(InvalidLeq, HitsOf(backendHits, false))
  }

  /** What `retrieve` returns once the backends' keys are known to be distinct. */
  function Assembled(s: Setting, q: Query, papers: seq<PaperText>, text: Batch, graph: Batch,
                     generation: nat, lockHash: string, topK: nat, maxTerms: nat): Retrieved {
    var valid := RankedValid(s, q, papers, text.hits + graph.hits);
    var invalid := RankedInvalid(text.hits + graph.hits);
    Retrieved(Take(valid, topK),
      Ledger(generation, q.id, QueryTextHash(s, q), lockHash, topK, maxTerms,
             |valid + invalid|, |valid|, |invalid|,
             text.truncatedValid, text.truncatedInvalid, graph.truncatedValid, graph.truncatedInvalid,
             Keys(Take(valid, topK)), Keys(Drop(valid, topK)), valid + invalid))
  }

  /** Two of the candidates that the backends hand on carry one key. */
  predicate KeysRepeat(textStream: seq<Hit>, graphStream: seq<Hit>) {
    !NoRepeats(Keys(Batched(textStream, MAX_TOP_K).hits + Batched(graphStream, MAX_TOP_K).hits))
  }

  /** What a retrieval comes to, and each way it is refused. */
  function Retrieval(s: Setting, q: Query, terms: seq<string>, c: Corpus, graph: Option<seq<GraphItem>>,
                     generation: nat, lockHash: string, topK: nat, maxTerms: nat): Result<Retrieved, RetrieveError> {
    if !(1 <= topK <= MAX_TOP_K) then Err(TopKOutOfRange)
    else if !(1 <= maxTerms <= MAX_QUERY_TERMS) then Err(TermsOutOfRange)
    else
      match Streams(s, q, terms, c, graph)
      case Err(e) => Err(Backend(e))
      case Ok(streams) =>
        if KeysRepeat(streams.0, streams.1) then Err(DuplicateCandidateKeys)
        else Ok(Assembled(s, q, c.papers, Batched(streams.0, MAX_TOP_K), Batched(streams.1, MAX_TOP_K),
                          generation, lockHash, topK, maxTerms))
  }

  /** `UnifiedRetrievalCoordinator.retrieve`; `graph` is absent when the corpus has no graph. */
  method Retrieve(s: Setting, q: Query, terms: seq<string>, c: Corpus, graph: Option<seq<GraphItem>>,
                  generation: nat, lockHash: string, topK: nat, maxTerms: nat)
      returns (r: Result<Retrieved, RetrieveError>)
    requires CollisionFree(s.digest) && CorpusOk(c)
    requires WithinCounters(s, q, terms, c, graph)
    ensures r == Retrieval(s, q, terms, c, graph, generation, lockHash, topK, maxTerms)
    ensures r.Ok? ==> LedgerOk(r.value.ledger)
  {
    hide LedgerOk, IntentAgrees, QueryFits, Batched, CollisionFree, CorpusOk, Assembled, AllEmitted, WithinCounters, TextStream,
      GraphStream, AllFit, NoRepeats;
    if !(1 <= topK <= MAX_TOP_K) {
      return Err(TopKOutOfRange);
    }
    if !(1 <= maxTerms <= MAX_QUERY_TERMS) {
      return Err(TermsOutOfRange);
    }
    var textResult := TextSearch(s, q, terms, c.papers, MAX_TOP_K);
    if textResult.Err? {
      return Err(Backend(textResult.error));
    }
    var graphBatch := Batch([], 0, 0);
    if graph.Some? {
      var graphResult := GraphSearch(s, q, terms, c, graph.value, MAX_TOP_K);
      if graphResult.Err? {
        return Err(Backend(graphResult.error));
      }
      graphBatch := graphResult.value;
    }
    var textBatch := textResult.value;
    EmptyBatch();
    ghost var streams := Streams(s, q, terms, c, graph).value;
    BatchesOfStreams(s, q, terms, c, graph, streams.0, streams.1);
    var backendHits := textBatch.hits + graphBatch.hits;
    if !NoRepeats(Keys(backendHits)) {
      return Err(DuplicateCandidateKeys);
    }
    AssembledLedgerOk(s, q, c.papers, streams.0, streams.1, textBatch, graphBatch, generation, lockHash, topK, maxTerms);
    var retrieved := AssembleLedger(s, q, c.papers, textBatch, graphBatch, generation, lockHash, topK, maxTerms);
    if !LedgerOk(retrieved.ledger) {
      return Err(LedgerRejected);
    }
    r := Ok(retrieved);
  }

  /** The part of `retrieve` that merges, ranks, cuts and counts. */
  method AssembleLedger(s: Setting, q: Query, papers: seq<PaperText>, text: Batch, graph: Batch,
                        generation: nat, lockHash: string, topK: nat, maxTerms: nat) returns (r: Retrieved)
    ensures r == Assembled(s, q, papers, text, graph, generation, lockHash, topK, maxTerms)
  {
    hide MergeAll, HitsOf, RankLeq, InvalidLeq, StableSort;
    var backendHits := text.hits + graph.hits;
    var merged := MergeHits(s, q, papers, HitsOf(backendHits, true));
    var orderedValid := StableSort(RankLeq, merged);
    var valid, excluded := Take(orderedValid, topK), Drop(orderedValid, topK);
    var invalid := StableSort(InvalidLeq, HitsOf(backendHits, false));
    assert valid + excluded == orderedValid;
    var ledgerHits := valid + excluded + invalid;
    r := Retrieved(valid,
      Ledger(generation, q.id, QueryTextHash(s, q), lockHash, topK, maxTerms,
             |ledgerHits|, |orderedValid|, |invalid|,
             text.truncatedValid, text.truncatedInvalid, graph.truncatedValid, graph.truncatedInvalid,
             Keys(valid), Keys(excluded), ledgerHits));
  }

  lemma EmptyBatch()
    ensures Batched([], MAX_TOP_K) == Batch([], 0, 0)
  {
  }

  /** Everything the text search and the graph search come across, or why one of them gives up. */
  function Streams(s: Setting, q: Query, terms: seq<string>, c: Corpus, graph: Option<seq<GraphItem>>)
      : Result<(seq<Hit>, seq<Hit>), SearchError>
  {
    if !IntentAgrees(q) then Err(IntentMismatch)
    else if !QueryFits(q) then Err(QueryTooLong)
    else if terms == [] then Ok(([], []))
    else
      var text := TextStream(s, q, terms, c.papers);
      if !AllFit(text) then Err(InvalidCandidate)
      else if graph.None? then Ok((text, []))
      else
        match GraphStream(s, q, c, graph.value)
        case Err(e) => Err(e)
        case Ok(hits) => Ok((text, hits))
  }

  /** The ledger's counters are 63-bit; no corpus is large enough to leave that range. */
  ghost predicate WithinCounters(s: Setting, q: Query, terms: seq<string>, c: Corpus, graph: Option<seq<GraphItem>>) {
    var streams := Streams(s, q, terms, c, graph);
    streams.Ok? ==> |streams.value.0| <= MAX_TRUNCATED_CANDIDATES && |streams.value.1| <= MAX_TRUNCATED_CANDIDATES
  }

  /** A batch as a bounded search of `origin` returns it. */
  ghost predicate BatchOf(s: Setting, q: Query, papers: seq<PaperText>, origin: Origin, stream: seq<Hit>, b: Batch) {
    && AllEmitted(s, q, papers, origin, stream) && b == Batched(stream, MAX_TOP_K)
    && |stream| <= MAX_TRUNCATED_CANDIDATES
  }

  lemma StreamsEmitted(s: Setting, q: Query, terms: seq<string>, c: Corpus, graph: Option<seq<GraphItem>>,
                       text: seq<Hit>, graphHits: seq<Hit>)
    requires CorpusOk(c) && Streams(s, q, terms, c, graph) == Ok((text, graphHits))
    ensures AllEmitted(s, q, c.papers, TextBaseline, text) && AllEmitted(s, q, c.papers, Graph, graphHits)
  {
    hide Emitted, IntentAgrees, QueryFits, AllFit, TextStream, GraphStream;
    if terms != [] {
      assert c.papers[..|c.papers|] == c.papers;
      TextStreamEmitted(s, q, terms, c.papers, |c.papers|);
      if graph.Some? {
        GraphStreamEmitted(s, q, c, graph.value);
      }
    }
  }

  lemma BatchesOfStreams(s: Setting, q: Query, terms: seq<string>, c: Corpus, graph: Option<seq<GraphItem>>,
                         text: seq<Hit>, graphHits: seq<Hit>)
    requires CorpusOk(c) && WithinCounters(s, q, terms, c, graph)
    requires Streams(s, q, terms, c, graph) == Ok((text, graphHits))
    ensures BatchOf(s, q, c.papers, TextBaseline, text, Batched(text, MAX_TOP_K))
    ensures BatchOf(s, q, c.papers, Graph, graphHits, Batched(graphHits, MAX_TOP_K))
  {
    hide Batched, AllEmitted, Streams;
    StreamsEmitted(s, q, terms, c, graph, text, graphHits);
  }

  // ---------------------------------------------------------------- the ledger it builds

  /** Retained hits of one class. */
  function KeptValid(stream: seq<Hit>): seq<Hit> {
    Cut(HitsOf(stream, true), MAX_TOP_K)
  }

  function KeptInvalid(stream: seq<Hit>): seq<Hit> {
    Take(StableSort(DiagnosticLeq, HitsOf(stream, false)), MAX_INVALID_DIAGNOSTICS)
  }

  lemma KeptMembers(stream: seq<Hit>)
    ensures forall h :: h in KeptValid(stream) ==> h in stream && h.isValid
    ensures forall h :: h in KeptInvalid(stream) ==> h in stream && !h.isValid
    ensures |KeptValid(stream)| <= MAX_TOP_K && |KeptInvalid(stream)| <= MAX_INVALID_DIAGNOSTICS
  {
    HitsOfMembers(stream, true);
    HitsOfMembers(stream, false);
    CutMembers(HitsOf(stream, true), MAX_TOP_K);
    hide RankLeq, DiagnosticLeq, HitsOf, StableSort;
    SortSame(DiagnosticLeq, HitsOf(stream, false));
    forall h | h in KeptInvalid(stream) ensures h in stream && !h.isValid {
      assert h in StableSort(DiagnosticLeq, HitsOf(stream, false));
    }
  }

  /** The classes of both backends' hits together. */
  lemma BackendClasses(text: seq<Hit>, graph: seq<Hit>)
    ensures var all := Batched(text, MAX_TOP_K).hits + Batched(graph, MAX_TOP_K).hits;
            && HitsOf(all, true) == KeptValid(text) + KeptValid(graph)
            && HitsOf(all, false) == KeptInvalid(text) + KeptInvalid(graph)
  {
    ClassesOfBatch(text);
    ClassesOfBatch(graph);
    hide Batched, KeptValid, KeptInvalid, HitsOf;
    HitsOfConcat(Batched(text, MAX_TOP_K).hits, Batched(graph, MAX_TOP_K).hits, true);
    HitsOfConcat(Batched(text, MAX_TOP_K).hits, Batched(graph, MAX_TOP_K).hits, false);
  }

  lemma ClassesOfBatch(stream: seq<Hit>)
    ensures HitsOf(Batched(stream, MAX_TOP_K).hits, true) == KeptValid(stream)
    ensures HitsOf(Batched(stream, MAX_TOP_K).hits, false) == KeptInvalid(stream)
  {
    KeptMembers(stream);
    hide HitsOf, StableSort, RankLeq, DiagnosticLeq;
    var valid, invalid := KeptValid(stream), KeptInvalid(stream);
    assert Batched(stream, MAX_TOP_K).hits == valid + invalid;
    HitsOfUniform(valid, true);
    HitsOfUniform(invalid, false);
    HitsOfConcat(valid, invalid, true);
    HitsOfConcat(valid, invalid, false);
    assert valid + [] == valid && [] + invalid == invalid;
  }

  /** A kept hit occurs among the backends' hits at a position of its own. */
  lemma {:induction false} ClassInjection(all: seq<Hit>, valid: bool)
    requires NoRepeats(Keys(all))
    ensures NoRepeats(Keys(HitsOf(all, valid)))
  {
    if all != [] {
      var n := |all| - 1;
      assert Keys(all[..n]) == Keys(all)[..n];
      ClassInjection(all[..n], valid);
      var front := HitsOf(all[..n], valid);
      HitsOfMembers(all[..n], valid);
      forall i | 0 <= i < |front| ensures front[i].key != all[n].key {
        assert front[i] in front;
        var k :| 0 <= k < n && all[..n][k] == front[i];
        assert Keys(all)[k] == front[i].key && Keys(all)[n] == all[n].key;
      }
    }
  }

  /** One paper, one range and one origin give one key. */
  lemma SameLocationSameKey(s: Setting, q: Query, papers: seq<PaperText>, origin: Origin, g: Hit, h: Hit)
    requires Emitted(s, q, papers, origin, g) && Emitted(s, q, papers, origin, h) && g.isValid && h.isValid
    requires LocationOf(g) == LocationOf(h)
    ensures g.key == h.key
  {
    hide HitOk;
  }

  /** The other way round: hashing tells apart different locations, classes and origins. */
  lemma SameKeySameIdentity(s: Setting, q: Query, papers: seq<PaperText>, g: Hit, h: Hit)
    requires CollisionFree(s.digest)
    requires Emitted(s, q, papers, g.origin, g) && Emitted(s, q, papers, h.origin, h) && g.key == h.key
    ensures g.isValid == h.isValid && g.origin == h.origin
    ensures g.isValid ==> LocationOf(g) == LocationOf(h)
  {
    hide HitOk, PaperIndex;
  }

  lemma DistinctKeysLocations(s: Setting, q: Query, papers: seq<PaperText>, origin: Origin, hits: seq<Hit>)
    requires NoRepeats(Keys(hits))
    requires forall h :: h in hits ==> Emitted(s, q, papers, origin, h) && h.isValid
    ensures DistinctLocations(hits) && OfOrigin(hits, origin)
  {
    hide LocationOf;
    forall i, j | 0 <= i < j < |hits| ensures LocationOf(hits[i]) != LocationOf(hits[j]) {
      assert Keys(hits)[i] != Keys(hits)[j] && hits[i] in hits && hits[j] in hits;
      if LocationOf(hits[i]) == LocationOf(hits[j]) {
        SameLocationSameKey(s, q, papers, origin, hits[i], hits[j]);
      }
    }
    forall i | 0 <= i < |hits| ensures hits[i].origin == origin {
      assert hits[i] in hits;
    }
  }

  /** A combined hit is again a candidate of its paper that passes every check. */
  lemma CombinedEmitted(s: Setting, q: Query, papers: seq<PaperText>, t: Hit, g: Hit)
    requires Emitted(s, q, papers, TextBaseline, t) && Emitted(s, q, papers, Graph, g) && t.isValid && g.isValid
    ensures Emitted(s, q, papers, Both, Combine(s, q, papers, t, g)) && Combine(s, q, papers, t, g).isValid
  {
    hide PaperIndex;
  }

  lemma JoinedEmitted(s: Setting, q: Query, papers: seq<PaperText>, text: seq<Hit>, graph: seq<Hit>, m: Hit)
    requires forall h :: h in text ==> Emitted(s, q, papers, TextBaseline, h) && h.isValid
    requires forall h :: h in graph ==> Emitted(s, q, papers, Graph, h) && h.isValid
    requires m in Joined(s, q, papers, text, graph)
    ensures Emitted(s, q, papers, m.origin, m) && m.isValid
  {
    hide Emitted, LocationOf, IndexAt, Combine;
    var joined := Joined(s, q, papers, text, graph);
    var k :| 0 <= k < |joined| && joined[k] == m;
    if k < |text| {
      assert text[k] in text;
      var i := IndexAt(graph, LocationOf(text[k]));
      if i < |graph| {
        assert graph[i] in graph;
        CombinedEmitted(s, q, papers, text[k], graph[i]);
        OriginOfEmitted(s, q, papers, Both, m);
      } else {
        OriginOfEmitted(s, q, papers, TextBaseline, m);
      }
    } else {
      GraphHitsAtMembers(text, graph, false);
      assert m == GraphHitsAt(text, graph, false)[k - |text|];
      OriginOfEmitted(s, q, papers, Graph, m);
    }
  }

  lemma OriginOfEmitted(s: Setting, q: Query, papers: seq<PaperText>, origin: Origin, h: Hit)
    requires Emitted(s, q, papers, origin, h)
    ensures h.origin == origin && h.queryId == q.id && h.queryTextHash == QueryTextHash(s, q)
  {
    hide HitOk;
  }

  /** What the coordinator's two lists are made of, once the key check has passed. */
  ghost predicate WellRanked(s: Setting, q: Query, papers: seq<PaperText>, valid: seq<Hit>, invalid: seq<Hit>) {
    && DistinctLocations(valid) && NoRepeats(Keys(invalid))
    && IsSorted(RankLeq, valid) && IsSorted(InvalidLeq, invalid)
    && (forall h :: h in valid ==> Emitted(s, q, papers, h.origin, h) && h.isValid)
    && (forall h :: h in invalid ==> Emitted(s, q, papers, h.origin, h) && !h.isValid)
  }

  lemma {:induction false} MergedNoLonger(s: Setting, q: Query, papers: seq<PaperText>, hits: seq<Hit>)
    ensures |MergeAll(s, q, papers, hits)| <= |hits|
  {
    hide LocationOf, IndexAt, Combine;
    if hits != [] {
      MergedNoLonger(s, q, papers, hits[..|hits| - 1]);
    }
  }

  lemma KeptEmitted(s: Setting, q: Query, papers: seq<PaperText>, origin: Origin, stream: seq<Hit>)
    requires AllEmitted(s, q, papers, origin, stream)
    ensures forall h :: h in KeptValid(stream) ==> Emitted(s, q, papers, origin, h) && h.isValid
    ensures forall h :: h in KeptInvalid(stream) ==> Emitted(s, q, papers, origin, h) && !h.isValid
  {
    hide Emitted, KeptValid, KeptInvalid;
    KeptMembers(stream);
  }

  /** The valid list of a ledger that passed the key check. */
  lemma ValidWellRanked(s: Setting, q: Query, papers: seq<PaperText>, text: seq<Hit>, graph: seq<Hit>)
    requires AllEmitted(s, q, papers, TextBaseline, text) && AllEmitted(s, q, papers, Graph, graph)
    requires NoRepeats(Keys(KeptValid(text) + KeptValid(graph)))
    ensures var valid := StableSort(RankLeq, MergeAll(s, q, papers, KeptValid(text) + KeptValid(graph)));
            && DistinctLocations(valid) && IsSorted(RankLeq, valid) && |valid| <= 2 * MAX_TOP_K
            && (forall h :: h in valid ==> Emitted(s, q, papers, h.origin, h) && h.isValid)
    ensures MergeAll(s, q, papers, KeptValid(text) + KeptValid(graph)) == Joined(s, q, papers, KeptValid(text), KeptValid(graph))
  {
    hide Emitted, KeptValid, KeptInvalid, LocationOf, Joined;
    var t, g := KeptValid(text), KeptValid(graph);
    KeptEmitted(s, q, papers, TextBaseline, text);
    KeptEmitted(s, q, papers, Graph, graph);
    assert Keys(t) == Keys(t + g)[..|t|] && Keys(g) == Keys(t + g)[|t|..];
    DistinctKeysLocations(s, q, papers, TextBaseline, t);
    DistinctKeysLocations(s, q, papers, Graph, g);
    assert g[..|g|] == g;
    MergeIsJoin(s, q, papers, t, g, |g|);
    JoinedDistinct(s, q, papers, t, g);
    var joined := Joined(s, q, papers, t, g);
    MergedNoLonger(s, q, papers, t + g);
    KeptMembers(text);
    KeptMembers(graph);
    SortDistinctLocations(joined);
    RankIsTotal();
    SortSorted(RankLeq, joined);
    SortSame(RankLeq, joined);
    hide RankLeq;
    forall h | h in StableSort(RankLeq, joined) ensures Emitted(s, q, papers, h.origin, h) && h.isValid {
      JoinedEmitted(s, q, papers, t, g, h);
    }
  }

  lemma {:induction false} SortKeys(hits: seq<Hit>)
    requires NoRepeats(Keys(hits))
    ensures NoRepeats(Keys(StableSort(InvalidLeq, hits)))
  {
    hide InvalidLeq;
    var sorted := StableSort(InvalidLeq, hits);
    forall i, j | 0 <= i < j < |hits| ensures hits[i] != hits[j] {
      assert Keys(hits)[i] != Keys(hits)[j];
    }
    SortDistinct(InvalidLeq, hits);
    SortSame(InvalidLeq, hits);
    forall i, j | 0 <= i < j < |sorted| ensures Keys(sorted)[i] != Keys(sorted)[j] {
      assert sorted[i] in sorted && sorted[j] in sorted;
      var k :| 0 <= k < |hits| && hits[k] == sorted[i];
      var l :| 0 <= l < |hits| && hits[l] == sorted[j];
      assert k != l;
      assert Keys(hits)[k] != Keys(hits)[l];
    }
  }

  lemma InvalidWellRanked(s: Setting, q: Query, papers: seq<PaperText>, text: seq<Hit>, graph: seq<Hit>)
    requires AllEmitted(s, q, papers, TextBaseline, text) && AllEmitted(s, q, papers, Graph, graph)
    requires NoRepeats(Keys(KeptInvalid(text) + KeptInvalid(graph)))
    ensures var invalid := StableSort(InvalidLeq, KeptInvalid(text) + KeptInvalid(graph));
            && NoRepeats(Keys(invalid)) && IsSorted(InvalidLeq, invalid) && |invalid| <= 2 * MAX_INVALID_DIAGNOSTICS
            && (forall h :: h in invalid ==> Emitted(s, q, papers, h.origin, h) && !h.isValid)
  {
    hide Emitted, KeptValid, KeptInvalid;
    KeptEmitted(s, q, papers, TextBaseline, text);
    KeptEmitted(s, q, papers, Graph, graph);
    KeptMembers(text);
    KeptMembers(graph);
    var all := KeptInvalid(text) + KeptInvalid(graph);
    SortKeys(all);
    InvalidIsTotal();
    SortSorted(InvalidLeq, all);
    SortSame(InvalidLeq, all);
    hide InvalidLeq;
    forall h | h in StableSort(InvalidLeq, all) ensures Emitted(s, q, papers, h.origin, h) && !h.isValid {
      if h in KeptInvalid(text) {
        OriginOfEmitted(s, q, papers, TextBaseline, h);
      } else {
        OriginOfEmitted(s, q, papers, Graph, h);
      }
    }
  }

  /** Keys are unique across everything the ledger holds. */
  lemma LedgerKeysUnique(s: Setting, q: Query, papers: seq<PaperText>, valid: seq<Hit>, invalid: seq<Hit>)
    requires CollisionFree(s.digest) && WellRanked(s, q, papers, valid, invalid)
    ensures NoRepeats(Keys(valid + invalid))
  {
    hide Emitted, LocationOf, CollisionFree, RankLeq, InvalidLeq;
    var all := valid + invalid;
    forall i, j | 0 <= i < j < |all| ensures Keys(all)[i] != Keys(all)[j] {
      if i < |valid| {
        assert valid[i] in valid;
        if j < |valid| {
          assert valid[j] in valid;
        } else {
          assert all[j] == invalid[j - |valid|] && all[j] in invalid;
        }
        if all[i].key == all[j].key {
          SameKeySameIdentity(s, q, papers, all[i], all[j]);
        }
      } else {
        assert Keys(invalid)[i - |valid|] != Keys(invalid)[j - |valid|];
      }
    }
  }

  lemma LedgerClasses(s: Setting, q: Query, papers: seq<PaperText>, valid: seq<Hit>, invalid: seq<Hit>)
    requires WellRanked(s, q, papers, valid, invalid)
    ensures HitsOf(valid + invalid, true) == valid && HitsOf(valid + invalid, false) == invalid
    ensures StableSort(RankLeq, valid) == valid && StableSort(InvalidLeq, invalid) == invalid
  {
    hide Emitted, LocationOf, RankLeq, InvalidLeq;
    RankIsTotal();
    InvalidIsTotal();
    SortOfSorted(RankLeq, valid);
    SortOfSorted(InvalidLeq, invalid);
    HitsOfUniform(valid, true);
    HitsOfUniform(invalid, false);
    HitsOfConcat(valid, invalid, true);
    HitsOfConcat(valid, invalid, false);
    assert valid + [] == valid && [] + invalid == invalid;
  }

  /** A cut splits the valid keys into two lists without repetitions and nothing in common. */
  lemma CutClassifies(valid: seq<Hit>, topK: nat)
    requires NoRepeats(Keys(valid))
    ensures var selected, excluded := Keys(Take(valid, topK)), Keys(Drop(valid, topK));
            && |selected| <= topK && NoRepeats(selected) && NoRepeats(excluded)
            && ToSet(selected) * ToSet(excluded) == {}
            && ToSet(selected) + ToSet(excluded) == ToSet(Keys(valid))
  {
    var selected, excluded := Keys(Take(valid, topK)), Keys(Drop(valid, topK));
    assert Keys(valid) == selected + excluded;
  }

  lemma RawHitsOfQuery(s: Setting, q: Query, papers: seq<PaperText>, valid: seq<Hit>, invalid: seq<Hit>)
    requires WellRanked(s, q, papers, valid, invalid)
    ensures var all := valid + invalid; forall i :: 0 <= i < |all| ==>
              all[i].queryId == q.id && all[i].queryTextHash == QueryTextHash(s, q)
  {
    hide Emitted, LocationOf, RankLeq, InvalidLeq, QueryTextHash;
    var all := valid + invalid;
    forall i | 0 <= i < |all| ensures all[i].queryId == q.id && all[i].queryTextHash == QueryTextHash(s, q) {
      assert all[i] in valid || all[i] in invalid;
      OriginOfEmitted(s, q, papers, all[i].origin, all[i]);
    }
  }

  lemma AssembledLedgerOk(s: Setting, q: Query, papers: seq<PaperText>, textStream: seq<Hit>, graphStream: seq<Hit>,
                          text: Batch, graph: Batch, generation: nat, lockHash: string, topK: nat, maxTerms: nat)
    requires CollisionFree(s.digest)
    requires BatchOf(s, q, papers, TextBaseline, textStream, text) && BatchOf(s, q, papers, Graph, graphStream, graph)
    requires NoRepeats(Keys(text.hits + graph.hits)) && 1 <= topK <= MAX_TOP_K && 1 <= maxTerms <= MAX_QUERY_TERMS
    ensures LedgerOk(Assembled(s, q, papers, text, graph, generation, lockHash, topK, maxTerms).ledger)
  {
    hide Emitted, AllEmitted, LocationOf, RankLeq, InvalidLeq, RankedValid, RankedInvalid, CollisionFree, Batched, CountsOk,
      ClassificationOk, OrderOk, NoRepeats, WellRanked, Take, Drop;
    var l := Assembled(s, q, papers, text, graph, generation, lockHash, topK, maxTerms).ledger;
    var valid, invalid := RankedValid(s, q, papers, text.hits + graph.hits), RankedInvalid(text.hits + graph.hits);
    ListsWellRanked(s, q, papers, textStream, graphStream, text, graph);
    TruncationBounded(textStream);
    TruncationBounded(graphStream);
    LedgerKeysUnique(s, q, papers, valid, invalid);
    RawHitsOfQuery(s, q, papers, valid, invalid);
    ListsPassChecks(s, q, papers, valid, invalid, l);
  }

  /** Counts, classification and order hold of any ledger over two well-ranked lists. */
  lemma ListsPassChecks(s: Setting, q: Query, papers: seq<PaperText>, valid: seq<Hit>, invalid: seq<Hit>, l: Ledger)
    requires WellRanked(s, q, papers, valid, invalid) && NoRepeats(Keys(valid + invalid))
    requires |valid| <= 2 * MAX_TOP_K && |invalid| <= 2 * MAX_INVALID_DIAGNOSTICS
    requires l.rawHits == valid + invalid
    requires l.totalCandidates == |valid + invalid| && l.validCandidates == |valid| && l.invalidCandidates == |invalid|
    requires l.selectedKeys == Keys(Take(valid, l.requestedTopK)) && l.excludedKeys == Keys(Drop(valid, l.requestedTopK))
    ensures CountsOk(l) && ClassificationOk(l) && OrderOk(l)
  {
    hide WellRanked, RankLeq, InvalidLeq, HitsOf, StableSort, ToSet, NoRepeats, Take, Drop;
    LedgerClasses(s, q, papers, valid, invalid);
    ValidKeysUnique(valid, invalid);
    CutClassifies(valid, l.requestedTopK);
    assert CountsOk(l);
    assert OrderOk(l);
    assert ClassificationOk(l);
  }

  lemma ValidKeysUnique(valid: seq<Hit>, invalid: seq<Hit>)
    requires NoRepeats(Keys(valid + invalid))
    ensures NoRepeats(Keys(valid))
  {
    assert Keys(valid) == Keys(valid + invalid)[..|valid|];
  }

  lemma TruncationBounded(stream: seq<Hit>)
    ensures var b := Batched(stream, MAX_TOP_K); b.truncatedValid + b.truncatedInvalid <= |stream|
  {
    HitsOfCount(stream);
    hide StableSort, RankLeq, DiagnosticLeq, HitsOf;
  }

  lemma ListsWellRanked(s: Setting, q: Query, papers: seq<PaperText>, textStream: seq<Hit>, graphStream: seq<Hit>,
                        text: Batch, graph: Batch)
    requires BatchOf(s, q, papers, TextBaseline, textStream, text) && BatchOf(s, q, papers, Graph, graphStream, graph)
    requires NoRepeats(Keys(text.hits + graph.hits))
    ensures var valid, invalid := RankedValid(s, q, papers, text.hits + graph.hits), RankedInvalid(text.hits + graph.hits);
            && WellRanked(s, q, papers, valid, invalid)
            && |valid| <= 2 * MAX_TOP_K && |invalid| <= 2 * MAX_INVALID_DIAGNOSTICS
  {
    hide Emitted, LocationOf, RankLeq, InvalidLeq, Batched, HitsOf, KeptValid, KeptInvalid, NoRepeats, StableSort, MergeAll,
      DistinctLocations, IsSorted, AllEmitted, Joined;
    var all := text.hits + graph.hits;
    BackendClasses(textStream, graphStream);
    ClassInjection(all, true);
    ClassInjection(all, false);
    ValidWellRanked(s, q, papers, textStream, graphStream);
    InvalidWellRanked(s, q, papers, textStream, graphStream);
  }

  // ---------------------------------------------------------------- conservation

  /** Graph hits at a location that the text search kept as well. */
  function MergedPairs(textStream: seq<Hit>, graphStream: seq<Hit>): nat {
    |GraphHitsAt(KeptValid(textStream), KeptValid(graphStream), true)|
  }

  /** No valid hit gets lost: those the two searches came across are the ledger's valid hits, those
      merged into another, and those counted as truncated. */
  lemma ValidHitsConserved(s: Setting, q: Query, papers: seq<PaperText>, textStream: seq<Hit>, graphStream: seq<Hit>,
                           text: Batch, graph: Batch, generation: nat, lockHash: string, topK: nat, maxTerms: nat)
    requires BatchOf(s, q, papers, TextBaseline, textStream, text) && BatchOf(s, q, papers, Graph, graphStream, graph)
    requires NoRepeats(Keys(text.hits + graph.hits))
    ensures var l := Assembled(s, q, papers, text, graph, generation, lockHash, topK, maxTerms).ledger;
            |HitsOf(textStream, true)| + |HitsOf(graphStream, true)|
            == l.validCandidates + MergedPairs(textStream, graphStream) + l.textTruncatedValid + l.graphTruncatedValid
    ensures var l := Assembled(s, q, papers, text, graph, generation, lockHash, topK, maxTerms).ledger;
            |HitsOf(textStream, false)| + |HitsOf(graphStream, false)|
            == l.invalidCandidates + l.textTruncatedInvalid + l.graphTruncatedInvalid
  {
    hide Emitted, LocationOf, RankLeq, InvalidLeq, HitsOf, DiagnosticLeq, NoRepeats;
    var all := text.hits + graph.hits;
    BackendClasses(textStream, graphStream);
    ClassInjection(all, true);
    ValidWellRanked(s, q, papers, textStream, graphStream);
    GraphHitsAtCount(KeptValid(textStream), KeptValid(graphStream));
  }
}
