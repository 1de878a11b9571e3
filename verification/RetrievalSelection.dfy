/** What a retrieval selects, next to what unbounded searches would select (library/retrieval.py). */
module RetrievalSelection {
  import opened Basics
  import opened Ids
  import opened Ordering
  import opened SourceText
  import opened RetrievalHits
  import opened RetrievalBackends
  import opened RetrievalMerge
  import opened RetrievalTruncation
  import opened RetrievalLedger
  import opened RetrievalTies

  // ---------------------------------------------------------------- what the searches come across

  lemma {:induction false} TextHitsSource(s: Setting, q: Query, terms: seq<string>, paper: PaperText, slices: seq<Range>, h: Hit)
      returns (j: nat)
    requires terms != [] && InPaper(paper, slices) && h in TextHitsIn(s, q, terms, paper, slices)
    ensures j < |slices| && TextHit(s, q, terms, paper, slices[j]) == Some(h)
  {
    hide TextHit;
    var n := |slices| - 1;
    if h in TextHitsIn(s, q, terms, paper, slices[..n]) {
      j := TextHitsSource(s, q, terms, paper, slices[..n], h);
    } else {
      j := n;
    }
  }

  lemma {:induction false} TextSource(s: Setting, q: Query, terms: seq<string>, papers: seq<PaperText>, n: nat, h: Hit)
      returns (i: nat, j: nat)
    requires terms != [] && n <= |papers| && h in TextStream(s, q, terms, papers[..n])
    ensures i < n && InPaper(papers[i], Paragraphs(papers[i].text, s.isSpace))
    ensures j < |Paragraphs(papers[i].text, s.isSpace)|
    ensures TextHit(s, q, terms, papers[i], Paragraphs(papers[i].text, s.isSpace)[j]) == Some(h)
  {
    hide TextHit, Paragraphs, TextHitsIn;
    assert papers[..n][..n - 1] == papers[..n - 1];
    if h in TextStream(s, q, terms, papers[..n - 1]) {
      i, j := TextSource(s, q, terms, papers, n - 1, h);
    } else {
      i := n - 1;
      ParagraphsInPaper(s, papers[i]);
      j := TextHitsSource(s, q, terms, papers[i], Paragraphs(papers[i].text, s.isSpace), h);
    }
  }

  lemma TextHitSliced(s: Setting, q: Query, terms: seq<string>, papers: seq<PaperText>, i: nat, r: Range)
    requires terms != [] && i < |papers| && PaperIndex(papers, papers[i].paperId) == i
    requires r.start < r.end <= |papers[i].text| && TextHit(s, q, terms, papers[i], r).Some?
    requires TextHit(s, q, terms, papers[i], r).value.isValid
    ensures var h := TextHit(s, q, terms, papers[i], r).value;
            Sliced(s, q, papers, h) && h.origin == TextBaseline && h.paperId == papers[i].paperId && h.start == Some(r.start)
  {
    hide ValidCandidate, Sliced, CandidateKey, MatchedTerms, PaperIndex, TextScore, ParagraphTooLong, QueryTextHash;
    var clean := papers[i].text[r.start..r.end];
    if |clean| <= MAX_CANDIDATE_CHARS {
      CandidateSliced(s, q, papers, i, r, TextBaseline, None, None, TextScore(s.casefold(clean), terms));
    }
  }

  lemma IndexOfPaper(papers: seq<PaperText>, i: nat)
    requires i < |papers| && forall k, l :: 0 <= k < l < |papers| ==> papers[k].paperId != papers[l].paperId
    ensures PaperIndex(papers, papers[i].paperId) == i
  {
    hide PaperIndex;
  }

  /** Valid candidates of the text search are slices, and no two start at the same offset. */
  lemma TextFound(s: Setting, q: Query, terms: seq<string>, c: Corpus, h: Hit) returns (i: nat, j: nat)
    requires terms != [] && CorpusOk(c) && h in TextStream(s, q, terms, c.papers) && h.isValid
    ensures i < |c.papers| && InPaper(c.papers[i], Paragraphs(c.papers[i].text, s.isSpace))
    ensures h.paperId == c.papers[i].paperId && PaperIndex(c.papers, h.paperId) == i
    ensures j < |Paragraphs(c.papers[i].text, s.isSpace)| && StartOf(h) == Paragraphs(c.papers[i].text, s.isSpace)[j].start
    ensures TextHit(s, q, terms, c.papers[i], Paragraphs(c.papers[i].text, s.isSpace)[j]) == Some(h)
    ensures Sliced(s, q, c.papers, h) && h.origin == TextBaseline
  {
    hide TextHit, Paragraphs, TextHitsIn, Sliced, PaperIndex;
    assert c.papers[..|c.papers|] == c.papers;
    i, j := TextSource(s, q, terms, c.papers, |c.papers|, h);
    IndexOfPaper(c.papers, i);
    TextHitSliced(s, q, terms, c.papers, i, Paragraphs(c.papers[i].text, s.isSpace)[j]);
  }

  lemma OneAtStart(s: Setting, q: Query, terms: seq<string>, c: Corpus, g: Hit, h: Hit)
    requires terms != [] && CorpusOk(c)
    requires g in TextStream(s, q, terms, c.papers) && g.isValid && h in TextStream(s, q, terms, c.papers) && h.isValid
    requires g.paperId == h.paperId && StartOf(g) == StartOf(h)
    ensures g == h
  {
    hide TextHit, Paragraphs, TextStream, Sliced, PaperIndex, CorpusOk;
    var i, j := TextFound(s, q, terms, c, g);
    var k, l := TextFound(s, q, terms, c, h);
    ParagraphsExact(c.papers[i].text, s.isSpace);
    assert i == k;
    assert j == l;
  }

  lemma {:induction false} GraphSource(s: Setting, q: Query, c: Corpus, items: seq<GraphItem>, h: Hit) returns (k: nat)
    requires GraphStream(s, q, c, items).Ok? && h in GraphStream(s, q, c, items).value
    ensures k < |items| && GraphHits(s, q, c, items[k]) == Ok([h])
  {
    hide GraphHits;
    var n := |items| - 1;
    if h in GraphStream(s, q, c, items[..n]).value {
      k := GraphSource(s, q, c, items[..n], h);
    } else {
      k := n;
      GraphHitsAtMostOne(s, q, c, items[n]);
    }
  }

  lemma CandidateSliced(s: Setting, q: Query, papers: seq<PaperText>, i: nat, span: Range, origin: Origin,
                        nodeId: Option<string>, relation: Option<string>, score: real)
    requires i < |papers| && PaperIndex(papers, papers[i].paperId) == i
    requires span.start < span.end <= |papers[i].text| && span.end - span.start <= MAX_CONTEXT_CHARS
    ensures var h := ValidCandidate(s, q, papers[i], span, origin, nodeId, relation, score);
            Sliced(s, q, papers, h) && h.origin == origin && h.score == score && h.paperId == papers[i].paperId && h.start == Some(span.start)
  {
    hide WindowContext, CandidateKey, QueryTextHash, PaperIndex;
  }

  lemma ValidGraphHit(s: Setting, q: Query, paper: PaperText, item: GraphItem, evidence: string, h: Hit)
    requires evidence != "" && GraphHit(s, q, paper, item, evidence) == Ok(h) && h.isValid
    ensures |evidence| <= MAX_CANDIDATE_CHARS && Occurs(paper.text, evidence).Unique?
    ensures var start := Occurs(paper.text, evidence).start;
            start + |evidence| <= |paper.text|
            && h == ValidCandidate(s, q, paper, Range(start, start + |evidence|), Graph, Some(item.nodeId), Some(item.relation), GRAPH_SCORE)
  {
    hide ValidCandidate, CandidateKey, Find, MetadataOk, QueryTextHash, EvidenceTooLong, EvidenceAbsent, EvidenceRepeated;
  }

  lemma BuiltSliced(s: Setting, q: Query, papers: seq<PaperText>, i: nat, item: GraphItem, evidence: string, h: Hit)
    requires i < |papers| && PaperIndex(papers, papers[i].paperId) == i && evidence != ""
    requires GraphHit(s, q, papers[i], item, evidence) == Ok(h) && h.isValid
    ensures Sliced(s, q, papers, h) && h.origin == Graph && h.score == GRAPH_SCORE
  {
    hide ValidCandidate, Sliced, GraphHit, Occurs, PaperIndex;
    ValidGraphHit(s, q, papers[i], item, evidence, h);
    var start := Occurs(papers[i].text, evidence).start;
    CandidateSliced(s, q, papers, i, Range(start, start + |evidence|), Graph, Some(item.nodeId), Some(item.relation), GRAPH_SCORE);
  }

  lemma GraphHitSliced(s: Setting, q: Query, c: Corpus, item: GraphItem, h: Hit)
    requires CorpusOk(c) && GraphHits(s, q, c, item) == Ok([h]) && h.isValid
    ensures Sliced(s, q, c.papers, h) && h.origin == Graph && h.score == GRAPH_SCORE
  {
    hide GraphHit, Strip, PaperIndex, Sliced;
    var i := PaperIndex(c.papers, c.citekeys[s.casefold(item.citekey)]);
    BuiltSliced(s, q, c.papers, i, item, Strip(item.evidence, s.isSpace), h);
  }

  /** What the two searches come across is what they find. */
  lemma StreamsFound(s: Setting, q: Query, terms: seq<string>, c: Corpus, graph: Option<seq<GraphItem>>,
                     text: seq<Hit>, graphHits: seq<Hit>)
    requires CorpusOk(c) && Streams(s, q, terms, c, graph) == Ok((text, graphHits))
    ensures Found(s, q, c.papers, HitsOf(text, true), HitsOf(graphHits, true))
  {
    hide TextStream, GraphStream, Sliced, CorpusOk, IntentAgrees, QueryFits, AllFit, GraphHits;
    HitsOfMembers(text, true);
    HitsOfMembers(graphHits, true);
    hide HitsOf;
    forall h | h in HitsOf(text, true) ensures Sliced(s, q, c.papers, h) && h.origin == TextBaseline {
      var i, j := TextFound(s, q, terms, c, h);
    }
    forall g, h | g in HitsOf(text, true) && h in HitsOf(text, true) && g.paperId == h.paperId && StartOf(g) == StartOf(h) ensures g == h {
      OneAtStart(s, q, terms, c, g, h);
    }
    forall h | h in HitsOf(graphHits, true) ensures Sliced(s, q, c.papers, h) && h.origin == Graph && h.score == GRAPH_SCORE {
      var k := GraphSource(s, q, c, graph.value, h);
      GraphHitSliced(s, q, c, graph.value[k], h);
    }
  }

  /** So is what they keep of it. */
  lemma KeptAreFound(s: Setting, q: Query, terms: seq<string>, c: Corpus, graph: Option<seq<GraphItem>>,
                     text: seq<Hit>, graphHits: seq<Hit>)
    requires CorpusOk(c) && Streams(s, q, terms, c, graph) == Ok((text, graphHits))
    ensures Found(s, q, c.papers, KeptValid(text), KeptValid(graphHits))
  {
    hide Found, KeptValid, CorpusOk, Streams;
    StreamsFound(s, q, terms, c, graph, text, graphHits);
    KeptMembers(text);
    KeptMembers(graphHits);
    HitsOfMembers(text, true);
    HitsOfMembers(graphHits, true);
    hide HitsOf;
    FoundPart(s, q, c.papers, HitsOf(text, true), HitsOf(graphHits, true), KeptValid(text), KeptValid(graphHits));
  }

  // ---------------------------------------------------------------- sufficient

  /** The passages that a search comes across. */
  function Passages(stream: seq<Hit>): set<Spot> {
    Spots(HitsOf(stream, true))
  }

  /** A retrieval that succeeds selects, place by place, what ranking everything the two searches come
      across would select. */
  ghost predicate Faithful(s: Setting, q: Query, terms: seq<string>, c: Corpus, graph: Option<seq<GraphItem>>,
                           generation: nat, lockHash: string, topK: nat, maxTerms: nat) {
    match Retrieval(s, q, terms, c, graph, generation, lockHash, topK, maxTerms)
    case Err(_) => true
    case Ok(r) =>
      match Streams(s, q, terms, c, graph)
      case Err(_) => false
      case Ok(streams) =>
        var unbounded := Ranking(s, q, c.papers, HitsOf(streams.0, true), HitsOf(streams.1, true));
        Places(r.selected) == Places(Take(unbounded, topK))
  }

  /** What is selected is cut from the ranking of what the two searches keep. */
  lemma SelectedRanking(s: Setting, q: Query, papers: seq<PaperText>, text: seq<Hit>, graph: seq<Hit>,
                        generation: nat, lockHash: string, topK: nat, maxTerms: nat)
    ensures var t, g := Cut(HitsOf(text, true), MAX_TOP_K), Cut(HitsOf(graph, true), MAX_TOP_K);
            Assembled(s, q, papers, Batched(text, MAX_TOP_K), Batched(graph, MAX_TOP_K), generation, lockHash, topK, maxTerms).selected
            == Take(Ranking(s, q, papers, t, g), topK)
  {
    BackendClasses(text, graph);
    hide HitsOf, MergeAll, RankLeq, InvalidLeq, StableSort, Batched;
  }

  lemma RetainedApart(text: seq<Hit>, graph: seq<Hit>)
    requires !KeysRepeat(text, graph)
    ensures NoRepeats(Keys(Cut(HitsOf(text, true), MAX_TOP_K))) && NoRepeats(Keys(Cut(HitsOf(graph, true), MAX_TOP_K)))
  {
    hide HitsOf, RankLeq, StableSort, DiagnosticLeq;
    var t, g := Batched(text, MAX_TOP_K).hits, Batched(graph, MAX_TOP_K).hits;
    var keys := Keys(t + g);
    var kt, kg := Cut(HitsOf(text, true), MAX_TOP_K), Cut(HitsOf(graph, true), MAX_TOP_K);
    assert Keys(kt) == keys[..|kt|];
    assert Keys(kg) == keys[|t|..|t| + |kg|];
  }

  lemma ApartLocations(hits: seq<Hit>, all: seq<Hit>)
    requires NoRepeats(Keys(hits)) && AlikeByLocation(all) && forall h :: h in hits ==> h in all
    ensures DistinctLocations(hits)
  {
    hide LocationOf, Alike;
    forall i, j | 0 <= i < j < |hits| ensures LocationOf(hits[i]) != LocationOf(hits[j]) {
      assert Keys(hits)[i] != Keys(hits)[j] && hits[i] in all && hits[j] in all;
      if LocationOf(hits[i]) == LocationOf(hits[j]) {
        AlikeOrigin(hits[i], hits[j]);
      }
    }
  }

  /** Where passages are settled a retrieval selects what unbounded searches would, whatever the
      candidate keys that the cut drops. */
  lemma SelectionIsUnbounded(s: Setting, q: Query, terms: seq<string>, c: Corpus, graph: Option<seq<GraphItem>>,
                             generation: nat, lockHash: string, topK: nat, maxTerms: nat)
    requires CollisionFree(s.digest) && CorpusOk(c)
    requires var streams := Streams(s, q, terms, c, graph);
             streams.Ok? ==> Settled(Passages(streams.value.0), Passages(streams.value.1), topK, MAX_TOP_K)
    ensures Faithful(s, q, terms, c, graph, generation, lockHash, topK, maxTerms)
  {
    hide Found, Cut, Ranking, Assembled, Streams, HitsOf, Settled, CollisionFree, CorpusOk, Places, Batched, KeysRepeat, Searched;
    var r := Retrieval(s, q, terms, c, graph, generation, lockHash, topK, maxTerms);
    if r.Ok? {
      var streams := Streams(s, q, terms, c, graph).value;
      var t, g := HitsOf(streams.0, true), HitsOf(streams.1, true);
      StreamsFound(s, q, terms, c, graph, streams.0, streams.1);
      RetainedApart(streams.0, streams.1);
      CutApart(s, q, c.papers, t, g);
      SettledSelection(s, q, c.papers, t, g, topK, MAX_TOP_K);
      SelectedRanking(s, q, c.papers, streams.0, streams.1, generation, lockHash, topK, maxTerms);
    }
  }

  lemma CutApart(s: Setting, q: Query, papers: seq<PaperText>, t: seq<Hit>, g: seq<Hit>)
    requires Found(s, q, papers, t, g)
    requires NoRepeats(Keys(Cut(t, MAX_TOP_K))) && NoRepeats(Keys(Cut(g, MAX_TOP_K)))
    ensures DistinctLocations(Cut(t, MAX_TOP_K)) && DistinctLocations(Cut(g, MAX_TOP_K))
  {
    hide Found, Cut, LocationOf, NoRepeats, AlikeByLocation;
    FoundSearched(s, q, papers, t, g);
    CutMembers(t, MAX_TOP_K);
    CutMembers(g, MAX_TOP_K);
    ApartLocations(Cut(t, MAX_TOP_K), t);
    ApartLocations(Cut(g, MAX_TOP_K), g);
  }

  /** If no two passages that lie apart share a paper and a start offset, all are settled. */
  lemma StartsSettle(text: set<Spot>, graph: set<Spot>, topK: nat, cap: nat)
    requires forall x, y :: x in text + graph && y in text + graph && x.paperId == y.paperId && x.start == y.start ==> x.end == y.end
    ensures Settled(text, graph, topK, cap)
  {
  }

  // ---------------------------------------------------------------- other digests

  /** A candidate without its digests. */
  function Undigested(h: Hit): Hit {
    h.(key := "", queryTextHash := "", spanHash := None, context := None)
  }

  ghost predicate SameShape(a: seq<Hit>, b: seq<Hit>) {
    |a| == |b| && forall i :: 0 <= i < |a| ==> Undigested(a[i]) == Undigested(b[i])
  }

  lemma ShapeFacts(g: Hit, h: Hit)
    requires Undigested(g) == Undigested(h)
    ensures MetadataOk(g) == MetadataOk(h) && g.isValid == h.isValid && SpotOf(g) == SpotOf(h)
    ensures g.paperId == h.paperId && g.sourceText == h.sourceText && g.start == h.start && g.end == h.end
  {
  }

  lemma ShapeConcat(a: seq<Hit>, b: seq<Hit>, c: seq<Hit>, d: seq<Hit>)
    requires SameShape(a, b) && SameShape(c, d)
    ensures SameShape(a + c, b + d)
  {
    hide Undigested;
  }

  lemma ShapeFits(a: seq<Hit>, b: seq<Hit>)
    requires SameShape(a, b) && AllFit(a)
    ensures AllFit(b)
  {
    hide Undigested, MetadataOk;
    forall i | 0 <= i < |b| ensures MetadataOk(b[i]) {
      ShapeFacts(a[i], b[i]);
    }
  }

  lemma TextHitShape(s: Setting, d: Digest, q: Query, terms: seq<string>, paper: PaperText, r: Range)
    requires terms != [] && r.start < r.end <= |paper.text|
    ensures SameShape(FromOption(TextHit(s, q, terms, paper, r)), FromOption(TextHit(s.(digest := d), q, terms, paper, r)))
  {
    hide WindowContext, CandidateKey, MatchedTerms, QueryTextHash, ParagraphTooLong;
  }

  lemma {:induction false} TextHitsShape(s: Setting, d: Digest, q: Query, terms: seq<string>, paper: PaperText, slices: seq<Range>)
    requires terms != [] && InPaper(paper, slices)
    ensures SameShape(TextHitsIn(s, q, terms, paper, slices), TextHitsIn(s.(digest := d), q, terms, paper, slices))
  {
    hide TextHit, FromOption;
    if slices != [] {
      var n := |slices| - 1;
      TextHitsShape(s, d, q, terms, paper, slices[..n]);
      TextHitShape(s, d, q, terms, paper, slices[n]);
    }
  }

  lemma {:induction false} TextStreamShape(s: Setting, d: Digest, q: Query, terms: seq<string>, papers: seq<PaperText>)
    requires terms != []
    ensures SameShape(TextStream(s, q, terms, papers), TextStream(s.(digest := d), q, terms, papers))
  {
    hide TextHitsIn, Paragraphs, SameShape;
    if papers == [] {
      assert SameShape([], []) by { NothingShaped(); }
    } else {
      var n := |papers| - 1;
      ParagraphsInPaper(s, papers[n]);
      TextStreamShape(s, d, q, terms, papers[..n]);
      TextHitsShape(s, d, q, terms, papers[n], Paragraphs(papers[n].text, s.isSpace));
      ShapeConcat(TextStream(s, q, terms, papers[..n]), TextStream(s.(digest := d), q, terms, papers[..n]),
                  TextHitsIn(s, q, terms, papers[n], Paragraphs(papers[n].text, s.isSpace)),
                  TextHitsIn(s.(digest := d), q, terms, papers[n], Paragraphs(papers[n].text, s.isSpace)));
    }
  }

  lemma NothingShaped()
    ensures SameShape([], [])
  {
  }

  /** Both searches give up, or both go on with the same shape. */
  ghost predicate SameOutcome(a: Result<seq<Hit>, SearchError>, b: Result<seq<Hit>, SearchError>) {
    if a.Ok? then b.Ok? && SameShape(a.value, b.value) else b == a
  }

  lemma GraphHitShape(s: Setting, d: Digest, q: Query, paper: PaperText, item: GraphItem, evidence: string)
    requires evidence != ""
    ensures var a, b := GraphHit(s, q, paper, item, evidence), GraphHit(s.(digest := d), q, paper, item, evidence);
            if a.Ok? then b.Ok? && Undigested(a.value) == Undigested(b.value) else b == a
  {
    hide WindowContext, CandidateKey, QueryTextHash, EvidenceTooLong, EvidenceAbsent, EvidenceRepeated, Find;
  }

  lemma GraphHitsShape(s: Setting, d: Digest, q: Query, c: Corpus, item: GraphItem)
    ensures SameOutcome(GraphHits(s, q, c, item), GraphHits(s.(digest := d), q, c, item))
  {
    hide GraphHit, Strip, PaperIndex, Undigested;
    var citekey := s.casefold(item.citekey);
    if citekey in c.citekeys {
      var i := PaperIndex(c.papers, c.citekeys[citekey]);
      var evidence := Strip(item.evidence, s.isSpace);
      if i < |c.papers| && evidence != "" {
        GraphHitShape(s, d, q, c.papers[i], item, evidence);
      }
    }
  }

  lemma {:induction false} GraphStreamShape(s: Setting, d: Digest, q: Query, c: Corpus, items: seq<GraphItem>)
    ensures SameOutcome(GraphStream(s, q, c, items), GraphStream(s.(digest := d), q, c, items))
  {
    hide GraphHits, SameShape;
    NothingShaped();
    if items != [] {
      var n := |items| - 1;
      var r := s.(digest := d);
      GraphStreamShape(s, d, q, c, items[..n]);
      GraphHitsShape(s, d, q, c, items[n]);
      if GraphStream(s, q, c, items[..n]).Ok? && GraphHits(s, q, c, items[n]).Ok? {
        ShapeConcat(GraphStream(s, q, c, items[..n]).value, GraphStream(r, q, c, items[..n]).value,
                    GraphHits(s, q, c, items[n]).value, GraphHits(r, q, c, items[n]).value);
      }
    }
  }

  /** Another digest changes digests only. */
  lemma StreamsShape(s: Setting, d: Digest, q: Query, terms: seq<string>, c: Corpus, graph: Option<seq<GraphItem>>)
    requires Streams(s, q, terms, c, graph).Ok?
    ensures var a, b := Streams(s, q, terms, c, graph), Streams(s.(digest := d), q, terms, c, graph);
            b.Ok? && SameShape(a.value.0, b.value.0) && SameShape(a.value.1, b.value.1)
  {
    hide TextStream, GraphStream, IntentAgrees, QueryFits, AllFit, SameShape;
    NothingShaped();
    if terms != [] {
      TextStreamShape(s, d, q, terms, c.papers);
      ShapeFits(TextStream(s, q, terms, c.papers), TextStream(s.(digest := d), q, terms, c.papers));
      if graph.Some? {
        GraphStreamShape(s, d, q, c, graph.value);
      }
    }
  }

  lemma ShapePassages(a: seq<Hit>, b: seq<Hit>)
    requires SameShape(a, b)
    ensures Passages(a) <= Passages(b)
  {
    HitsOfMembers(a, true);
    HitsOfMembers(b, true);
    hide HitsOf, Undigested, SpotOf;
    forall p | p in Passages(a) ensures p in Passages(b) {
      var h :| h in HitsOf(a, true) && SpotOf(h) == p;
      var i :| 0 <= i < |a| && a[i] == h;
      ShapeFacts(a[i], b[i]);
      assert b[i] in b;
    }
  }

  lemma ShapeBack(a: seq<Hit>, b: seq<Hit>)
    requires SameShape(a, b)
    ensures SameShape(b, a)
  {
    hide Undigested;
  }

  /** The passages do not depend on the digest. */
  lemma SamePassages(s: Setting, d: Digest, q: Query, terms: seq<string>, c: Corpus, graph: Option<seq<GraphItem>>)
    requires Streams(s, q, terms, c, graph).Ok?
    ensures var a, b := Streams(s, q, terms, c, graph), Streams(s.(digest := d), q, terms, c, graph);
            b.Ok? && Passages(a.value.0) == Passages(b.value.0) && Passages(a.value.1) == Passages(b.value.1)
  {
    hide Streams, Passages, SameShape;
    StreamsShape(s, d, q, terms, c, graph);
    var a, b := Streams(s, q, terms, c, graph).value, Streams(s.(digest := d), q, terms, c, graph).value;
    ShapeBack(a.0, b.0);
    ShapeBack(a.1, b.1);
    ShapePassages(a.0, b.0);
    ShapePassages(b.0, a.0);
    ShapePassages(a.1, b.1);
    ShapePassages(b.1, a.1);
  }

  // ---------------------------------------------------------------- no candidate twice

  lemma EmittedKey(s: Setting, q: Query, papers: seq<PaperText>, origin: Origin, g: Hit, h: Hit)
    requires Emitted(s, q, papers, origin, g) && Emitted(s, q, papers, origin, h)
    requires g.paperId == h.paperId && g.sourceText == h.sourceText && g.start == h.start && g.end == h.end
    ensures g.key == h.key
  {
    hide HitOk, PaperIndex;
  }

  lemma EmittedIdentity(s: Setting, q: Query, papers: seq<PaperText>, g: Hit, h: Hit)
    requires CollisionFree(s.digest) && Emitted(s, q, papers, g.origin, g) && Emitted(s, q, papers, h.origin, h) && g.key == h.key
    ensures g.paperId == h.paperId && g.sourceText == h.sourceText && g.start == h.start && g.end == h.end && g.origin == h.origin
  {
    hide HitOk, PaperIndex;
  }

  /** Candidates that one digest tells apart, every digest without collisions does. */
  lemma ShapeKeys(s: Setting, r: Setting, q: Query, papers: seq<PaperText>, origin: Origin, a: seq<Hit>, b: seq<Hit>)
    requires CollisionFree(r.digest) && AllEmitted(s, q, papers, origin, a) && AllEmitted(r, q, papers, origin, b)
    requires SameShape(a, b) && NoRepeats(Keys(a))
    ensures NoRepeats(Keys(b))
  {
    hide Emitted, Undigested, CollisionFree;
    forall i, j | 0 <= i < j < |b| ensures Keys(b)[i] != Keys(b)[j] {
      assert Keys(a)[i] != Keys(a)[j];
      ShapeFacts(a[i], b[i]);
      ShapeFacts(a[j], b[j]);
      EmittedOrigin(r, q, papers, origin, b[i]);
      EmittedOrigin(r, q, papers, origin, b[j]);
      if b[i].key == b[j].key {
        EmittedIdentity(r, q, papers, b[i], b[j]);
        EmittedKey(s, q, papers, origin, a[i], a[j]);
      }
    }
  }

  lemma EmittedOrigin(s: Setting, q: Query, papers: seq<PaperText>, origin: Origin, h: Hit)
    requires Emitted(s, q, papers, origin, h)
    ensures h.origin == origin
  {
    hide HitOk;
  }

  /** Different hits of the list carry different keys, and none is listed twice. */
  lemma KeysByMembers(hits: seq<Hit>)
    requires Distinct(hits) && forall g, h :: g in hits && h in hits && g.key == h.key ==> g == h
    ensures NoRepeats(Keys(hits))
  {
    forall i, j | 0 <= i < j < |hits| ensures Keys(hits)[i] != Keys(hits)[j] {
      assert hits[i] in hits && hits[j] in hits;
    }
  }

  lemma KeysDistinct(hits: seq<Hit>)
    requires NoRepeats(Keys(hits))
    ensures Distinct(hits) && forall g, h :: g in hits && h in hits && g.key == h.key ==> g == h
  {
    forall i, j | 0 <= i < j < |hits| ensures hits[i] != hits[j] && hits[i].key != hits[j].key {
      assert Keys(hits)[i] != Keys(hits)[j];
    }
  }

  lemma KeptDistinct(leq: (Hit, Hit) -> bool, hits: seq<Hit>, limit: nat)
    requires Distinct(hits)
    ensures Distinct(Take(StableSort(leq, hits), limit))
    ensures forall h :: h in Take(StableSort(leq, hits), limit) ==> h in hits
  {
    SortDistinct(leq, hits);
    SortSame(leq, hits);
    var ranked := StableSort(leq, hits);
    forall h | h in Take(ranked, limit) ensures h in hits {
      assert h in ranked;
    }
  }

  /** What a search keeps of candidates that are all different. */
  lemma BatchDistinct(stream: seq<Hit>)
    requires NoRepeats(Keys(stream))
    ensures Distinct(Batched(stream, MAX_TOP_K).hits) && forall h :: h in Batched(stream, MAX_TOP_K).hits ==> h in stream
  {
    hide RankLeq, DiagnosticLeq, StableSort, NoRepeats, Distinct, Take;
    var valid, invalid := HitsOf(stream, true), HitsOf(stream, false);
    ClassInjection(stream, true);
    ClassInjection(stream, false);
    HitsOfMembers(stream, true);
    HitsOfMembers(stream, false);
    hide HitsOf;
    KeysDistinct(valid);
    KeysDistinct(invalid);
    KeptDistinct(RankLeq, valid, MAX_TOP_K);
    KeptDistinct(DiagnosticLeq, invalid, MAX_INVALID_DIAGNOSTICS);
    ConcatDistinct(Take(StableSort(RankLeq, valid), MAX_TOP_K), Take(StableSort(DiagnosticLeq, invalid), MAX_INVALID_DIAGNOSTICS));
  }

  /** No candidate of either stream is listed twice. */
  predicate NoneTwice(text: seq<Hit>, graph: seq<Hit>) {
    NoRepeats(Keys(text)) && NoRepeats(Keys(graph))
  }

  /** Then the coordinator's check on keys passes. */
  lemma NothingRepeats(s: Setting, q: Query, papers: seq<PaperText>, text: seq<Hit>, graph: seq<Hit>)
    requires CollisionFree(s.digest) && NoneTwice(text, graph)
    requires AllEmitted(s, q, papers, TextBaseline, text) && AllEmitted(s, q, papers, Graph, graph)
    ensures !KeysRepeat(text, graph)
  {
    hide Emitted, CollisionFree, NoRepeats, Distinct, Batched;
    BatchDistinct(text);
    BatchDistinct(graph);
    KeysDistinct(text);
    KeysDistinct(graph);
    var t, g := Batched(text, MAX_TOP_K).hits, Batched(graph, MAX_TOP_K).hits;
    forall h, k | h in text && k in graph ensures h.key != k.key {
      EmittedOrigin(s, q, papers, TextBaseline, h);
      EmittedOrigin(s, q, papers, Graph, k);
      if h.key == k.key {
        EmittedIdentity(s, q, papers, h, k);
      }
    }
    ConcatDistinct(t, g);
    KeysByMembers(t + g);
  }

  // ---------------------------------------------------------------- necessary

  /** The two lists, whole and cut, with everything that ranking them strictly needs. */
  lemma CutRanks(r: Setting, q: Query, papers: seq<PaperText>, t: seq<Hit>, g: seq<Hit>)
    requires CollisionFree(r.digest) && Found(r, q, papers, t, g) && NoneTwice(t, g)
    ensures Ranks(r, q, papers, Ranking(r, q, papers, t, g), t, g)
    ensures var tk, gk := Cut(t, MAX_TOP_K), Cut(g, MAX_TOP_K);
            && Ranks(r, q, papers, Ranking(r, q, papers, tk, gk), tk, gk)
            && KeepsBest(t, tk, MAX_TOP_K) && KeepsBest(g, gk, MAX_TOP_K)
  {
    hide Found, Cut, Ranking, Ranks, KeepsBest, AlikeByLocation, DistinctLocations, LocationOf, NoRepeats, CollisionFree;
    FoundSearched(r, q, papers, t, g);
    ApartLocations(t, t);
    ApartLocations(g, g);
    CutMembers(t, MAX_TOP_K);
    CutMembers(g, MAX_TOP_K);
    CutKeepsBest(t, MAX_TOP_K);
    CutKeepsBest(g, MAX_TOP_K);
    FoundPart(r, q, papers, t, g, Cut(t, MAX_TOP_K), Cut(g, MAX_TOP_K));
    FoundRanks(r, q, papers, t, g);
    FoundRanks(r, q, papers, Cut(t, MAX_TOP_K), Cut(g, MAX_TOP_K));
  }

  lemma SpotSource(hits: seq<Hit>, p: Spot) returns (h: Hit)
    requires p in Spots(hits)
    ensures h in hits && SpotOf(h) == p
  {
    hide SpotOf;
    h :| h in hits && SpotOf(h) == p;
  }

  /** With the digest that sorts the slice first, leaving out its paragraph changes the selection. */
  lemma ParagraphMatters(s: Setting, q: Query, papers: seq<PaperText>, tv: seq<Hit>, gv: seq<Hit>, t: Spot, g: Spot, other: Spot, topK: nat)
    requires CollisionFree(s.digest) && topK <= MAX_TOP_K
    requires Found(SliceFirst(s, q, papers, ExtentOf(g)), q, papers, tv, gv) && NoneTwice(tv, gv)
    requires t in Spots(tv) && g in Spots(gv) && other in Spots(gv) && Contested(t, g, other)
    requires |Foremost(Spots(tv) + Spots(gv), g)| < topK && |Foremost(Spots(tv), t)| >= MAX_TOP_K
    ensures var r := SliceFirst(s, q, papers, ExtentOf(g));
            Places(Take(Ranking(r, q, papers, Cut(tv, MAX_TOP_K), Cut(gv, MAX_TOP_K)), topK))
            != Places(Take(Ranking(r, q, papers, tv, gv), topK))
  {
    hide Found, Cut, Ranking, Ranks, KeepsBest, Spots, Foremost, Contested, Marked, SpotOf, ExtentOf, Represented, CollisionFree,
      NoneTwice, Prefixed;
    var r := SliceFirst(s, q, papers, ExtentOf(g));
    PrefixedFree(s.digest, {Marked(s, q, papers, ExtentOf(g), Graph)}, {Marked(s, q, papers, ExtentOf(g), Both)});
    CutRanks(r, q, papers, tv, gv);
    var th := SpotSource(tv, t);
    var gh := SpotSource(gv, g);
    var oh := SpotSource(gv, other);
    TextLeftOut(r, q, papers, tv, gv, MAX_TOP_K, th);
    ParagraphDropped(s, q, papers, Ranking(r, q, papers, tv, gv), Ranking(r, q, papers, Cut(tv, MAX_TOP_K), Cut(gv, MAX_TOP_K)),
                     tv, gv, Cut(tv, MAX_TOP_K), Cut(gv, MAX_TOP_K), th, gh, oh, topK, MAX_TOP_K);
  }

  /** With the digest that sorts the slice last, leaving it out changes the selection. */
  lemma SliceMatters(s: Setting, q: Query, papers: seq<PaperText>, tv: seq<Hit>, gv: seq<Hit>, t: Spot, g: Spot, other: Spot, topK: nat)
    requires CollisionFree(s.digest) && topK <= MAX_TOP_K
    requires Found(SliceLast(s, q, papers, ExtentOf(g)), q, papers, tv, gv) && NoneTwice(tv, gv)
    requires t in Spots(tv) && g in Spots(gv) && other in Spots(gv) && Contested(t, g, other)
    requires |Foremost(Spots(tv) + Spots(gv), g)| < topK && |UpTo(Spots(gv), g)| > MAX_TOP_K
    ensures var r := SliceLast(s, q, papers, ExtentOf(g));
            Places(Take(Ranking(r, q, papers, Cut(tv, MAX_TOP_K), Cut(gv, MAX_TOP_K)), topK))
            != Places(Take(Ranking(r, q, papers, tv, gv), topK))
  {
    hide Cut, Ranking, Ranks, KeepsBest, Spots, Foremost, UpTo, Contested, Marked, SpotOf, ExtentOf, Represented, CollisionFree,
      NoneTwice, Prefixed, Sliced, GradeOf;
    var e := ExtentOf(g);
    var r := SliceLast(s, q, papers, e);
    var low := {Marked(s, q, papers, e, Both)};
    var high := {Marked(s, q, papers, e, Graph), Marked(s, q, papers, e, TextBaseline)};
    PrefixedFree(s.digest, low, high);
    MarksAreCandidates(s, q, papers, e);
    CutRanks(r, q, papers, tv, gv);
    var th := SpotSource(tv, t);
    var gh := SpotSource(gv, g);
    var oh := SpotSource(gv, other);
    SliceLastGrade(s, q, papers, e, gh);
    forall k | k in gv && ExtentOf(SpotOf(k)) != e ensures GradeOf(s, q, papers, low, high, k) < GradeOf(s, q, papers, low, high, gh) {
      SliceLastGrade(s, q, papers, e, k);
    }
    GraphLeftOut(s, q, papers, low, high, tv, gv, MAX_TOP_K, gh);
    SliceDropped(s, q, papers, Ranking(r, q, papers, tv, gv), Ranking(r, q, papers, Cut(tv, MAX_TOP_K), Cut(gv, MAX_TOP_K)),
                 tv, gv, Cut(tv, MAX_TOP_K), Cut(gv, MAX_TOP_K), th, gh, oh, topK, MAX_TOP_K);
  }

  // ---------------------------------------------------------------- exactly

  /** A retrieval that the model of the corpus and the query admits, over candidates listed once each. */
  ghost predicate Admitted(s: Setting, q: Query, terms: seq<string>, c: Corpus, graph: Option<seq<GraphItem>>, topK: nat, maxTerms: nat) {
    && CorpusOk(c) && 1 <= topK <= MAX_TOP_K && 1 <= maxTerms <= MAX_QUERY_TERMS
    && var streams := Streams(s, q, terms, c, graph);
       streams.Ok? && NoneTwice(streams.value.0, streams.value.1)
  }

  /** Another digest without collisions admits the retrieval as well, which then succeeds. */
  lemma AdmittedAgain(s: Setting, d: Digest, q: Query, terms: seq<string>, c: Corpus, graph: Option<seq<GraphItem>>,
                      generation: nat, lockHash: string, topK: nat, maxTerms: nat)
    requires CollisionFree(d) && Admitted(s, q, terms, c, graph, topK, maxTerms)
    ensures Admitted(s.(digest := d), q, terms, c, graph, topK, maxTerms)
    ensures Retrieval(s.(digest := d), q, terms, c, graph, generation, lockHash, topK, maxTerms).Ok?
  {
    hide Streams, CorpusOk, SameShape, AllEmitted, Batched, KeysRepeat, NoRepeats, Assembled, CollisionFree;
    var r := s.(digest := d);
    StreamsShape(s, d, q, terms, c, graph);
    var a, b := Streams(s, q, terms, c, graph).value, Streams(r, q, terms, c, graph).value;
    StreamsEmitted(s, q, terms, c, graph, a.0, a.1);
    StreamsEmitted(r, q, terms, c, graph, b.0, b.1);
    ShapeKeys(s, r, q, c.papers, TextBaseline, a.0, b.0);
    ShapeKeys(s, r, q, c.papers, Graph, a.1, b.1);
    NothingRepeats(r, q, c.papers, b.0, b.1);
  }

  /** Passages that are not settled: some digest without collisions has the cut change the selection. */
  lemma UnsettledChanges(s: Setting, q: Query, terms: seq<string>, c: Corpus, graph: Option<seq<GraphItem>>,
                         generation: nat, lockHash: string, topK: nat, maxTerms: nat) returns (d: Digest)
    requires CollisionFree(s.digest) && Admitted(s, q, terms, c, graph, topK, maxTerms)
    requires var streams := Streams(s, q, terms, c, graph).value;
             !Settled(Passages(streams.0), Passages(streams.1), topK, MAX_TOP_K)
    ensures CollisionFree(d) && !Faithful(s.(digest := d), q, terms, c, graph, generation, lockHash, topK, maxTerms)
  {
    hide Streams, CollisionFree, Contested, Foremost, UpTo, CorpusOk, Prefixed, Marked, Found, Passages, NoneTwice, Retrieval;
    var streams := Streams(s, q, terms, c, graph).value;
    var text, slices := Passages(streams.0), Passages(streams.1);
    var t, g, other :| t in text && g in slices && other in slices && Contested(t, g, other)
                       && !SettledAt(text, slices, t, g, topK, MAX_TOP_K);
    var e := ExtentOf(g);
    if |Foremost(text, t)| >= MAX_TOP_K {
      d := SliceFirst(s, q, c.papers, e).digest;
      PrefixedFree(s.digest, {Marked(s, q, c.papers, e, Graph)}, {Marked(s, q, c.papers, e, Both)});
    } else {
      d := SliceLast(s, q, c.papers, e).digest;
      PrefixedFree(s.digest, {Marked(s, q, c.papers, e, Both)},
                   {Marked(s, q, c.papers, e, Graph), Marked(s, q, c.papers, e, TextBaseline)});
    }
    var r := s.(digest := d);
    AdmittedAgain(s, d, q, terms, c, graph, generation, lockHash, topK, maxTerms);
    SamePassages(s, d, q, terms, c, graph);
    PassagesMatter(s, r, q, terms, c, graph, generation, lockHash, topK, maxTerms, t, g, other);
  }

  /** The two digests at work. */
  lemma PassagesMatter(s: Setting, r: Setting, q: Query, terms: seq<string>, c: Corpus, graph: Option<seq<GraphItem>>,
                       generation: nat, lockHash: string, topK: nat, maxTerms: nat, t: Spot, g: Spot, other: Spot)
    requires CollisionFree(s.digest) && CollisionFree(r.digest) && Admitted(r, q, terms, c, graph, topK, maxTerms)
    requires Retrieval(r, q, terms, c, graph, generation, lockHash, topK, maxTerms).Ok?
    requires var text, slices := Passages(Streams(r, q, terms, c, graph).value.0), Passages(Streams(r, q, terms, c, graph).value.1);
             && t in text && g in slices && other in slices && Contested(t, g, other)
             && |Foremost(text + slices, g)| < topK
             && ((r == SliceFirst(s, q, c.papers, ExtentOf(g)) && |Foremost(text, t)| >= MAX_TOP_K)
                 || (r == SliceLast(s, q, c.papers, ExtentOf(g)) && |UpTo(slices, g)| > MAX_TOP_K))
    ensures !Faithful(r, q, terms, c, graph, generation, lockHash, topK, maxTerms)
  {
    hide Streams, CollisionFree, Contested, Foremost, UpTo, Found, Cut, Ranking, Assembled, Batched, Spots, HitsOf, NoRepeats, CorpusOk,
      KeysRepeat, SliceFirst, SliceLast, Places;
    var streams := Streams(r, q, terms, c, graph).value;
    var tv, gv := HitsOf(streams.0, true), HitsOf(streams.1, true);
    StreamsFound(r, q, terms, c, graph, streams.0, streams.1);
    ClassInjection(streams.0, true);
    ClassInjection(streams.1, true);
    SelectedRanking(r, q, c.papers, streams.0, streams.1, generation, lockHash, topK, maxTerms);
    if r == SliceFirst(s, q, c.papers, ExtentOf(g)) && |Foremost(Passages(streams.0), t)| >= MAX_TOP_K {
      ParagraphMatters(s, q, c.papers, tv, gv, t, g, other, topK);
    } else {
      SliceMatters(s, q, c.papers, tv, gv, t, g, other, topK);
    }
  }

  /** Bounding the searches never changes what is selected, whatever digest without collisions is
      used, exactly when the passages that the searches come across are settled. */
  lemma FaithfulExactly(s: Setting, q: Query, terms: seq<string>, c: Corpus, graph: Option<seq<GraphItem>>,
                        generation: nat, lockHash: string, topK: nat, maxTerms: nat)
    requires CollisionFree(s.digest) && Admitted(s, q, terms, c, graph, topK, maxTerms)
    ensures var streams := Streams(s, q, terms, c, graph).value;
            Settled(Passages(streams.0), Passages(streams.1), topK, MAX_TOP_K) <==>
            (forall d: Digest :: CollisionFree(d) ==> Faithful(s.(digest := d), q, terms, c, graph, generation, lockHash, topK, maxTerms))
  {
    hide Streams, CollisionFree, Faithful, Settled, Passages, NoneTwice, CorpusOk;
    var streams := Streams(s, q, terms, c, graph).value;
    if Settled(Passages(streams.0), Passages(streams.1), topK, MAX_TOP_K) {
      forall d: Digest | CollisionFree(d) ensures Faithful(s.(digest := d), q, terms, c, graph, generation, lockHash, topK, maxTerms) {
        SamePassages(s, d, q, terms, c, graph);
        SelectionIsUnbounded(s.(digest := d), q, terms, c, graph, generation, lockHash, topK, maxTerms);
      }
    } else {
      var d := UnsettledChanges(s, q, terms, c, graph, generation, lockHash, topK, maxTerms);
    }
  }
}
