/** The replay at the end of the locked checks subsumes the field-by-field checks before it: a ledger
    that a fresh retrieval over the same verified corpus reproduces passes all of them
    (library/retrieval_promotion.py). */
module PromotionReplay {
  import opened Basics
  import opened Lookup
  import opened Ordering
  import opened PromotionRequests
  import opened RetrievalBackends
  import opened RetrievalHits
  import opened RetrievalLedger
  import opened RetrievalMerge
  import opened RetrievalSelection
  import opened RetrievalTies
  import opened RetrievalTruncation
  import opened Snapshots
  import opened SourceText

  /** The corpus that the replay reads is what the corpus lock and the snapshot's Papers name. */
  ghost predicate Verified(x: Replay, papers: map<string, Paper>, c: LockedCorpus) {
    && CorpusOk(x.corpus)
    && forall i :: 0 <= i < |x.corpus.papers| ==> PaperVerified(x.corpus.papers[i], papers, c)
  }

  predicate PaperVerified(p: PaperText, papers: map<string, Paper>, c: LockedCorpus) {
    && p.paperId in papers && p.paperId in c.papers
    && p.rawMdPath == papers[p.paperId].rawMdPath == c.papers[p.paperId].rawMdPath
    && p.rawMdHash == papers[p.paperId].rawMdHash && c.papers[p.paperId].text == Some(p.text)
  }

  // ---------------------------------------------------------------- what a replayed candidate is

  ghost predicate ScoredByTerms(s: Setting, terms: seq<string>, h: Hit) {
    terms != [] && h.score == TextScore(s.casefold(h.sourceText), terms)
  }

  lemma TextScored(s: Setting, q: Query, terms: seq<string>, c: Corpus, h: Hit)
    requires terms != [] && CorpusOk(c) && h in TextStream(s, q, terms, c.papers) && h.isValid
    ensures ScoredByTerms(s, terms, h)
  {
    hide TextStream, Paragraphs, CorpusOk, Sliced, MatchedTerms, PaperIndex, CandidateKey, WindowContext;
    var i, j := TextFound(s, q, terms, c, h);
  }

  /** The score of a merged hit follows the rule for its origin. */
  lemma MergedScore(s: Setting, q: Query, terms: seq<string>, papers: seq<PaperText>, text: seq<Hit>, graph: seq<Hit>, m: Hit)
    requires Found(s, q, papers, text, graph) && MergedFrom(s, q, papers, text, graph, m) && terms != []
    requires forall t :: t in text ==> ScoredByTerms(s, terms, t)
    ensures m.score == ExpectedScore(s, terms, m)
  {
    hide Sliced, At, Alike, TextScore;
    var at := LocationOf(m);
    AtFacts(text, at);
    AtFacts(graph, at);
    var t, g, w := At(text, at), At(graph, at), MergedAt(s, q, papers, text, graph, at).value;
    AlikeOrigin(m, w);
    AlikeText(m, w);
  }

  lemma AlikeText(g: Hit, h: Hit)
    requires Alike(g, h)
    ensures g.sourceText == h.sourceText
  {
  }

  /** A slice of a verified paper under the expected score passes every check on a valid candidate. */
  lemma SlicedAuthentic(s: Setting, l: Ledger, q: RetrievalQuery, terms: seq<string>, x: Replay, papers: map<string, Paper>,
                        c: LockedCorpus, h: Hit)
    requires Verified(x, papers, c) && Sliced(s, Query(q.text, q.queryId, q.intent), x.corpus.papers, h)
    requires l.queryTextHash == s.digest(TextBytes(q.text)) && terms != [] && h.score == ExpectedScore(s, terms, h)
    ensures h.isValid && h.start.Some? && h.end.Some? && HitAuthentic(s, l, q, terms, h, papers, c)
  {
    hide WindowContext, PaperIndex, TextScore, CorpusOk;
    var i := PaperIndex(x.corpus.papers, h.paperId);
    assert PaperVerified(x.corpus.papers[i], papers, c);
  }

  lemma InvalidAuthentic(s: Setting, l: Ledger, q: RetrievalQuery, terms: seq<string>, x: Replay, papers: map<string, Paper>,
                         c: LockedCorpus, origin: Origin, h: Hit)
    requires Verified(x, papers, c) && Emitted(s, Query(q.text, q.queryId, q.intent), x.corpus.papers, origin, h) && !h.isValid
    requires l.queryTextHash == s.digest(TextBytes(q.text))
    ensures HitAuthentic(s, l, q, terms, h, papers, c)
  {
    hide HitOk, PaperIndex, CorpusOk;
    var i := PaperIndex(x.corpus.papers, h.paperId);
    assert PaperVerified(x.corpus.papers[i], papers, c);
  }

  // ---------------------------------------------------------------- the whole ledger

  /** The ledger's hits: merged from what the two searches keep, or invalid ones that they emitted. */
  lemma ReplayedValid(s: Setting, q: Query, terms: seq<string>, x: Replay, text: seq<Hit>, graph: seq<Hit>, h: Hit)
    requires CorpusOk(x.corpus) && terms != [] && Streams(s, q, terms, x.corpus, x.graph) == Ok((text, graph))
    requires h in StableSort(RankLeq, MergeAll(s, q, x.corpus.papers, KeptValid(text) + KeptValid(graph)))
    ensures Sliced(s, q, x.corpus.papers, h) && h.score == ExpectedScore(s, terms, h)
  {
    hide Found, Sliced, RankLeq, MergeAll, Streams, CorpusOk, MergedFrom, Searched, StableSort, KeptValid;
    var t, g := KeptValid(text), KeptValid(graph);
    var papers := x.corpus.papers;
    KeptAreFound(s, q, terms, x.corpus, x.graph, text, graph);
    KeptMembers(text);
    FoundSearched(s, q, papers, t, g);
    SortSame(RankLeq, MergeAll(s, q, papers, t + g));
    assert g[..|g|] == g;
    MergeFacts(s, q, papers, t, g, |g|);
    MergedSliced(s, q, papers, t, g, h);
    forall k | k in t ensures ScoredByTerms(s, terms, k) {
      StreamScored(s, q, terms, x, text, graph, k);
    }
    MergedScore(s, q, terms, papers, t, g, h);
  }

  lemma StreamScored(s: Setting, q: Query, terms: seq<string>, x: Replay, text: seq<Hit>, graph: seq<Hit>, h: Hit)
    requires CorpusOk(x.corpus) && terms != [] && Streams(s, q, terms, x.corpus, x.graph) == Ok((text, graph))
    requires h in text && h.isValid
    ensures ScoredByTerms(s, terms, h)
  {
    hide CorpusOk, TextStream, GraphStream, AllFit, IntentAgrees, QueryFits, ScoredByTerms;
    TextScored(s, q, terms, x.corpus, h);
  }

  lemma NoTermsNoHits(s: Setting, q: Query, x: Replay)
    requires Streams(s, q, [], x.corpus, x.graph).Ok?
    ensures Streams(s, q, [], x.corpus, x.graph) == Ok(([], []))
    ensures StableSort(RankLeq, MergeAll(s, q, x.corpus.papers, KeptValid([]) + KeptValid([]))) == []
  {
    hide RankLeq, KeptValid, TextStream, GraphStream, AllFit, IntentAgrees, QueryFits;
    NothingKept();
  }

  lemma NothingKept()
    ensures KeptValid([]) == []
  {
    hide RankLeq;
    assert HitsOf([], true) == [];
    assert |StableSort(RankLeq, HitsOf([], true))| == 0;
  }

  /** Every candidate of a ledger that the replay reproduces passes the checks on its fields. */
  lemma ReplayAuthenticates(s: Setting, l: Ledger, q: RetrievalQuery, terms: seq<string>, x: Replay, papers: map<string, Paper>,
                            c: LockedCorpus, h: Hit)
    requires Verified(x, papers, c) && Replayed(s, l, q, terms, x, c) == Some(l) && h in l.rawHits
    ensures h.isValid ==> h.start.Some? && h.end.Some? && terms != []
    ensures HitAuthentic(s, l, q, terms, h, papers, c)
  {
    hide HitAuthentic, Streams, RankLeq, InvalidLeq, MergeAll, KeptValid, KeptInvalid, Batched, HitsOf, Sliced, ExpectedScore, CorpusOk,
      StableSort, AllEmitted, TextScore, Emitted;
    var query := Query(q.text, q.queryId, q.intent);
    var streams := Streams(s, query, terms, x.corpus, x.graph).value;
    BackendClasses(streams.0, streams.1);
    var valid := StableSort(RankLeq, MergeAll(s, query, x.corpus.papers, KeptValid(streams.0) + KeptValid(streams.1)));
    if terms == [] {
      NoTermsNoHits(s, query, x);
    }
    if h in valid {
      ReplayedValid(s, query, terms, x, streams.0, streams.1, h);
      SlicedAuthentic(s, l, q, terms, x, papers, c, h);
    } else {
      StreamsEmitted(s, query, terms, x.corpus, x.graph, streams.0, streams.1);
      SortSame(InvalidLeq, KeptInvalid(streams.0) + KeptInvalid(streams.1));
      KeptEmitted(s, query, x.corpus.papers, TextBaseline, streams.0);
      KeptEmitted(s, query, x.corpus.papers, Graph, streams.1);
      InvalidAuthentic(s, l, q, terms, x, papers, c, if h in KeptInvalid(streams.0) then TextBaseline else Graph, h);
    }
  }

  /** A ledger is authentic exactly if its query is uniquely canonical and a replay over the verified
      corpus reproduces it; no check on a single field refuses anything more. */
  lemma AuthenticExactly(s: Setting, l: Ledger, q: RetrievalQuery, terms: seq<string>, x: Replay, snapshot: Snapshot, c: LockedCorpus)
    requires LedgerOk(l) && forall h :: h in l.rawHits ==> HitOk(s.digest, h)
    requires Verified(x, ById(snapshot.papers, PaperIdOf), c)
    ensures LedgerAuthentic(s, l, x, q, terms, snapshot, c) <==>
            Matching(snapshot.queries, QueryIdOf, l.queryId) == [q] && Replayed(s, l, q, terms, x, c) == Some(l)
  {
    hide HitAuthentic, LedgerOk, HitOk, Replayed, Verified, ById, Matching;
    if Replayed(s, l, q, terms, x, c) == Some(l) {
      ReplayedFields(s, l, q, terms, x, c);
      forall h | h in l.rawHits
        ensures (h.isValid ==> h.start.Some? && h.end.Some? && terms != [])
                && HitAuthentic(s, l, q, terms, h, ById(snapshot.papers, PaperIdOf), c)
      {
        ReplayAuthenticates(s, l, q, terms, x, ById(snapshot.papers, PaperIdOf), c, h);
      }
    }
  }

  lemma ReplayedFields(s: Setting, l: Ledger, q: RetrievalQuery, terms: seq<string>, x: Replay, c: LockedCorpus)
    requires Replayed(s, l, q, terms, x, c) == Some(l)
    ensures c.lockHash == l.corpusLockHash && l.queryTextHash == s.digest(TextBytes(q.text))
    ensures l.validCandidates > 0 ==> terms != []
  {
    hide Streams, RankLeq, InvalidLeq, MergeAll, KeptValid, KeptInvalid, Batched, HitsOf, StableSort;
    var query := Query(q.text, q.queryId, q.intent);
    var streams := Streams(s, query, terms, x.corpus, x.graph).value;
    BackendClasses(streams.0, streams.1);
    if terms == [] {
      NoTermsNoHits(s, query, x);
    }
  }
}
