/** What the hits of a retrieval say about the texts and the graph: which paragraphs match a query and
    how they score, which evidence texts are located and where, and what of it the ledger holds
    (library/retrieval.py). */
module RetrievalMatches {
  import opened Basics
  import opened Ids
  import opened Ordering
  import opened SourceText
  import opened RetrievalHits
  import opened RetrievalBackends
  import opened RetrievalMerge
  import opened RetrievalTruncation
  import opened RetrievalLedger
  import opened RetrievalTies
  import opened RetrievalSelection

  // ---------------------------------------------------------------- occurrences

  /** Python's `needle in text`. */
  ghost predicate OccursIn(needle: string, text: string) {
    exists k :: OccursAt(needle, text, k)
  }

  predicate OccursAt(needle: string, text: string, k: int) {
    0 <= k <= |text| && needle <= text[k..]
  }

  /** It occurs at `k` and nowhere else. */
  ghost predicate OccursOnce(needle: string, text: string, k: int) {
    OccursAt(needle, text, k) && forall j :: OccursAt(needle, text, j) ==> j == k
  }

  lemma FindExactly(text: string, needle: string, from: nat)
    requires from <= |text|
    ensures Find(text, needle, from).Some? <==> exists k :: from <= k && OccursAt(needle, text, k)
    ensures Find(text, needle, from).Some? ==>
              OccursAt(needle, text, Find(text, needle, from).value)
              && forall k :: from <= k < Find(text, needle, from).value ==> !OccursAt(needle, text, k)
  {
    if needle == "" {
      assert Find(text, needle, from) == Some(from) && OccursAt(needle, text, from);
    }
    hide Find;
    var r := Find(text, needle, from);
    if r.Some? {
      assert OccursAt(needle, text, r.value);
    }
    assert needle != "" ==> !OccursAt(needle, text, |text|);
    forall k | from <= k < (if r.Some? then r.value else |text|) ensures !OccursAt(needle, text, k) {
      assert !(needle <= text[k..]);
    }
  }

  /** An evidence text is absent, or in one place, or in several. */
  lemma OccursExactly(text: string, evidence: string)
    requires evidence != ""
    ensures Occurs(text, evidence).Absent? <==> !OccursIn(evidence, text)
    ensures Occurs(text, evidence).Unique? ==> OccursOnce(evidence, text, Occurs(text, evidence).start)
    ensures !Occurs(text, evidence).Unique? ==> forall k :: !OccursOnce(evidence, text, k)
  {
    FindExactly(text, evidence, 0);
    var first := Find(text, evidence, 0);
    hide Find;
    if first.Some? {
      assert !OccursAt(evidence, text, |text|);
      FindExactly(text, evidence, first.value + 1);
      assert OccursAt(evidence, text, first.value);
    }
  }

  /** `t` is `text` without the white space at both ends. */
  ghost predicate Stripped(text: string, isSpace: char -> bool, t: string) {
    exists a: nat, b: nat :: a <= b <= |text| && StrippedAt(text, isSpace, t, a, b)
  }

  ghost predicate StrippedAt(text: string, isSpace: char -> bool, t: string, a: nat, b: nat)
    requires a <= b <= |text|
  {
    && t == text[a..b] && (t != "" ==> !isSpace(t[0]) && !isSpace(t[|t| - 1]))
    && (forall k :: 0 <= k < a ==> isSpace(text[k])) && (forall k :: b <= k < |text| ==> isSpace(text[k]))
  }

  lemma StripExactly(text: string, isSpace: char -> bool, t: string)
    ensures Stripped(text, isSpace, t) <==> t == Strip(text, isSpace)
  {
    hide TrimStart, TrimEnd;
    var a := TrimStart(text, isSpace, 0, |text|);
    var b := TrimEnd(text, isSpace, a, |text|);
    if a < b {
      assert Segment(text, isSpace, 0, |text|) == [Range(a, b)];
      var u := text[a..b];
      assert u[0] == text[a] && u[|u| - 1] == text[b - 1];
      assert StrippedAt(text, isSpace, u, a, b);
    } else {
      assert text[|text|..|text|] == "";
      assert StrippedAt(text, isSpace, "", |text|, |text|);
    }
    if Stripped(text, isSpace, t) {
      var c: nat, d: nat :| c <= d <= |text| && StrippedAt(text, isSpace, t, c, d);
      if c < d {
        assert t[0] == text[c] && t[|t| - 1] == text[d - 1];
        assert a == c && b == d;
      } else {
        assert a < |text| ==> c <= a < d;
      }
    }
  }

  // ---------------------------------------------------------------- paragraphs

  /** The positions of the terms that occur in a text. */
  ghost function Matching(terms: seq<string>, lowered: string): set<int> {
    set i | 0 <= i < |terms| && OccursIn(terms[i], lowered)
  }

  lemma {:induction false} MatchedExactly(terms: seq<string>, lowered: string)
    ensures MatchedTerms(lowered, terms) == |Matching(terms, lowered)|
  {
    hide Find, OccursIn;
    if terms == [] {
      assert Matching(terms, lowered) == {};
    } else {
      var n := |terms| - 1;
      MatchedExactly(terms[..n], lowered);
      FindIn(lowered, terms[n]);
      assert Matching(terms, lowered) == Matching(terms[..n], lowered) + if OccursIn(terms[n], lowered) then {n} else {};
    }
  }

  lemma FindIn(text: string, needle: string)
    ensures Find(text, needle, 0).Some? <==> OccursIn(needle, text)
  {
    FindExactly(text, needle, 0);
    hide Find;
  }

  /** A query's terms match a text, and score it. */
  ghost predicate Matches(s: Setting, terms: seq<string>, text: string) {
    exists i :: 0 <= i < |terms| && OccursIn(terms[i], s.casefold(text))
  }

  ghost predicate Scores(s: Setting, terms: seq<string>, text: string, score: real) {
    score * |terms| as real == |Matching(terms, s.casefold(text))| as real
  }

  /** A paragraph yields a candidate exactly when some term occurs in it; its score is the share of the
      terms that occur; it is valid, and exactly the paragraph, unless it is too long. */
  lemma TextHitExactly(s: Setting, q: Query, terms: seq<string>, paper: PaperText, r: Range)
    requires terms != [] && r.start < r.end <= |paper.text|
    ensures var clean := paper.text[r.start..r.end]; var h := TextHit(s, q, terms, paper, r);
            && (h.Some? <==> Matches(s, terms, clean))
            && (h.Some? ==> ParagraphHit(s, q, terms, paper, r, h.value))
  {
    var clean := paper.text[r.start..r.end];
    ScoredExactly(terms, s.casefold(clean));
    hide MatchedTerms, TextScore, Matching, OccursIn, ParagraphHit, TextHit;
    TextHitIs(s, q, terms, paper, r);
    if TextHit(s, q, terms, paper, r).Some? {
      TextHitFields(s, q, terms, paper, r);
    }
  }

  lemma TextHitIs(s: Setting, q: Query, terms: seq<string>, paper: PaperText, r: Range)
    requires terms != [] && r.start < r.end <= |paper.text|
    ensures TextHit(s, q, terms, paper, r).Some? <==> MatchedTerms(s.casefold(paper.text[r.start..r.end]), terms) > 0
  {
    hide MatchedTerms, TextScore, ValidCandidate, InvalidCandidateHit, ParagraphTooLong;
  }

  lemma TextHitFields(s: Setting, q: Query, terms: seq<string>, paper: PaperText, r: Range)
    requires terms != [] && r.start < r.end <= |paper.text| && TextHit(s, q, terms, paper, r).Some?
    requires Scores(s, terms, paper.text[r.start..r.end], TextScore(s.casefold(paper.text[r.start..r.end]), terms))
    ensures ParagraphHit(s, q, terms, paper, r, TextHit(s, q, terms, paper, r).value)
  {
    hide MatchedTerms, TextScore, Scores, ParagraphHit, ValidCandidate, InvalidCandidateHit, ParagraphTooLong;
    var clean := paper.text[r.start..r.end];
    var score := TextScore(s.casefold(clean), terms);
    if |clean| > MAX_CANDIDATE_CHARS {
      LongParagraph(s, q, terms, paper, r, score, ParagraphTooLong());
    } else {
      WholeParagraph(s, q, terms, paper, r, score);
    }
  }

  lemma WholeParagraph(s: Setting, q: Query, terms: seq<string>, paper: PaperText, r: Range, score: real)
    requires r.start < r.end <= |paper.text| && r.end - r.start <= MAX_CANDIDATE_CHARS
    requires Scores(s, terms, paper.text[r.start..r.end], score)
    ensures ParagraphHit(s, q, terms, paper, r, ValidCandidate(s, q, paper, r, TextBaseline, None, None, score))
  {
    hide WindowContext, CandidateKey, QueryTextHash, Matching, Scores;
  }

  lemma LongParagraph(s: Setting, q: Query, terms: seq<string>, paper: PaperText, r: Range, score: real, error: string)
    requires r.start < r.end <= |paper.text| && r.end - r.start > MAX_CANDIDATE_CHARS
    requires Scores(s, terms, paper.text[r.start..r.end], score)
    ensures var text := paper.text[r.start..r.end][..MAX_CANDIDATE_CHARS];
            ParagraphHit(s, q, terms, paper, r, InvalidCandidateHit(s, q, paper, text, TextBaseline, None, None, score, error))
  {
    hide CandidateKey, QueryTextHash, Matching, Scores;
  }

  lemma ScoredExactly(terms: seq<string>, lowered: string)
    requires terms != []
    ensures TextScore(lowered, terms) * |terms| as real == |Matching(terms, lowered)| as real
    ensures MatchedTerms(lowered, terms) > 0 <==> exists i :: 0 <= i < |terms| && OccursIn(terms[i], lowered)
  {
    MatchedExactly(terms, lowered);
    MatchingSome(terms, lowered);
    hide MatchedTerms, OccursIn, Matching;
    var n, m := MatchedTerms(lowered, terms) as real, |terms| as real;
    assert n / m * m == n;
  }

  lemma MatchingSome(terms: seq<string>, lowered: string)
    ensures |Matching(terms, lowered)| > 0 <==> exists i :: 0 <= i < |terms| && OccursIn(terms[i], lowered)
  {
    hide OccursIn;
    if |Matching(terms, lowered)| > 0 {
      var i :| i in Matching(terms, lowered);
    }
    forall i | 0 <= i < |terms| && OccursIn(terms[i], lowered) ensures |Matching(terms, lowered)| > 0 {
      assert i in Matching(terms, lowered);
    }
  }

  /** The candidate made of one paragraph, field by field. */
  ghost predicate ParagraphHit(s: Setting, q: Query, terms: seq<string>, paper: PaperText, r: Range, h: Hit)
    requires r.start < r.end <= |paper.text|
  {
    var clean := paper.text[r.start..r.end];
    && h.paperId == paper.paperId && h.rawMdPath == paper.rawMdPath && h.origin == TextBaseline
    && h.queryId == q.id && h.intent == q.intent && h.nodeId.None? && h.relation.None?
    && Scores(s, terms, clean, h.score)
    && (h.isValid <==> |clean| <= MAX_CANDIDATE_CHARS)
    && (if h.isValid then h.start == Some(r.start) && h.end == Some(r.end) && h.sourceText == clean
                          && h.section == s.sectionAt(paper.text, r.start)
        else h.start.None? && h.end.None? && h.section.None? && h.sourceText == clean[..MAX_CANDIDATE_CHARS])
  }

  /** The text search comes across exactly the matching paragraphs. */
  lemma TextStreamExactly(s: Setting, q: Query, terms: seq<string>, papers: seq<PaperText>, i: nat, j: nat)
    requires terms != [] && i < |papers| && j < |Paragraphs(papers[i].text, s.isSpace)|
    ensures var r := Paragraphs(papers[i].text, s.isSpace)[j];
            && r.start < r.end <= |papers[i].text|
            && (Matches(s, terms, papers[i].text[r.start..r.end]) ==>
                  exists h :: h in TextStream(s, q, terms, papers) && ParagraphHit(s, q, terms, papers[i], r, h))
  {
    hide TextHit, Paragraphs, TextStream, Matches, ParagraphHit, TextHitsIn;
    TextStreamHas(s, q, terms, papers, i);
    var r := Paragraphs(papers[i].text, s.isSpace)[j];
    TextHitExactly(s, q, terms, papers[i], r);
    if Matches(s, terms, papers[i].text[r.start..r.end]) {
      TextHitsHave(s, q, terms, papers[i], Paragraphs(papers[i].text, s.isSpace), j);
      var h := TextHit(s, q, terms, papers[i], r).value;
      assert h in TextStream(s, q, terms, papers);
    }
  }

  /** And everything it comes across is a matching paragraph. */
  lemma TextStreamOnly(s: Setting, q: Query, terms: seq<string>, papers: seq<PaperText>, h: Hit) returns (i: nat, j: nat)
    requires terms != [] && h in TextStream(s, q, terms, papers)
    ensures i < |papers| && j < |Paragraphs(papers[i].text, s.isSpace)|
    ensures var r := Paragraphs(papers[i].text, s.isSpace)[j];
            && r.start < r.end <= |papers[i].text| && Matches(s, terms, papers[i].text[r.start..r.end])
            && ParagraphHit(s, q, terms, papers[i], r, h)
  {
    hide TextHit, Paragraphs, TextStream, Matches, ParagraphHit;
    assert papers[..|papers|] == papers;
    i, j := TextSource(s, q, terms, papers, |papers|, h);
    TextHitExactly(s, q, terms, papers[i], Paragraphs(papers[i].text, s.isSpace)[j]);
  }

  // ---------------------------------------------------------------- evidence texts

  /** The candidate made of one evidence text, field by field; it is valid exactly if the text is short
      enough and occurs in one place, and then it is that place. */
  ghost predicate EvidenceHit(s: Setting, q: Query, paper: PaperText, item: GraphItem, evidence: string, h: Hit) {
    && h.paperId == paper.paperId && h.rawMdPath == paper.rawMdPath && h.origin == Graph
    && h.queryId == q.id && h.intent == q.intent && h.nodeId == Some(item.nodeId) && h.relation == Some(item.relation)
    && h.score == 0.9
    && (h.isValid <==> |evidence| <= MAX_CANDIDATE_CHARS && exists k: nat :: OccursOnce(evidence, paper.text, k))
    && (if h.isValid then
          && h.start.Some? && h.end.Some? && OccursOnce(evidence, paper.text, h.start.value)
          && h.end.value == h.start.value + |evidence| && h.sourceText == evidence
          && h.section == s.sectionAt(paper.text, h.start.value)
        else h.start.None? && h.end.None? && h.section.None?
             && h.sourceText == if |evidence| > MAX_CANDIDATE_CHARS then evidence[..MAX_CANDIDATE_CHARS] else evidence)
  }

  lemma LocatedEvidence(s: Setting, q: Query, paper: PaperText, item: GraphItem, evidence: string, start: nat)
    requires 1 <= |evidence| <= MAX_CANDIDATE_CHARS && OccursOnce(evidence, paper.text, start)
    ensures start + |evidence| <= |paper.text|
    ensures var h := ValidCandidate(s, q, paper, Range(start, start + |evidence|), Graph, Some(item.nodeId), Some(item.relation), GRAPH_SCORE);
            EvidenceHit(s, q, paper, item, evidence, h)
  {
    hide WindowContext, CandidateKey, QueryTextHash;
    assert paper.text[start..start + |evidence|] == evidence;
  }

  lemma UnlocatedEvidence(s: Setting, q: Query, paper: PaperText, item: GraphItem, evidence: string, error: string)
    requires |evidence| > MAX_CANDIDATE_CHARS || forall k: nat :: !OccursOnce(evidence, paper.text, k)
    ensures var text := if |evidence| > MAX_CANDIDATE_CHARS then evidence[..MAX_CANDIDATE_CHARS] else evidence;
            EvidenceHit(s, q, paper, item, evidence,
              InvalidCandidateHit(s, q, paper, text, Graph, Some(item.nodeId), Some(item.relation), GRAPH_SCORE, error))
  {
    hide CandidateKey, QueryTextHash, OccursOnce;
  }

  lemma CandidateExactly(s: Setting, q: Query, paper: PaperText, item: GraphItem, evidence: string)
    requires evidence != ""
    ensures EvidenceHit(s, q, paper, item, evidence, EvidenceCandidate(s, q, paper, item, evidence))
  {
    OccursExactly(paper.text, evidence);
    hide Occurs, OccursOnce, OccursIn, ValidCandidate, InvalidCandidateHit, EvidenceHit, EvidenceTooLong, EvidenceAbsent,
      EvidenceRepeated, MetadataOk;
    var at := Occurs(paper.text, evidence);
    if |evidence| > MAX_CANDIDATE_CHARS {
      UnlocatedEvidence(s, q, paper, item, evidence, EvidenceTooLong());
    } else if at.Unique? {
      LocatedEvidence(s, q, paper, item, evidence, at.start);
    } else {
      UnlocatedEvidence(s, q, paper, item, evidence, if at.Absent? then EvidenceAbsent() else EvidenceRepeated());
    }
  }

  lemma GraphHitExactly(s: Setting, q: Query, paper: PaperText, item: GraphItem, evidence: string)
    requires evidence != ""
    ensures var r := GraphHit(s, q, paper, item, evidence);
            && (r.Err? ==> r.error == InvalidCandidate)
            && (r.Ok? ==> item.nodeId != "" && MetadataOk(r.value) && EvidenceHit(s, q, paper, item, evidence, r.value))
  {
    CandidateExactly(s, q, paper, item, evidence);
    hide EvidenceHit, EvidenceCandidate, MetadataOk;
  }

  /** An evidence text yields a candidate exactly if its citation key belongs to a Paper and it is not blank. */
  lemma GraphHitsExactly(s: Setting, q: Query, c: Corpus, item: GraphItem, evidence: string)
    requires CorpusOk(c) && Stripped(item.evidence, s.isSpace, evidence)
    ensures var r := GraphHits(s, q, c, item); var known := s.casefold(item.citekey) in c.citekeys;
            && (r == Ok([]) <==> !known || evidence == "")
            && (r.Err? ==> r.error == InvalidCandidate)
            && (r.Ok? && r.value != [] ==>
                  exists i :: 0 <= i < |c.papers| && c.papers[i].paperId == c.citekeys[s.casefold(item.citekey)]
                    && |r.value| == 1 && EvidenceHit(s, q, c.papers[i], item, evidence, r.value[0]))
  {
    StripExactly(item.evidence, s.isSpace, evidence);
    hide Stripped, Strip, GraphHit, EvidenceHit, PaperIndex;
    var known := s.casefold(item.citekey) in c.citekeys;
    if known && evidence != "" {
      var i := PaperIndex(c.papers, c.citekeys[s.casefold(item.citekey)]);
      GraphHitExactly(s, q, c.papers[i], item, evidence);
    }
  }

  // ---------------------------------------------------------------- the ledger

  /** A merged hit that the graph found names the node and relation of one of the graph's hits there. */
  ghost predicate Sourced(hits: seq<Hit>, m: Hit) {
    !m.origin.TextBaseline? ==>
      exists g :: g in hits && g.origin.Graph? && LocationOf(g) == LocationOf(m) && g.nodeId == m.nodeId && g.relation == m.relation
  }

  lemma {:induction false} MergedSourced(s: Setting, q: Query, papers: seq<PaperText>, hits: seq<Hit>, n: nat)
    requires n <= |hits| && forall h :: h in hits ==> !h.origin.Both?
    ensures forall m :: m in MergeAll(s, q, papers, hits[..n]) ==> Sourced(hits, m)
  {
    hide LocationOf, IndexAt, MergeAll, Combine;
    if n == 0 {
      MergeNothing(s, q, papers, hits);
    } else {
      MergedSourced(s, q, papers, hits, n - 1);
      MergeStep(s, q, papers, hits, n - 1);
      var merged, hit := MergeAll(s, q, papers, hits[..n - 1]), hits[n - 1];
      var i := IndexAt(merged, LocationOf(hit));
      assert hit in hits && Sourced(hits, hit);
      if i < |merged| && merged[i].origin != hit.origin {
        assert Sourced(hits, merged[i]);
        CombinedSource(s, q, papers, hits, merged[i], hit);
      }
    }
  }

  lemma CombinedSource(s: Setting, q: Query, papers: seq<PaperText>, hits: seq<Hit>, prior: Hit, hit: Hit)
    requires hit in hits && !hit.origin.Both? && Sourced(hits, prior) && LocationOf(prior) == LocationOf(hit) && prior.origin != hit.origin
    ensures Sourced(hits, Combine(s, q, papers, prior, hit))
  {
    CombineKeepsLocation(s, q, papers, prior, hit);
    hide LocationOf;
  }

  /** A passage of a successful retrieval's ledger, field by field: found by the text search, it is a
      matching paragraph; found by the graph search, it is the place of an evidence text; its score is
      that of the one or the larger of the two. */
  ghost predicate Explained(s: Setting, q: Query, terms: seq<string>, c: Corpus, graph: Option<seq<GraphItem>>, h: Hit) {
    && (h.origin != Graph ==> exists i, j ::
          0 <= i < |c.papers| && 0 <= j < |Paragraphs(c.papers[i].text, s.isSpace)| && ExplainedByText(s, terms, c, i, j, h))
    && (h.origin != TextBaseline ==> graph.Some? && exists i, k ::
          0 <= i < |c.papers| && 0 <= k < |graph.value| && ExplainedByGraph(s, c, graph.value[k], i, h))
  }

  ghost predicate ExplainedByText(s: Setting, terms: seq<string>, c: Corpus, i: nat, j: nat, h: Hit)
    requires i < |c.papers| && j < |Paragraphs(c.papers[i].text, s.isSpace)|
  {
    var paper := c.papers[i];
    var r := Paragraphs(paper.text, s.isSpace)[j];
    && h.paperId == paper.paperId && h.start == Some(r.start) && h.end == Some(r.end) && r.start < r.end <= |paper.text|
    && h.sourceText == paper.text[r.start..r.end] && Matches(s, terms, h.sourceText)
    && (h.origin == TextBaseline ==> Scores(s, terms, h.sourceText, h.score))
    && (h.origin == Both ==> exists score :: Scores(s, terms, h.sourceText, score) && h.score == Max(score, 0.9))
  }

  ghost predicate ExplainedByGraph(s: Setting, c: Corpus, item: GraphItem, i: nat, h: Hit)
    requires i < |c.papers|
  {
    && h.paperId == c.papers[i].paperId && s.casefold(item.citekey) in c.citekeys
    && c.citekeys[s.casefold(item.citekey)] == h.paperId
    && h.start.Some? && h.end.Some? && h.end.value == h.start.value + |h.sourceText|
    && Stripped(item.evidence, s.isSpace, h.sourceText) && OccursOnce(h.sourceText, c.papers[i].text, h.start.value)
    && h.nodeId == Some(item.nodeId) && h.relation == Some(item.relation)
    && (h.origin == Graph ==> h.score == 0.9)
  }

  lemma TextExplained(s: Setting, q: Query, terms: seq<string>, c: Corpus, t: Hit, h: Hit)
    requires terms != [] && t in TextStream(s, q, terms, c.papers) && t.isValid
    requires h.paperId == t.paperId && h.start == t.start && h.end == t.end && h.sourceText == t.sourceText && h.origin != Graph
    requires h.score == if h.origin == TextBaseline then t.score else Max(t.score, 0.9)
    ensures exists i, j ::
      0 <= i < |c.papers| && 0 <= j < |Paragraphs(c.papers[i].text, s.isSpace)| && ExplainedByText(s, terms, c, i, j, h)
  {
    hide TextStream, Paragraphs, Matching, OccursIn;
    var i, j := TextStreamOnly(s, q, terms, c.papers, t);
    assert Scores(s, terms, h.sourceText, t.score);
    assert ExplainedByText(s, terms, c, i, j, h);
  }

  lemma GraphExplained(s: Setting, q: Query, c: Corpus, items: seq<GraphItem>, g: Hit, h: Hit)
    requires CorpusOk(c) && GraphStream(s, q, c, items).Ok? && g in GraphStream(s, q, c, items).value && g.isValid
    requires h.paperId == g.paperId && h.start == g.start && h.end == g.end && h.sourceText == g.sourceText
    requires h.nodeId == g.nodeId && h.relation == g.relation && (h.origin == Graph ==> h.score == g.score)
    ensures exists i, k :: 0 <= i < |c.papers| && 0 <= k < |items| && ExplainedByGraph(s, c, items[k], i, h)
  {
    hide GraphStream, GraphHits, Stripped, OccursOnce, CorpusOk, Strip;
    var k := GraphSource(s, q, c, items, g);
    var evidence := Strip(items[k].evidence, s.isSpace);
    StripExactly(items[k].evidence, s.isSpace, evidence);
    GraphHitsExactly(s, q, c, items[k], evidence);
    var i :| 0 <= i < |c.papers| && c.papers[i].paperId == c.citekeys[s.casefold(items[k].citekey)]
             && EvidenceHit(s, q, c.papers[i], items[k], evidence, [g][0]);
    assert ExplainedByGraph(s, c, items[k], i, h);
  }

  /** What merging the two lists holds comes from a text hit, or a graph hit with its provenance, or both. */
  lemma MergedParts(s: Setting, q: Query, papers: seq<PaperText>, text: seq<Hit>, graph: seq<Hit>, m: Hit) returns (t: Option<Hit>, g: Option<Hit>)
    requires Found(s, q, papers, text, graph) && MergedFrom(s, q, papers, text, graph, m) && Sourced(text + graph, m)
    ensures t.Some? <==> m.origin != Graph
    ensures g.Some? <==> m.origin != TextBaseline
    ensures t.Some? ==> t.value in text && SameSlice(t.value, m)
    ensures g.Some? ==> g.value in graph && SameSlice(g.value, m) && g.value.nodeId == m.nodeId && g.value.relation == m.relation
    ensures m.origin == TextBaseline ==> m.score == t.value.score
    ensures m.origin == Graph ==> m.score == g.value.score
    ensures m.origin == Both ==> m.score == Max(t.value.score, 0.9)
  {
    hide Sliced, At, Alike, LocationOf;
    var at := LocationOf(m);
    AtFacts(text, at);
    AtFacts(graph, at);
    FoundSearched(s, q, papers, text, graph);
    var w := MergedAt(s, q, papers, text, graph, at).value;
    AlikeOrigin(m, w);
    AlikeSlice(m, w);
    t := if m.origin == Graph then None else At(text, at);
    g := None;
    if m.origin != TextBaseline {
      var k :| k in text + graph && k.origin.Graph? && LocationOf(k) == LocationOf(m) && k.nodeId == m.nodeId && k.relation == m.relation;
      g := Some(k);
      AlikeSlice(k, At(graph, at).value);
    }
    if t.Some? && g.Some? {
      SameTextThere(s, q, papers, t.value, At(graph, at).value);
    }
  }

  predicate SameSlice(g: Hit, h: Hit) {
    g.paperId == h.paperId && g.start == h.start && g.end == h.end && g.sourceText == h.sourceText
  }

  lemma AlikeSlice(g: Hit, h: Hit)
    requires Alike(g, h)
    ensures SameSlice(g, h)
  {
  }

  lemma SameTextThere(s: Setting, q: Query, papers: seq<PaperText>, t: Hit, g: Hit)
    requires Sliced(s, q, papers, t) && Sliced(s, q, papers, g) && LocationOf(t) == LocationOf(g)
    ensures SameSlice(t, g)
  {
    hide WindowContext, CandidateKey, PaperIndex;
  }

  lemma LedgerValid(s: Setting, q: Query, papers: seq<PaperText>, text: seq<Hit>, graph: seq<Hit>,
                    generation: nat, lockHash: string, topK: nat, maxTerms: nat, h: Hit)
    ensures var l := Assembled(s, q, papers, Batched(text, MAX_TOP_K), Batched(graph, MAX_TOP_K), generation, lockHash, topK, maxTerms).ledger;
            h in l.rawHits && h.isValid ==> h in MergeAll(s, q, papers, KeptValid(text) + KeptValid(graph))
    ensures var l := Assembled(s, q, papers, Batched(text, MAX_TOP_K), Batched(graph, MAX_TOP_K), generation, lockHash, topK, maxTerms).ledger;
            h in MergeAll(s, q, papers, KeptValid(text) + KeptValid(graph)) ==> h in l.rawHits
  {
    hide HitsOf, KeptValid, RankLeq, MergeAll, Batched, StableSort, InvalidLeq, KeptInvalid;
    BackendClasses(text, graph);
    SortSame(RankLeq, MergeAll(s, q, papers, KeptValid(text) + KeptValid(graph)));
    SortSame(InvalidLeq, KeptInvalid(text) + KeptInvalid(graph));
    KeptMembers(text);
    KeptMembers(graph);
  }

  lemma NotBoth(s: Setting, q: Query, papers: seq<PaperText>, text: seq<Hit>, graph: seq<Hit>)
    requires Found(s, q, papers, text, graph)
    ensures forall h :: h in text + graph ==> !h.origin.Both?
  {
    hide Sliced;
  }

  lemma StreamsParts(s: Setting, q: Query, terms: seq<string>, c: Corpus, graph: Option<seq<GraphItem>>)
    requires Streams(s, q, terms, c, graph).Ok?
    ensures var streams := Streams(s, q, terms, c, graph).value;
            && (terms == [] || graph.None? ==> streams.1 == [])
            && (terms == [] ==> streams.0 == [])
            && (terms != [] ==> streams.0 == TextStream(s, q, terms, c.papers))
            && (terms != [] && graph.Some? ==> GraphStream(s, q, c, graph.value) == Ok(streams.1))
  {
    hide TextStream, GraphStream, AllFit, IntentAgrees, QueryFits;
  }

  /** Every valid hit of a successful retrieval's ledger is explained by the texts and the graph. */
  lemma RetrievedExplained(s: Setting, q: Query, terms: seq<string>, c: Corpus, graph: Option<seq<GraphItem>>,
                           generation: nat, lockHash: string, topK: nat, maxTerms: nat, h: Hit)
    requires CorpusOk(c)
    requires var r := Retrieval(s, q, terms, c, graph, generation, lockHash, topK, maxTerms);
             r.Ok? && h in r.value.ledger.rawHits && h.isValid
    ensures Explained(s, q, terms, c, graph, h)
  {
    hide Streams, HitsOf, KeptValid, RankLeq, MergeAll, Found, Batched, CorpusOk, Paragraphs, ExplainedByText, ExplainedByGraph,
      MergedFrom, StableSort, InvalidLeq, KeptInvalid;
    var streams := Streams(s, q, terms, c, graph).value;
    var t, g := KeptValid(streams.0), KeptValid(streams.1);
    BackendClasses(streams.0, streams.1);
    LedgerValid(s, q, c.papers, streams.0, streams.1, generation, lockHash, topK, maxTerms, h);
    KeptAreFound(s, q, terms, c, graph, streams.0, streams.1);
    FoundSearched(s, q, c.papers, t, g);
    assert g[..|g|] == g && (t + g)[..|t + g|] == t + g;
    MergeFacts(s, q, c.papers, t, g, |g|);
    NotBoth(s, q, c.papers, t, g);
    MergedSourced(s, q, c.papers, t + g, |t + g|);
    var x, y := MergedParts(s, q, c.papers, t, g, h);
    KeptMembers(streams.0);
    KeptMembers(streams.1);
    StreamsParts(s, q, terms, c, graph);
    if x.Some? {
      TextExplained(s, q, terms, c, x.value, h);
    }
    if y.Some? {
      GraphExplained(s, q, c, graph.value, y.value, h);
    }
  }

  // ---------------------------------------------------------------- nothing is passed over

  /** The ledger holds the passage under no smaller score, or a hundred others that score no less. */
  ghost predicate HeldOrCrowdedOut(rawHits: seq<Hit>, h: Hit) {
    || (exists m :: m in rawHits && m.isValid && LocationOf(m) == LocationOf(h) && m.score >= h.score)
    || (exists crowd :: CrowdedOut(rawHits, crowd, h.score))
  }

  ghost predicate CrowdedOut(rawHits: seq<Hit>, crowd: seq<Hit>, score: real) {
    && |crowd| == MAX_TOP_K && DistinctLocations(crowd)
    && forall m :: m in crowd ==> m in rawHits && m.isValid && m.score >= score
  }

  /** Each of the hits is merged into one at its own location. */
  lemma MergedCrowd(s: Setting, q: Query, papers: seq<PaperText>, merged: seq<Hit>, text: seq<Hit>, graph: seq<Hit>, part: seq<Hit>)
      returns (crowd: seq<Hit>)
    requires Searched(text, graph) && Merges(s, q, papers, merged, text, graph) && DistinctLocations(part)
    requires part == text || part == graph
    ensures |crowd| == |part| && DistinctLocations(crowd)
    ensures forall k :: 0 <= k < |part| ==> crowd[k] in merged && LocationOf(crowd[k]) == LocationOf(part[k]) && crowd[k].score >= part[k].score
  {
    hide LocationOf, MergedFrom, Searched, IndexAt;
    forall k | 0 <= k < |part|
      ensures IndexAt(merged, LocationOf(part[k])) < |merged|
      ensures merged[IndexAt(merged, LocationOf(part[k]))].score >= part[k].score
    {
      assert part[k] in part && Represented(merged, part[k]);
      var j := LocatedAt(merged, part[k]);
      assert merged[IndexAt(merged, LocationOf(part[k]))] in merged;
      MergedAbove(s, q, papers, text, graph, part, merged[IndexAt(merged, LocationOf(part[k]))], part[k]);
    }
    crowd := seq(|part|, k requires 0 <= k < |part| && IndexAt(merged, LocationOf(part[k])) < |merged| =>
                   merged[IndexAt(merged, LocationOf(part[k]))]);
  }

  /** A hit that a search came across is held, or crowded out by what the search kept. */
  lemma KeptOrCrowdedOut(s: Setting, q: Query, papers: seq<PaperText>, merged: seq<Hit>, text: seq<Hit>, graph: seq<Hit>,
                         all: seq<Hit>, part: seq<Hit>, h: Hit)
    requires Searched(text, graph) && Merges(s, q, papers, merged, text, graph)
    requires (part == text || part == graph) && KeepsBest(all, part, MAX_TOP_K) && |part| <= MAX_TOP_K && h in all
    requires AlikeByLocation(all) && forall m :: m in merged ==> m.isValid
    ensures HeldOrCrowdedOut(merged, h)
  {
    hide LocationOf, RankLeq, MergedFrom, Searched, Alike;
    if Represented(part, h) {
      var k :| k in part && LocationOf(k) == LocationOf(h);
      AlikeOrigin(k, h);
      assert Represented(merged, k);
      var j := LocatedAt(merged, k);
      assert merged[j] in merged;
      MergedAbove(s, q, papers, text, graph, part, merged[j], k);
    } else {
      var crowd := MergedCrowd(s, q, papers, merged, text, graph, part);
      forall m | m in crowd ensures m in merged && m.isValid && m.score >= h.score {
        var k :| 0 <= k < |crowd| && crowd[k] == m;
        assert part[k] in part && RankLeq(part[k], h);
        RankedScore(part[k], h);
      }
      assert CrowdedOut(merged, crowd, h.score);
    }
  }

  lemma RankedScore(g: Hit, h: Hit)
    requires RankLeq(g, h)
    ensures g.score >= h.score
  {
  }

  /** No passage that a search comes across is passed over by a successful retrieval. */
  lemma FoundOrCrowdedOut(s: Setting, q: Query, terms: seq<string>, c: Corpus, graph: Option<seq<GraphItem>>,
                          generation: nat, lockHash: string, topK: nat, maxTerms: nat, h: Hit)
    requires CorpusOk(c)
    requires var r := Retrieval(s, q, terms, c, graph, generation, lockHash, topK, maxTerms);
             var streams := Streams(s, q, terms, c, graph);
             r.Ok? && streams.Ok? && (h in streams.value.0 || h in streams.value.1) && h.isValid
    ensures HeldOrCrowdedOut(Retrieval(s, q, terms, c, graph, generation, lockHash, topK, maxTerms).value.ledger.rawHits, h)
  {
    hide Streams, HitsOf, RankLeq, MergeAll, Found, Batched, CorpusOk, MergedFrom, StableSort, InvalidLeq, KeptInvalid, Cut, KeysRepeat,
      HeldOrCrowdedOut, Searched, KeepsBest, Assembled, Merges, NoRepeats;
    var streams := Streams(s, q, terms, c, graph).value;
    var t, g := HitsOf(streams.0, true), HitsOf(streams.1, true);
    HitsOfMembers(streams.0, true);
    HitsOfMembers(streams.1, true);
    StreamsFound(s, q, terms, c, graph, streams.0, streams.1);
    KeptAreFound(s, q, terms, c, graph, streams.0, streams.1);
    RetainedApart(streams.0, streams.1);
    CutApart(s, q, c.papers, t, g);
    CutKeepsBest(t, MAX_TOP_K);
    CutKeepsBest(g, MAX_TOP_K);
    FoundSearched(s, q, c.papers, t, g);
    FoundSearched(s, q, c.papers, Cut(t, MAX_TOP_K), Cut(g, MAX_TOP_K));
    BothAlike(t, g);
    MergedValid(s, q, c.papers, Cut(t, MAX_TOP_K), Cut(g, MAX_TOP_K));
    CutLength(t);
    CutLength(g);
    var merged := MergeAll(s, q, c.papers, Cut(t, MAX_TOP_K) + Cut(g, MAX_TOP_K));
    if h in t {
      KeptOrCrowdedOut(s, q, c.papers, merged, Cut(t, MAX_TOP_K), Cut(g, MAX_TOP_K), t, Cut(t, MAX_TOP_K), h);
    } else {
      KeptOrCrowdedOut(s, q, c.papers, merged, Cut(t, MAX_TOP_K), Cut(g, MAX_TOP_K), g, Cut(g, MAX_TOP_K), h);
    }
    var raw := Assembled(s, q, c.papers, Batched(streams.0, MAX_TOP_K), Batched(streams.1, MAX_TOP_K), generation, lockHash, topK, maxTerms).ledger.rawHits;
    forall m | m in merged ensures m in raw {
      LedgerValid(s, q, c.papers, streams.0, streams.1, generation, lockHash, topK, maxTerms, m);
    }
    MoreHeld(merged, raw, h);
  }

  lemma CutLength(hits: seq<Hit>)
    ensures |Cut(hits, MAX_TOP_K)| <= MAX_TOP_K
  {
  }

  lemma BothAlike(t: seq<Hit>, g: seq<Hit>)
    requires Searched(t, g)
    ensures AlikeByLocation(t) && AlikeByLocation(g)
  {
  }

  lemma MergedValid(s: Setting, q: Query, papers: seq<PaperText>, t: seq<Hit>, g: seq<Hit>)
    requires Found(s, q, papers, t, g)
    ensures Merges(s, q, papers, MergeAll(s, q, papers, t + g), t, g)
    ensures forall m :: m in MergeAll(s, q, papers, t + g) ==> m.isValid
  {
    hide Found, MergedFrom, MergeAll, Sliced, Searched, LocationOf;
    FoundSearched(s, q, papers, t, g);
    assert g[..|g|] == g;
    MergeFacts(s, q, papers, t, g, |g|);
    forall m | m in MergeAll(s, q, papers, t + g) ensures m.isValid {
      MergedSliced(s, q, papers, t, g, m);
      SlicedLocation(s, q, papers, m);
    }
  }

  lemma MoreHeld(merged: seq<Hit>, raw: seq<Hit>, h: Hit)
    requires HeldOrCrowdedOut(merged, h) && forall m :: m in merged ==> m in raw
    ensures HeldOrCrowdedOut(raw, h)
  {
    hide LocationOf;
    if crowd :| CrowdedOut(merged, crowd, h.score) {
      assert CrowdedOut(raw, crowd, h.score);
    }
  }

  /** A matching paragraph of moderate length, and an evidence text that lies in one place, are held by
      the ledger of a successful retrieval unless a hundred passages score no less. */
  lemma ParagraphHeld(s: Setting, q: Query, terms: seq<string>, c: Corpus, graph: Option<seq<GraphItem>>,
                      generation: nat, lockHash: string, topK: nat, maxTerms: nat, i: nat, j: nat)
    requires CorpusOk(c) && terms != [] && i < |c.papers| && j < |Paragraphs(c.papers[i].text, s.isSpace)|
    requires Retrieval(s, q, terms, c, graph, generation, lockHash, topK, maxTerms).Ok?
    ensures var raw, paper, r := Retrieval(s, q, terms, c, graph, generation, lockHash, topK, maxTerms).value.ledger.rawHits,
              c.papers[i], Paragraphs(c.papers[i].text, s.isSpace)[j];
            && r.start < r.end <= |paper.text|
            && var clean := paper.text[r.start..r.end];
               (Matches(s, terms, clean) && |clean| <= MAX_CANDIDATE_CHARS ==>
                  exists h :: ParagraphHit(s, q, terms, paper, r, h) && h.isValid && HeldOrCrowdedOut(raw, h))
  {
    hide TextStream, GraphStream, Paragraphs, Matches, HeldOrCrowdedOut, CorpusOk, Retrieval, AllFit, IntentAgrees, QueryFits, Scores;
    var r := Paragraphs(c.papers[i].text, s.isSpace)[j];
    TextStreamExactly(s, q, terms, c.papers, i, j);
    RetrievalStreams(s, q, terms, c, graph, generation, lockHash, topK, maxTerms);
    if Matches(s, terms, c.papers[i].text[r.start..r.end]) && r.end - r.start <= MAX_CANDIDATE_CHARS {
      var h :| h in TextStream(s, q, terms, c.papers) && ParagraphHit(s, q, terms, c.papers[i], r, h);
      StreamsParts(s, q, terms, c, graph);
      FoundOrCrowdedOut(s, q, terms, c, graph, generation, lockHash, topK, maxTerms, h);
    }
  }

  lemma RetrievalStreams(s: Setting, q: Query, terms: seq<string>, c: Corpus, graph: Option<seq<GraphItem>>,
                         generation: nat, lockHash: string, topK: nat, maxTerms: nat)
    requires Retrieval(s, q, terms, c, graph, generation, lockHash, topK, maxTerms).Ok?
    ensures Streams(s, q, terms, c, graph).Ok?
  {
    hide Streams, KeysRepeat, Assembled;
  }

  // ---------------------------------------------------------------- the ledger's own fields

  function Beyond(seen: nat, kept: nat): nat {
    if seen > kept then seen - kept else 0
  }

  /** What the ledger says about the query, the limits and each search, and what of it is selected. */
  lemma LedgerFields(s: Setting, q: Query, terms: seq<string>, c: Corpus, graph: Option<seq<GraphItem>>,
                     generation: nat, lockHash: string, topK: nat, maxTerms: nat)
    requires Retrieval(s, q, terms, c, graph, generation, lockHash, topK, maxTerms).Ok?
    ensures Streams(s, q, terms, c, graph).Ok?
    ensures var r, streams := Retrieval(s, q, terms, c, graph, generation, lockHash, topK, maxTerms).value, Streams(s, q, terms, c, graph).value;
            var l := r.ledger;
            && l.sourceGeneration == generation && l.queryId == q.id && l.queryTextHash == s.digest(TextBytes(q.text))
            && l.corpusLockHash == lockHash && l.requestedTopK == topK && l.maxQueryTerms == maxTerms
            && l.textTruncatedValid == Beyond(|HitsOf(streams.0, true)|, 100)
            && l.textTruncatedInvalid == Beyond(|HitsOf(streams.0, false)|, 100)
            && l.graphTruncatedValid == Beyond(|HitsOf(streams.1, true)|, 100)
            && l.graphTruncatedInvalid == Beyond(|HitsOf(streams.1, false)|, 100)
            && r.selected <= l.rawHits && |r.selected| == (if l.validCandidates < topK then l.validCandidates else topK)
            && Keys(r.selected) == l.selectedKeys
  {
    hide Streams, HitsOf, MergeAll, RankLeq, InvalidLeq, DiagnosticLeq, StableSort, KeysRepeat;
  }
}
