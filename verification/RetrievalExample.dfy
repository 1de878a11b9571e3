/** A corpus and a graph for which bounding the two searches does change what a retrieval selects
    (library/retrieval.py): a paper that is one paragraph, and a graph whose evidence is the 101
    beginnings of it, the whole paragraph last. */
module RetrievalExample {
  import opened Basics
  import opened Ids
  import opened Ordering
  import opened SourceText
  import opened RetrievalHits
  import opened RetrievalBackends
  import opened RetrievalLedger
  import opened RetrievalTies
  import opened RetrievalTruncation
  import opened RetrievalSelection
  import Utf8

  const LENGTH: nat := MAX_TOP_K + 1

  function Body(): string {
    "x" + seq(LENGTH - 1, _ => 'y')
  }

  function Paper(): PaperText {
    PaperText("P0001", "raw.md", "", Body())
  }

  function Papers(): Corpus {
    Corpus([Paper()], map["key" := "P0001"])
  }

  function Items(n: nat): seq<GraphItem>
    requires n <= LENGTH
  {
    seq(n, k requires 0 <= k < n => GraphItem("key", "node", "supports", Body()[..k + 1]))
  }

  function World(digest: Digest): Setting {
    Setting(digest, t => t, c => c == ' ' || c == '\t' || c == '\r' || c == '\n', (t, i) => None)
  }

  function Question(): Query {
    Query("xyy zzz", "Q-C0001-SUP-01", Support)
  }

  function Terms(): seq<string> {
    ["xyy", "zzz"]
  }

  lemma BodyFacts()
    ensures |Body()| == LENGTH && Body()[0] == 'x' && forall k :: 1 <= k < LENGTH ==> Body()[k] == 'y'
  {
  }

  lemma QuestionFits()
    ensures IntentAgrees(Question()) && QueryFits(Question())
  {
    var id := "Q-C0001-SUP-01";
    assert id[3..7] == "0001" && id[8..11] == "SUP" && id[12..14] == "01";
    Utf8.EncodedLength(Question().text);
  }

  // ---------------------------------------------------------------- the text search

  lemma {:induction false} NoSeparator(text: string, from: nat)
    requires from <= |text| && forall k :: 0 <= k < |text| ==> text[k] != '\r' && text[k] != '\n'
    ensures NextSeparator(text, from) == None
    decreases |text| - from
  {
    if from < |text| {
      NoSeparator(text, from + 1);
    }
  }

  lemma OneParagraph(s: Setting)
    requires s == World(s.digest)
    ensures Paragraphs(Body(), s.isSpace) == [Range(0, LENGTH)]
  {
    BodyFacts();
    hide Body;
    NoSeparator(Body(), 0);
    hide NextSeparator;
  }

  lemma {:induction false} NeverFound(text: string, needle: string, from: nat)
    requires needle != "" && from <= |text| && forall k :: from <= k < |text| ==> text[k] != needle[0]
    ensures Find(text, needle, from) == None
    decreases |text| - from
  {
    if from < |text| {
      assert text[from..][0] != needle[0];
      NeverFound(text, needle, from + 1);
    }
  }

  lemma WholeMatches()
    ensures MatchedTerms(Body(), Terms()) == 1
  {
    BodyFacts();
    hide Body;
    var terms := Terms();
    assert "xyy" <= Body()[0..];
    NeverFound(Body(), "zzz", 0);
    hide Find;
    assert terms[..1][..0] == [] && terms[..1][0] == "xyy";
    assert MatchedTerms(Body(), terms[..1]) == 1;
  }

  function TextPassage(s: Setting): Hit {
    BodyFacts();
    ValidCandidate(s, Question(), Paper(), Range(0, LENGTH), TextBaseline, None, None, 0.5)
  }

  lemma TextPassageHit(s: Setting)
    requires s == World(s.digest)
    ensures |Paper().text| == LENGTH && TextHit(s, Question(), Terms(), Paper(), Range(0, LENGTH)) == Some(TextPassage(s))
  {
    BodyFacts();
    WholeMatches();
    hide Body, MatchedTerms, WindowContext, CandidateKey, QueryTextHash;
    assert Body()[0..LENGTH] == Body();
  }

  lemma OneTextHit(s: Setting, q: Query, terms: seq<string>, paper: PaperText, r: Range, h: Hit)
    requires terms != [] && r.start < r.end <= |paper.text| && Paragraphs(paper.text, s.isSpace) == [r]
    requires TextHit(s, q, terms, paper, r) == Some(h)
    ensures TextStream(s, q, terms, [paper]) == [h]
  {
    hide TextHit, Paragraphs;
    ParagraphsInPaper(s, paper);
    assert [r][..0] == [] && [paper][..0] == [];
    assert TextHitsIn(s, q, terms, paper, [r]) == [h];
  }

  lemma TextPart(s: Setting)
    requires s == World(s.digest)
    ensures TextStream(s, Question(), Terms(), [Paper()]) == [TextPassage(s)] && AllFit([TextPassage(s)])
  {
    hide Body, TextHit, TextStream, WindowContext, CandidateKey, QueryTextHash, Paragraphs, Question;
    OneParagraph(s);
    TextPassageHit(s);
    OneTextHit(s, Question(), Terms(), Paper(), Range(0, LENGTH), TextPassage(s));
  }

  // ---------------------------------------------------------------- the graph search

  function GraphPassage(s: Setting, k: nat): Hit
    requires k < LENGTH
  {
    BodyFacts();
    ValidCandidate(s, Question(), Paper(), Range(0, k + 1), Graph, Some("node"), Some("supports"), GRAPH_SCORE)
  }

  function GraphPassages(s: Setting, n: nat): seq<Hit>
    requires n <= LENGTH
  {
    seq(n, k requires 0 <= k < n => GraphPassage(s, k))
  }

  lemma BeginningOccursOnce(k: nat)
    requires k < LENGTH
    ensures |Body()| == LENGTH && Body()[..k + 1] != "" && Occurs(Body(), Body()[..k + 1]) == Unique(0)
  {
    BodyFacts();
    hide Body;
    var evidence := Body()[..k + 1];
    assert evidence <= Body()[0..];
    NeverFound(Body(), evidence, 1);
  }

  lemma BeginningStripped(s: Setting, k: nat)
    requires s == World(s.digest) && k < LENGTH
    ensures |Body()| == LENGTH && Strip(Body()[..k + 1], s.isSpace) == Body()[..k + 1]
  {
    BodyFacts();
    hide Body;
    var evidence := Body()[..k + 1];
    assert !s.isSpace(evidence[0]) && !s.isSpace(evidence[k]);
    assert Segment(evidence, s.isSpace, 0, |evidence|) == [Range(0, k + 1)];
    assert evidence[0..k + 1] == evidence;
  }

  lemma UniqueHit(s: Setting, q: Query, paper: PaperText, item: GraphItem, evidence: string)
    requires 1 <= |evidence| <= |paper.text| && |evidence| <= MAX_CANDIDATE_CHARS && item.nodeId != ""
    requires Occurs(paper.text, evidence) == Unique(0)
    requires var h := ValidCandidate(s, q, paper, Range(0, |evidence|), Graph, Some(item.nodeId), Some(item.relation), GRAPH_SCORE);
             MetadataOk(h)
    ensures GraphHit(s, q, paper, item, evidence)
         == Ok(ValidCandidate(s, q, paper, Range(0, |evidence|), Graph, Some(item.nodeId), Some(item.relation), GRAPH_SCORE))
  {
    hide Occurs, ValidCandidate, MetadataOk;
    assert Range(0, 0 + |evidence|) == Range(0, |evidence|);
  }

  lemma PassageFits(s: Setting, k: nat)
    requires s == World(s.digest) && k < LENGTH
    ensures MetadataOk(GraphPassage(s, k))
  {
    hide Body, WindowContext, CandidateKey, QueryTextHash, Question;
  }

  lemma BeginningHit(s: Setting, k: nat)
    requires s == World(s.digest) && k < LENGTH
    ensures |Body()| == LENGTH && Body()[..k + 1] != ""
    ensures GraphHit(s, Question(), Paper(), Items(LENGTH)[k], Body()[..k + 1]) == Ok(GraphPassage(s, k))
  {
    BodyFacts();
    BeginningOccursOnce(k);
    PassageFits(s, k);
    hide Body, Occurs, ValidCandidate, Question, MetadataOk, World, GraphHit;
    UniqueHit(s, Question(), Paper(), Items(LENGTH)[k], Body()[..k + 1]);
  }

  lemma ItemHit(s: Setting, q: Query, c: Corpus, item: GraphItem, i: nat, evidence: string, h: Hit)
    requires s.casefold(item.citekey) in c.citekeys && i < |c.papers|
    requires PaperIndex(c.papers, c.citekeys[s.casefold(item.citekey)]) == i
    requires Strip(item.evidence, s.isSpace) == evidence != "" && GraphHit(s, q, c.papers[i], item, evidence) == Ok(h)
    ensures GraphHits(s, q, c, item) == Ok([h])
  {
    hide Strip, GraphHit, PaperIndex;
  }

  lemma GraphItemHit(s: Setting, k: nat)
    requires s == World(s.digest) && k < LENGTH
    ensures GraphHits(s, Question(), Papers(), Items(LENGTH)[k]) == Ok([GraphPassage(s, k)])
  {
    BeginningHit(s, k);
    BeginningStripped(s, k);
    hide Body, Strip, GraphHit, GraphPassage, Question, GraphHits, Paper, Occurs;
    assert Papers().papers[0].paperId == "P0001" by { PaperName(); }
    assert PaperIndex(Papers().papers, "P0001") == 0;
    ItemHit(s, Question(), Papers(), Items(LENGTH)[k], 0, Body()[..k + 1], GraphPassage(s, k));
  }

  lemma PaperName()
    ensures Paper().paperId == "P0001"
  {
  }

  lemma {:induction false} GraphPart(s: Setting, n: nat)
    requires s == World(s.digest) && n <= LENGTH
    ensures GraphStream(s, Question(), Papers(), Items(n)) == Ok(GraphPassages(s, n))
  {
    hide GraphHits, GraphPassage, Body, Question, Papers;
    if n == 0 {
      assert Items(0) == [] && GraphPassages(s, 0) == [];
    } else {
      GraphPart(s, n - 1);
      GraphItemHit(s, n - 1);
      assert Items(n)[..n - 1] == Items(n - 1) && Items(n)[n - 1] == Items(LENGTH)[n - 1];
      assert GraphPassages(s, n) == GraphPassages(s, n - 1) + [GraphPassage(s, n - 1)];
    }
  }

  // ---------------------------------------------------------------- the retrieval

  lemma TextFacts(s: Setting)
    ensures var h := TextPassage(s); h.isValid && SpotOf(h) == Spot("P0001", 0, LENGTH, 0.5)
  {
    hide Body, WindowContext, CandidateKey, QueryTextHash;
  }

  lemma GraphFacts(s: Setting, k: nat)
    requires k < LENGTH
    ensures var h := GraphPassage(s, k);
            && h.isValid && SpotOf(h) == Spot("P0001", 0, k + 1, GRAPH_SCORE)
            && h.key == CandidateKey(s, Question(), Paper(), h.sourceText, Some(0), Some(k + 1), Graph)
  {
    hide Body, WindowContext, CandidateKey, QueryTextHash;
  }

  lemma StreamsAre(s: Setting)
    requires s == World(s.digest)
    ensures Streams(s, Question(), Terms(), Papers(), Some(Items(LENGTH))) == Ok(([TextPassage(s)], GraphPassages(s, LENGTH)))
  {
    hide Body, TextPassage, GraphPassages, TextStream, GraphStream, Items, IntentAgrees, QueryFits, AllFit, Question, Paper, World;
    QuestionFits();
    TextPart(s);
    GraphPart(s, LENGTH);
  }

  lemma NothingTwice(s: Setting)
    requires CollisionFree(s.digest)
    ensures NoneTwice([TextPassage(s)], GraphPassages(s, LENGTH))
  {
    hide Body, TextPassage, GraphPassage, CandidateKey, CollisionFree;
    var hits := GraphPassages(s, LENGTH);
    forall i, j | 0 <= i < j < LENGTH ensures hits[i].key != hits[j].key {
      GraphFacts(s, i);
      GraphFacts(s, j);
      if hits[i].key == hits[j].key {
        KeysOfEnds(s, hits[i].sourceText, hits[j].sourceText, i + 1, j + 1);
      }
    }
  }

  lemma KeysOfEnds(s: Setting, a: string, b: string, i: nat, j: nat)
    requires CollisionFree(s.digest)
    requires CandidateKey(s, Question(), Paper(), a, Some(0), Some(i), Graph)
          == CandidateKey(s, Question(), Paper(), b, Some(0), Some(j), Graph)
    ensures i == j
  {
  }

  function Slice(k: nat): Extent {
    Extent("P0001", 0, k + 1)
  }

  function Ends(n: nat): set<Extent> {
    set k | 0 <= k < n :: Slice(k)
  }

  lemma {:induction false} EndsCount(n: nat)
    ensures |Ends(n)| == n
  {
    if n == 0 {
      assert Ends(0) == {};
    } else {
      EndsCount(n - 1);
      assert Ends(n) == Ends(n - 1) + {Slice(n - 1)};
    }
  }

  function Beginning(k: nat): Spot {
    Spot("P0001", 0, k + 1, GRAPH_SCORE)
  }

  function Beginnings(): set<Spot> {
    set k | 0 <= k < LENGTH :: Beginning(k)
  }

  lemma TextPassages(s: Setting)
    ensures Passages([TextPassage(s)]) == {Spot("P0001", 0, LENGTH, 0.5)}
  {
    TextFacts(s);
    HitsOfUniform([TextPassage(s)], true);
    hide Body, TextPassage, HitsOf, SpotOf;
    assert [TextPassage(s)][0] == TextPassage(s);
  }

  /** The graph's passages are the 101 beginnings of the paper. */
  lemma SlicePassages(s: Setting)
    ensures Passages(GraphPassages(s, LENGTH)) == Beginnings()
  {
    hide Body, GraphPassage, SpotOf;
    var hits := GraphPassages(s, LENGTH);
    forall h | h in hits ensures h.isValid && SpotOf(h) in Beginnings() {
      var k :| 0 <= k < LENGTH && hits[k] == h;
      GraphFacts(s, k);
      assert SpotOf(h) == Beginning(k);
    }
    HitsOfUniform(hits, true);
    hide HitsOf;
    forall x | x in Beginnings() ensures x in Spots(hits) {
      var k :| 0 <= k < LENGTH && Beginning(k) == x;
      GraphFacts(s, k);
      assert hits[k] in hits && SpotOf(hits[k]) == x;
    }
  }

  lemma NotSettled(topK: nat)
    requires topK >= 1
    ensures !Settled({Spot("P0001", 0, LENGTH, 0.5)}, Beginnings(), topK, MAX_TOP_K)
  {
    var t, g, other := Spot("P0001", 0, LENGTH, 0.5), Beginning(LENGTH - 1), Beginning(0);
    var text, graph := {t}, Beginnings();
    assert t in text && g in graph && other in graph && Contested(t, g, other);
    forall x | x in text + graph ensures !Before(x, g) && (x == t || !Before(g, x)) {
      LexTrichotomy(x.paperId, g.paperId);
    }
    LexTrichotomy(t.paperId, g.paperId);
    assert Foremost(text + graph, g) == {};
    forall e | e in Ends(LENGTH) ensures e in UpTo(graph, g) {
      var k :| 0 <= k < LENGTH && e == Slice(k);
      assert Beginning(k) in graph && !Before(g, Beginning(k)) && ExtentOf(Beginning(k)) == e;
    }
    EndsCount(LENGTH);
    SubsetCount(Ends(LENGTH), UpTo(graph, g));
    assert !SettledAt(text, graph, t, g, topK, MAX_TOP_K);
  }

  lemma OneCorpus()
    ensures CorpusOk(Papers())
  {
    hide Body;
  }

  /** Whatever is selected, one hit or a hundred, some digest without collisions has the retrieval
      succeed and select otherwise than unbounded searches would. */
  lemma BoundingChangesSelection(digest: Digest, generation: nat, lockHash: string, topK: nat, maxTerms: nat) returns (d: Digest)
    requires CollisionFree(digest) && 1 <= topK <= MAX_TOP_K && 1 <= maxTerms <= MAX_QUERY_TERMS
    ensures CollisionFree(d)
    ensures Retrieval(World(d), Question(), Terms(), Papers(), Some(Items(LENGTH)), generation, lockHash, topK, maxTerms).Ok?
    ensures !Faithful(World(d), Question(), Terms(), Papers(), Some(Items(LENGTH)), generation, lockHash, topK, maxTerms)
  {
    hide CollisionFree, Streams, Settled, Passages, NoneTwice, CorpusOk, Retrieval, Faithful, Body, GraphPassages, TextPassage, Items;
    var s := World(digest);
    StreamsAre(s);
    NothingTwice(s);
    TextPassages(s);
    SlicePassages(s);
    OneCorpus();
    NotSettled(topK);
    d := UnsettledChanges(s, Question(), Terms(), Papers(), Some(Items(LENGTH)), generation, lockHash, topK, maxTerms);
    AdmittedAgain(s, d, Question(), Terms(), Papers(), Some(Items(LENGTH)), generation, lockHash, topK, maxTerms);
    assert s.(digest := d) == World(d);
  }
}
