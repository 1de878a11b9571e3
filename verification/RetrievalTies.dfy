/** When keeping only the best hits of each search can change what a retrieval selects: the exact
    condition on the passages that the two searches find (library/retrieval.py).

    Candidate keys are digests. Merging gives a passage a new key and so a new rank among the
    passages of the same score, paper and start offset. The condition does not mention digests: it
    is about where the passages lie, how they score and how many there are. */
module RetrievalTies {
  import opened Basics
  import opened Ids
  import opened Ordering
  import opened SourceText
  import opened RetrievalHits
  import opened RetrievalBackends
  import opened RetrievalMerge
  import opened RetrievalTruncation
  import opened RetrievalLedger

  // ---------------------------------------------------------------- the condition

  /** A passage that a search finds: where it lies and how it scores. */
  datatype Spot = Spot(paperId: string, start: nat, end: nat, score: real)

  datatype Extent = Extent(paperId: string, start: nat, end: nat)

  function SpotOf(h: Hit): Spot {
    Spot(h.paperId, StartOf(h), h.end.GetOr(0), h.score)
  }

  function ExtentOf(p: Spot): Extent {
    Extent(p.paperId, p.start, p.end)
  }

  function Spots(hits: seq<Hit>): set<Spot> {
    set h | h in hits :: SpotOf(h)
  }

  function Extents(hits: seq<Hit>): set<Extent> {
    set h | h in hits :: ExtentOf(SpotOf(h))
  }

  /** Ranks before, whatever the keys are. */
  predicate Before(a: Spot, b: Spot) {
    a.score > b.score || (a.score == b.score && LexThen(a.paperId, b.paperId, a.start < b.start))
  }

  /** The passages that rank before `p`. */
  function Foremost(spots: set<Spot>, p: Spot): set<Extent> {
    set x | x in spots && Before(x, p) :: ExtentOf(x)
  }

  /** The passages that rank before `p` or level with it. */
  function UpTo(spots: set<Spot>, p: Spot): set<Extent> {
    set x | x in spots && !Before(p, x) :: ExtentOf(x)
  }

  /** A passage that both searches find, scoring no better in the text search, and a second passage
      that the graph search finds at the same start offset. */
  predicate Contested(t: Spot, g: Spot, other: Spot) {
    && ExtentOf(t) == ExtentOf(g) && t.score <= g.score
    && other.paperId == g.paperId && other.start == g.start && other.end != g.end
  }

  /** Wherever two passages contest a start offset that can be selected from, both searches keep what
      they find there: fewer than `cap` paragraphs rank before the text search's passage, and at most
      `cap` graph passages rank up to that start offset. */
  ghost predicate Settled(text: set<Spot>, graph: set<Spot>, topK: nat, cap: nat) {
    forall t, g, other :: t in text && g in graph && other in graph && Contested(t, g, other) ==>
      SettledAt(text, graph, t, g, topK, cap)
  }

  predicate SettledAt(text: set<Spot>, graph: set<Spot>, t: Spot, g: Spot, topK: nat, cap: nat) {
    |Foremost(text + graph, g)| < topK ==> |Foremost(text, t)| < cap && |UpTo(graph, g)| <= cap
  }

  // ---------------------------------------------------------------- what the searches find

  /** An exact slice of its paper, as a search or the merging of two searches makes it. */
  ghost predicate Sliced(s: Setting, q: Query, papers: seq<PaperText>, h: Hit) {
    var i := PaperIndex(papers, h.paperId);
    && i < |papers| && h.start.Some? && h.end.Some? && h.start.value < h.end.value <= |papers[i].text|
    && h.end.value - h.start.value <= MAX_CONTEXT_CHARS
    && h == ValidCandidate(s, q, papers[i], Range(h.start.value, h.end.value), h.origin, h.nodeId, h.relation, h.score)
  }

  /** What two searches find: paragraphs, no two of which start at the same offset, and slices that
      all score alike. */
  ghost predicate Found(s: Setting, q: Query, papers: seq<PaperText>, text: seq<Hit>, graph: seq<Hit>) {
    && (forall h :: h in text ==> Sliced(s, q, papers, h) && h.origin == TextBaseline)
    && (forall g, h :: g in text && h in text && g.paperId == h.paperId && StartOf(g) == StartOf(h) ==> g == h)
    && (forall h :: h in graph ==> Sliced(s, q, papers, h) && h.origin == Graph && h.score == GRAPH_SCORE)
  }

  /** Where a passage lies, with the digest of its text. */
  function LocationIn(s: Setting, papers: seq<PaperText>, e: Extent): Location {
    var i := PaperIndex(papers, e.paperId);
    Location(e.paperId, e.start, e.end,
             if i < |papers| && e.start <= e.end <= |papers[i].text| then s.digest(TextBytes(papers[i].text[e.start..e.end]))
             else "")
  }

  lemma SlicedLocation(s: Setting, q: Query, papers: seq<PaperText>, h: Hit)
    requires Sliced(s, q, papers, h)
    ensures LocationOf(h) == LocationIn(s, papers, ExtentOf(SpotOf(h)))
    ensures h.isValid
  {
    hide WindowContext, PaperIndex, CandidateKey;
  }

  lemma SlicedAlike(s: Setting, q: Query, papers: seq<PaperText>, g: Hit, h: Hit)
    requires Sliced(s, q, papers, g) && Sliced(s, q, papers, h)
    requires LocationOf(g) == LocationOf(h) && g.origin == h.origin && g.score == h.score
    ensures Alike(g, h)
  {
    hide WindowContext, PaperIndex, CandidateKey;
  }

  lemma FoundSearched(s: Setting, q: Query, papers: seq<PaperText>, text: seq<Hit>, graph: seq<Hit>)
    requires Found(s, q, papers, text, graph)
    ensures Searched(text, graph)
  {
    hide Sliced, Alike;
    forall i | 0 <= i < |text| ensures text[i].origin == TextBaseline {
      assert text[i] in text;
    }
    forall i | 0 <= i < |graph| ensures graph[i].origin == Graph {
      assert graph[i] in graph;
    }
    forall g, h | g in text && h in text && LocationOf(g) == LocationOf(h) ensures Alike(g, h) {
      AlikeSelf(g);
    }
    forall g, h | g in graph && h in graph && LocationOf(g) == LocationOf(h) ensures Alike(g, h) {
      SlicedAlike(s, q, papers, g, h);
    }
  }

  lemma FoundPart(s: Setting, q: Query, papers: seq<PaperText>, text: seq<Hit>, graph: seq<Hit>, textKept: seq<Hit>, graphKept: seq<Hit>)
    requires Found(s, q, papers, text, graph)
    requires (forall h :: h in textKept ==> h in text) && (forall h :: h in graphKept ==> h in graph)
    ensures Found(s, q, papers, textKept, graphKept)
  {
    hide Sliced;
  }

  lemma CombinedSliced(s: Setting, q: Query, papers: seq<PaperText>, t: Hit, g: Hit)
    requires Sliced(s, q, papers, t) && Sliced(s, q, papers, g)
    ensures Sliced(s, q, papers, Combine(s, q, papers, t, g))
  {
    hide WindowContext, PaperIndex;
  }

  lemma AlikeSliced(s: Setting, q: Query, papers: seq<PaperText>, m: Hit, w: Hit)
    requires Alike(m, w) && Sliced(s, q, papers, w)
    ensures Sliced(s, q, papers, m)
  {
    hide WindowContext, PaperIndex, CandidateKey;
  }

  /** What merging holds is made of what the searches found. */
  lemma MergedSliced(s: Setting, q: Query, papers: seq<PaperText>, text: seq<Hit>, graph: seq<Hit>, m: Hit)
    requires Found(s, q, papers, text, graph) && MergedFrom(s, q, papers, text, graph, m)
    ensures Sliced(s, q, papers, m)
    ensures exists h :: (h in text || h in graph) && SpotOf(h) == SpotOf(m)
  {
    hide Sliced, At, Alike, Combine;
    var at := LocationOf(m);
    AtFacts(text, at);
    AtFacts(graph, at);
    var t, g, w := At(text, at), At(graph, at), MergedAt(s, q, papers, text, graph, at).value;
    AlikeOrigin(m, w);
    if t.Some? && g.Some? {
      CombinedSliced(s, q, papers, t.value, g.value);
      CombineScore(s, q, papers, t.value, g.value);
      CombineKeepsLocation(s, q, papers, t.value, g.value);
      assert SpotOf(m) == SpotOf(t.value) || SpotOf(m) == SpotOf(g.value);
    } else {
      assert SpotOf(m) == SpotOf(w);
    }
    AlikeSliced(s, q, papers, m, w);
  }

  lemma SlicedKeys(s: Setting, q: Query, papers: seq<PaperText>, g: Hit, h: Hit)
    requires CollisionFree(s.digest) && Sliced(s, q, papers, g) && Sliced(s, q, papers, h) && g.key == h.key
    ensures ExtentOf(SpotOf(g)) == ExtentOf(SpotOf(h)) && LocationOf(g) == LocationOf(h)
  {
    SlicedLocation(s, q, papers, g);
    SlicedLocation(s, q, papers, h);
    hide WindowContext, PaperIndex, LocationIn;
  }

  /** Distinct digests leave no ties in the ranking. */
  lemma FoundRanks(s: Setting, q: Query, papers: seq<PaperText>, text: seq<Hit>, graph: seq<Hit>)
    requires CollisionFree(s.digest) && Found(s, q, papers, text, graph)
    ensures Ranks(s, q, papers, Ranking(s, q, papers, text, graph), text, graph)
  {
    hide Sliced, Found, MergedFrom, RankLeq, Searched, CollisionFree, LocationOf;
    FoundSearched(s, q, papers, text, graph);
    assert graph[..|graph|] == graph;
    MergeFacts(s, q, papers, text, graph, |graph|);
    var merged := MergeAll(s, q, papers, text + graph);
    forall m, n | m in merged && n in merged && RankLeq(m, n) && RankLeq(n, m) ensures LocationOf(m) == LocationOf(n) {
      MergedSliced(s, q, papers, text, graph, m);
      MergedSliced(s, q, papers, text, graph, n);
      TiedStarts(m, n);
      SlicedKeys(s, q, papers, m, n);
    }
    RankingRanks(s, q, papers, text, graph);
  }

  // ---------------------------------------------------------------- counting

  ghost predicate AllSliced(s: Setting, q: Query, papers: seq<PaperText>, hits: seq<Hit>) {
    forall h :: h in hits ==> Sliced(s, q, papers, h)
  }

  lemma SlicedExtents(s: Setting, q: Query, papers: seq<PaperText>, g: Hit, h: Hit)
    requires Sliced(s, q, papers, g) && Sliced(s, q, papers, h) && ExtentOf(SpotOf(g)) == ExtentOf(SpotOf(h))
    ensures LocationOf(g) == LocationOf(h)
  {
    SlicedLocation(s, q, papers, g);
    SlicedLocation(s, q, papers, h);
  }

  lemma LastExtentNew(s: Setting, q: Query, papers: seq<PaperText>, hits: seq<Hit>, h: Hit)
    requires AllSliced(s, q, papers, hits + [h]) && DistinctLocations(hits + [h])
    ensures AllSliced(s, q, papers, hits) && DistinctLocations(hits)
    ensures ExtentOf(SpotOf(h)) !in Extents(hits)
  {
    hide LocationOf, Sliced, SpotOf, ExtentOf;
    assert (hits + [h])[|hits|] == h && h in hits + [h];
    forall k | 0 <= k < |hits| ensures ExtentOf(SpotOf(hits[k])) != ExtentOf(SpotOf(h)) {
      assert (hits + [h])[k] == hits[k] && hits[k] in hits + [h];
      if ExtentOf(SpotOf(hits[k])) == ExtentOf(SpotOf(h)) {
        SlicedExtents(s, q, papers, hits[k], h);
      }
    }
    assert forall i :: 0 <= i < |hits| ==> (hits + [h])[i] == hits[i];
  }

  lemma SetsSnoc(hits: seq<Hit>, h: Hit)
    ensures Extents(hits + [h]) == Extents(hits) + {ExtentOf(SpotOf(h))}
    ensures Spots(hits + [h]) == Spots(hits) + {SpotOf(h)}
    ensures SpotOf(h) in Spots(hits) ==> ExtentOf(SpotOf(h)) in Extents(hits)
  {
    hide SpotOf, ExtentOf;
  }

  lemma {:induction false} ExtentCount(s: Setting, q: Query, papers: seq<PaperText>, hits: seq<Hit>)
    requires AllSliced(s, q, papers, hits) && DistinctLocations(hits)
    ensures |Extents(hits)| == |hits| && |Spots(hits)| == |hits|
  {
    hide AllSliced, DistinctLocations, SpotOf, ExtentOf;
    if hits == [] {
      assert Extents(hits) == {} && Spots(hits) == {};
    } else {
      var front, h := hits[..|hits| - 1], hits[|hits| - 1];
      assert hits == front + [h];
      LastExtentNew(s, q, papers, front, h);
      SetsSnoc(front, h);
      ExtentCount(s, q, papers, front);
    }
  }

  lemma {:induction false} ExtentsAtMost(hits: seq<Hit>)
    ensures |Extents(hits)| <= |hits|
  {
    hide SpotOf, ExtentOf;
    if hits == [] {
      assert Extents(hits) == {};
    } else {
      var front, h := hits[..|hits| - 1], hits[|hits| - 1];
      assert hits == front + [h];
      ExtentsAtMost(front);
      SetsSnoc(front, h);
    }
  }

  lemma RankBefore(a: Hit, b: Hit)
    ensures RankLeq(a, b) ==> !Before(SpotOf(b), SpotOf(a))
    ensures Before(SpotOf(a), SpotOf(b)) ==> RankLeq(a, b) && !RankLeq(b, a)
    ensures !Before(SpotOf(a), SpotOf(b)) && !Before(SpotOf(b), SpotOf(a)) ==> LevelWith(a, b)
  {
    LexTrichotomy(a.paperId, b.paperId);
  }

  lemma BeforeChain(a: Spot, b: Spot, p: Spot)
    requires Before(b, p) && !Before(b, a)
    ensures Before(a, p)
  {
    LexTrichotomy(a.paperId, b.paperId);
    LexTrichotomy(b.paperId, p.paperId);
    LexLessTransitive(a.paperId, b.paperId, p.paperId);
  }

  lemma RankedSliced(s: Setting, q: Query, papers: seq<PaperText>, x: seq<Hit>, text: seq<Hit>, graph: seq<Hit>, n: nat)
    requires Found(s, q, papers, text, graph) && Ranks(s, q, papers, x, text, graph) && n <= |x|
    ensures AllSliced(s, q, papers, x[..n]) && DistinctLocations(x[..n])
  {
    hide Found, Sliced, RankLeq, LocationOf, MergedFrom;
    forall h | h in x[..n] ensures Sliced(s, q, papers, h) {
      assert h in x;
      MergedSliced(s, q, papers, text, graph, h);
    }
  }

  lemma SpotFound(s: Setting, q: Query, papers: seq<PaperText>, x: seq<Hit>, text: seq<Hit>, graph: seq<Hit>, m: Hit)
    requires Found(s, q, papers, text, graph) && Ranks(s, q, papers, x, text, graph) && m in x
    ensures SpotOf(m) in Spots(text) + Spots(graph)
  {
    hide Found, Sliced, RankLeq, LocationOf, SpotOf, MergedFrom;
    MergedSliced(s, q, papers, text, graph, m);
  }

  /** Every passage found is ranked with no smaller score. */
  lemma BetterRanked(s: Setting, q: Query, papers: seq<PaperText>, x: seq<Hit>, text: seq<Hit>, graph: seq<Hit>, y: Spot)
      returns (l: nat)
    requires Found(s, q, papers, text, graph) && Ranks(s, q, papers, x, text, graph) && y in Spots(text) + Spots(graph)
    ensures l < |x| && ExtentOf(SpotOf(x[l])) == ExtentOf(y) && !Before(y, SpotOf(x[l]))
  {
    hide Found, Sliced, RankLeq, MergedFrom, Searched;
    var h :| (h in text || h in graph) && SpotOf(h) == y;
    assert Represented(x, h);
    l := LocatedAt(x, h);
    assert x[l] in x;
    FoundSearched(s, q, papers, text, graph);
    MergedAbove(s, q, papers, text, graph, if h in text then text else graph, x[l], h);
  }

  lemma EarlierRanked(x: seq<Hit>, i: nat, l: nat, p: Spot)
    requires IsStrictlySorted(RankLeq, x) && i < |x| && l < |x| && Before(SpotOf(x[l]), p) && !Before(SpotOf(x[i]), p)
    ensures l < i
  {
    hide RankLeq, SpotOf, Before;
    if i < l {
      RankBefore(x[i], x[l]);
      BeforeChain(SpotOf(x[i]), SpotOf(x[l]), p);
    }
  }

  lemma CountedBefore(s: Setting, q: Query, papers: seq<PaperText>, x: seq<Hit>, text: seq<Hit>, graph: seq<Hit>, p: Spot, i: nat)
    requires Found(s, q, papers, text, graph) && Ranks(s, q, papers, x, text, graph) && i < |x| && Before(SpotOf(x[i]), p)
    ensures i < |Foremost(Spots(text) + Spots(graph), p)|
  {
    hide Found, Sliced, RankLeq, LocationOf, MergedFrom, SpotOf, Before, ExtentOf;
    RankedSliced(s, q, papers, x, text, graph, i + 1);
    var foremost := Foremost(Spots(text) + Spots(graph), p);
    var front := x[..i + 1];
    ExtentCount(s, q, papers, front);
    forall e | e in Extents(front) ensures e in foremost {
      var h :| h in front && ExtentOf(SpotOf(h)) == e;
      var l :| 0 <= l <= i && x[l] == h;
      RankBefore(x[l], x[i]);
      if l < i {
        BeforeChain(SpotOf(x[l]), SpotOf(x[i]), p);
      }
      SpotFound(s, q, papers, x, text, graph, x[l]);
    }
    SubsetCount(Extents(front), foremost);
  }

  lemma CountedFrom(s: Setting, q: Query, papers: seq<PaperText>, x: seq<Hit>, text: seq<Hit>, graph: seq<Hit>, p: Spot, i: nat)
    requires Found(s, q, papers, text, graph) && Ranks(s, q, papers, x, text, graph) && i < |x| && !Before(SpotOf(x[i]), p)
    ensures |Foremost(Spots(text) + Spots(graph), p)| <= i
  {
    hide Found, Sliced, RankLeq, LocationOf, MergedFrom, SpotOf, Before, ExtentOf;
    var foremost := Foremost(Spots(text) + Spots(graph), p);
    var front := x[..i];
    ExtentsAtMost(front);
    forall e | e in foremost ensures e in Extents(front) {
      var y :| y in Spots(text) + Spots(graph) && Before(y, p) && ExtentOf(y) == e;
      var l := BetterRanked(s, q, papers, x, text, graph, y);
      BeforeChain(SpotOf(x[l]), y, p);
      EarlierRanked(x, i, l, p);
      assert front[l] == x[l] && front[l] in front;
    }
    SubsetCount(foremost, Extents(front));
  }

  /** In a ranking, the passages before `p` come first. */
  lemma ForemostFirst(s: Setting, q: Query, papers: seq<PaperText>, x: seq<Hit>, text: seq<Hit>, graph: seq<Hit>, p: Spot, i: nat)
    requires Found(s, q, papers, text, graph) && Ranks(s, q, papers, x, text, graph) && i < |x|
    ensures i < |Foremost(Spots(text) + Spots(graph), p)| <==> Before(SpotOf(x[i]), p)
  {
    hide Found, Ranks, SpotOf, Before, Foremost, Spots;
    if Before(SpotOf(x[i]), p) {
      CountedBefore(s, q, papers, x, text, graph, p, i);
    } else {
      CountedFrom(s, q, papers, x, text, graph, p, i);
    }
  }

  // ---------------------------------------------------------------- settled passages are kept

  /** A hit is kept if few enough passages rank up to it. */
  lemma KeptByCount(s: Setting, q: Query, papers: seq<PaperText>, all: seq<Hit>, part: seq<Hit>, cap: nat, h: Hit, c: set<Extent>)
    requires KeepsBest(all, part, cap) && AllSliced(s, q, papers, all) && h in all && |c| <= cap
    requires forall k :: k in all && RankLeq(k, h) ==> ExtentOf(SpotOf(k)) in c
    ensures Represented(part, h)
  {
    hide LocationOf, Sliced, SpotOf, ExtentOf;
    if !Represented(part, h) {
      RankIsTotal();
      assert RankLeq(h, h);
      hide RankLeq;
      ExtentCount(s, q, papers, part);
      forall k | k in part ensures ExtentOf(SpotOf(k)) != ExtentOf(SpotOf(h)) {
        if ExtentOf(SpotOf(k)) == ExtentOf(SpotOf(h)) {
          SlicedExtents(s, q, papers, k, h);
        }
      }
      SubsetCount(Extents(part) + {ExtentOf(SpotOf(h))}, c);
    }
  }

  lemma TextKept(s: Setting, q: Query, papers: seq<PaperText>, text: seq<Hit>, graph: seq<Hit>, part: seq<Hit>, cap: nat, t: Hit)
    requires Found(s, q, papers, text, graph) && KeepsBest(text, part, cap) && t in text
    requires |Foremost(Spots(text), SpotOf(t))| < cap
    ensures Represented(part, t)
  {
    hide Sliced, KeepsBest, RankLeq, SpotOf, Before, ExtentOf;
    var c := Foremost(Spots(text), SpotOf(t)) + {ExtentOf(SpotOf(t))};
    forall k | k in text && RankLeq(k, t) ensures ExtentOf(SpotOf(k)) in c {
      RankBefore(k, t);
      RankBefore(t, k);
    }
    KeptByCount(s, q, papers, text, part, cap, t, c);
  }

  lemma GraphKept(s: Setting, q: Query, papers: seq<PaperText>, text: seq<Hit>, graph: seq<Hit>, part: seq<Hit>, cap: nat,
                  g: Hit, h: Hit)
    requires Found(s, q, papers, text, graph) && KeepsBest(graph, part, cap) && g in graph && h in graph && LevelWith(g, h)
    requires |UpTo(Spots(graph), SpotOf(g))| <= cap
    ensures Represented(part, h)
  {
    hide Sliced, KeepsBest, RankLeq, ExtentOf;
    var c := UpTo(Spots(graph), SpotOf(g));
    forall k | k in graph && RankLeq(k, h) ensures ExtentOf(SpotOf(k)) in c {
      RankBefore(k, h);
    }
    KeptByCount(s, q, papers, graph, part, cap, h, c);
  }

  /** Two level hits in a ranking, one of which was merged: the text search found only that one, and
      the two contest their start offset. */
  lemma LevelContested(s: Setting, q: Query, papers: seq<PaperText>, x: seq<Hit>, text: seq<Hit>, graph: seq<Hit>, b: nat, o: nat)
      returns (t: Hit, g: Hit, other: Hit)
    requires Found(s, q, papers, text, graph) && Ranks(s, q, papers, x, text, graph)
    requires b < |x| && o < |x| && b != o && LevelWith(x[b], x[o]) && x[b].origin.Both?
    ensures At(text, LocationOf(x[b])) == Some(t) && At(graph, LocationOf(x[b])) == Some(g)
    ensures At(text, LocationOf(x[o])) == None && At(graph, LocationOf(x[o])) == Some(other)
    ensures t in text && g in graph && other in graph && LevelWith(g, x[b]) && LevelWith(g, other)
    ensures Contested(SpotOf(t), SpotOf(g), SpotOf(other))
  {
    hide Sliced, RankLeq, Alike, Combine, At, Searched;
    assert x[b] in x && x[o] in x && LocationOf(x[b]) != LocationOf(x[o]);
    FoundSearched(s, q, papers, text, graph);
    AtFacts(text, LocationOf(x[b]));
    AtFacts(graph, LocationOf(x[b]));
    AtFacts(text, LocationOf(x[o]));
    AtFacts(graph, LocationOf(x[o]));
    AlikeOrigin(x[b], MergedAt(s, q, papers, text, graph, LocationOf(x[b])).value);
    AlikeOrigin(x[o], MergedAt(s, q, papers, text, graph, LocationOf(x[o])).value);
    t, g := At(text, LocationOf(x[b])).value, At(graph, LocationOf(x[b])).value;
    CombineScore(s, q, papers, t, g);
    other := At(graph, LocationOf(x[o])).value;
    if ExtentOf(SpotOf(g)) == ExtentOf(SpotOf(other)) {
      SlicedExtents(s, q, papers, g, other);
    }
  }

  lemma KeptAtFound(s: Setting, q: Query, papers: seq<PaperText>, all: seq<Hit>, part: seq<Hit>, at: Location, h: Hit)
    requires At(all, at) == Some(h) && Represented(part, h)
    ensures KeptAt(all, part, at)
  {
    hide LocationOf;
    AtFacts(all, at);
    AtFacts(part, at);
  }

  /** Settled passages are undisturbed by the cut. */
  lemma SettledKept(s: Setting, q: Query, papers: seq<PaperText>, x: seq<Hit>, text: seq<Hit>, graph: seq<Hit>,
                    textKept: seq<Hit>, graphKept: seq<Hit>, cap: nat, topK: nat, i: nat, b: nat, o: nat)
    requires Found(s, q, papers, text, graph) && Ranks(s, q, papers, x, text, graph)
    requires KeepsBest(text, textKept, cap) && KeepsBest(graph, graphKept, cap)
    requires Settled(Spots(text), Spots(graph), topK, cap)
    requires b < |x| && o < |x| && b != o && LevelWith(x[b], x[o]) && x[b].origin.Both? && i < topK && (i == b || i == o)
    ensures KeptAt(text, textKept, LocationOf(x[b])) && KeptAt(graph, graphKept, LocationOf(x[b]))
    ensures KeptAt(text, textKept, LocationOf(x[o])) && KeptAt(graph, graphKept, LocationOf(x[o]))
  {
    hide Found, Ranks, KeepsBest, LocationOf, SpotOf, Represented, At, Contested, UpTo, Foremost;
    var t, g, other := LevelContested(s, q, papers, x, text, graph, b, o);
    ForemostFirst(s, q, papers, x, text, graph, SpotOf(g), i);
    RankBefore(x[i], g);
    LevelNotBefore(x[i], g);
    assert SettledAt(Spots(text), Spots(graph), SpotOf(t), SpotOf(g), topK, cap);
    TextKept(s, q, papers, text, graph, textKept, cap, t);
    LevelSelf(g);
    GraphKept(s, q, papers, text, graph, graphKept, cap, g, g);
    GraphKept(s, q, papers, text, graph, graphKept, cap, g, other);
    KeptAtFound(s, q, papers, text, textKept, LocationOf(x[b]), t);
    KeptAtFound(s, q, papers, graph, graphKept, LocationOf(x[b]), g);
    KeptAtFound(s, q, papers, graph, graphKept, LocationOf(x[o]), other);
  }

  lemma LevelSelf(h: Hit)
    ensures LevelWith(h, h)
  {
  }

  lemma LevelNotBefore(g: Hit, h: Hit)
    requires LevelWith(g, h)
    ensures !Before(SpotOf(g), SpotOf(h))
  {
  }

  /** Bounded searches select what unbounded ones would, wherever the passages found are settled. */
  lemma SettledSelection(s: Setting, q: Query, papers: seq<PaperText>, text: seq<Hit>, graph: seq<Hit>, topK: nat, cap: nat)
    requires CollisionFree(s.digest) && Found(s, q, papers, text, graph) && topK <= cap
    requires DistinctLocations(Cut(text, cap)) && DistinctLocations(Cut(graph, cap))
    requires Settled(Spots(text), Spots(graph), topK, cap)
    ensures Places(Take(Ranking(s, q, papers, Cut(text, cap), Cut(graph, cap)), topK))
         == Places(Take(Ranking(s, q, papers, text, graph), topK))
  {
    hide Found, Ranks, KeepsBest, LocationOf, Cut, CollisionFree, Settled, Searched, Ranking, KeptAt;
    var textKept, graphKept := Cut(text, cap), Cut(graph, cap);
    CutMembers(text, cap);
    CutMembers(graph, cap);
    CutKeepsBest(text, cap);
    CutKeepsBest(graph, cap);
    FoundSearched(s, q, papers, text, graph);
    FoundPart(s, q, papers, text, graph, textKept, graphKept);
    FoundRanks(s, q, papers, text, graph);
    FoundRanks(s, q, papers, textKept, graphKept);
    var x := Ranking(s, q, papers, text, graph);
    forall i, j | 0 <= i < |x| && 0 <= j < |x| && i < topK && i != j && LevelWith(x[i], x[j])
                  && (x[i].origin.Both? || x[j].origin.Both?)
      ensures forall k :: k == i || k == j ==>
                KeptAt(text, textKept, LocationOf(x[k])) && KeptAt(graph, graphKept, LocationOf(x[k]))
    {
      var b, o := if x[i].origin.Both? then i else j, if x[i].origin.Both? then j else i;
      SettledKept(s, q, papers, x, text, graph, textKept, graphKept, cap, topK, i, b, o);
    }
    BoundedSelection(s, q, papers, x, Ranking(s, q, papers, textKept, graphKept), text, graph, textKept, graphKept, cap, topK);
  }

  // ---------------------------------------------------------------- digests that change the selection

  /** A digest that sorts what is `low` first and what is `high` last. */
  function Prefixed(d: Digest, low: set<Preimage>, high: set<Preimage>): Digest {
    x => (if x in low then "0" else if x in high then "2" else "1") + d(x)
  }

  lemma PrefixedFree(d: Digest, low: set<Preimage>, high: set<Preimage>)
    requires CollisionFree(d)
    ensures CollisionFree(Prefixed(d, low, high))
  {
    var p := Prefixed(d, low, high);
    forall x, y | p(x) == p(y) ensures x == y {
      assert p(x)[1..] == d(x) && p(y)[1..] == d(y);
    }
  }

  /** How a preimage is sorted. */
  function Grade(low: set<Preimage>, high: set<Preimage>, x: Preimage): nat {
    if x in low then 0 else if x in high then 2 else 1
  }

  lemma PrefixedOrder(d: Digest, low: set<Preimage>, high: set<Preimage>, x: Preimage, y: Preimage)
    requires Grade(low, high, x) < Grade(low, high, y)
    ensures LexLeq(Prefixed(d, low, high)(x), Prefixed(d, low, high)(y))
    ensures !LexLeq(Prefixed(d, low, high)(y), Prefixed(d, low, high)(x))
  {
    var a, b := Prefixed(d, low, high)(x), Prefixed(d, low, high)(y);
    assert a[0] < b[0];
  }

  /** What is hashed for the key of the candidate at `p`, under a prefixed digest. */
  function Marked(s: Setting, q: Query, papers: seq<PaperText>, e: Extent, origin: Origin): Preimage {
    var i := PaperIndex(papers, e.paperId);
    var inText := i < |papers| && e.start <= e.end <= |papers[i].text|;
    CandidateIdentity(e.paperId, RawHashOf(papers, e.paperId), q.id, "1" + s.digest(TextBytes(q.text)),
      if inText then papers[i].text[e.start..e.end] else "", Some(e.start), Some(e.end), origin)
  }

  /** The setting with its digest prefixed by what the origins of one passage are sorted by. */
  function Resorted(s: Setting, low: set<Preimage>, high: set<Preimage>): Setting {
    s.(digest := Prefixed(s.digest, low, high))
  }

  ghost predicate OnlyCandidates(marks: set<Preimage>) {
    forall x :: x in marks ==> x.CandidateIdentity?
  }

  lemma ResortedKey(s: Setting, q: Query, papers: seq<PaperText>, low: set<Preimage>, high: set<Preimage>, h: Hit)
    requires OnlyCandidates(low) && OnlyCandidates(high) && Sliced(Resorted(s, low, high), q, papers, h)
    ensures h.key == Prefixed(s.digest, low, high)(Marked(s, q, papers, ExtentOf(SpotOf(h)), h.origin))
  {
    hide WindowContext, PaperIndex;
  }

  function GradeOf(s: Setting, q: Query, papers: seq<PaperText>, low: set<Preimage>, high: set<Preimage>, h: Hit): nat {
    Grade(low, high, Marked(s, q, papers, ExtentOf(SpotOf(h)), h.origin))
  }

  /** Among level candidates the grade decides. */
  lemma GradeDecides(s: Setting, q: Query, papers: seq<PaperText>, low: set<Preimage>, high: set<Preimage>, g: Hit, h: Hit)
    requires OnlyCandidates(low) && OnlyCandidates(high)
    requires Sliced(Resorted(s, low, high), q, papers, g) && Sliced(Resorted(s, low, high), q, papers, h)
    requires LevelWith(g, h) && GradeOf(s, q, papers, low, high, g) < GradeOf(s, q, papers, low, high, h)
    ensures RankLeq(g, h) && !RankLeq(h, g)
  {
    hide Sliced, Prefixed, Marked;
    ResortedKey(s, q, papers, low, high, g);
    ResortedKey(s, q, papers, low, high, h);
    PrefixedOrder(s.digest, low, high, Marked(s, q, papers, ExtentOf(SpotOf(g)), g.origin),
                  Marked(s, q, papers, ExtentOf(SpotOf(h)), h.origin));
    LexTrichotomy(g.paperId, h.paperId);
  }

  /** The place at which `x` turns to the level of `p` is taken by another hit in `y`. */
  lemma FirstDiffers(x: seq<Hit>, y: seq<Hit>, p: Spot, a: nat, u: Hit, topK: nat)
    requires IsStrictlySorted(RankLeq, y) && a < topK && a < |x| && u in y
    requires forall i :: 0 <= i < |x| ==> (i < a <==> Before(SpotOf(x[i]), p))
    requires !Before(SpotOf(u), p) && LocationOf(u) != LocationOf(x[a])
    requires forall v :: v in y && PlaceOf(v) == PlaceOf(x[a]) ==> RankLeq(u, v)
    ensures Places(Take(y, topK)) != Places(Take(x, topK))
  {
    hide RankLeq, LocationOf, Before;
    var b :| 0 <= b < |y| && y[b] == u;
    if Places(Take(y, topK)) == Places(Take(x, topK)) {
      SamePlaces(x, y, topK, a);
      assert y[a] in y && RankLeq(u, y[a]);
      assert b < a;
      SamePlaces(x, y, topK, b);
      PlaceSpot(x[b], u);
    }
  }

  lemma SamePlaces(x: seq<Hit>, y: seq<Hit>, topK: nat, i: nat)
    requires Places(Take(y, topK)) == Places(Take(x, topK)) && i < topK && i < |x|
    ensures i < |y| && PlaceOf(y[i]) == PlaceOf(x[i])
  {
    hide PlaceOf;
    assert |Take(y, topK)| == |Take(x, topK)|;
    assert Places(Take(y, topK))[i] == PlaceOf(y[i]) && Places(Take(x, topK))[i] == PlaceOf(x[i]);
  }

  lemma PlaceSpot(g: Hit, h: Hit)
    requires PlaceOf(g) == PlaceOf(h)
    ensures SpotOf(g) == SpotOf(h)
  {
  }

  // ---------------------------------------------------------------- what the cut leaves out

  /** Where a hit that the cut keeps is ranked: whatever is strictly ahead of it comes earlier. */
  lemma CutPlace(all: seq<Hit>, cap: nat, h: Hit) returns (p: nat)
    requires h in Cut(all, cap)
    ensures p < cap && p <= |StableSort(RankLeq, all)|
    ensures forall k :: k in all && !RankLeq(h, k) ==> k in StableSort(RankLeq, all)[..p]
  {
    hide RankLeq;
    var ranked := StableSort(RankLeq, all);
    RankIsTotal();
    SortSorted(RankLeq, all);
    SortSame(RankLeq, all);
    p :| 0 <= p < |Cut(all, cap)| && Cut(all, cap)[p] == h;
    assert ranked[p] == h && RankLeq(h, h);
    hide StableSort;
    forall k | k in all && !RankLeq(h, k) ensures k in ranked[..p] {
      assert k in ranked;
      var l :| 0 <= l < |ranked| && ranked[l] == k;
      assert l < p;
    }
  }

  /** Fewer than `cap` passages are strictly ahead of a hit that the cut keeps. */
  lemma CutCount(all: seq<Hit>, cap: nat, h: Hit, c: set<Extent>)
    requires h in Cut(all, cap)
    requires forall e :: e in c ==> exists k :: k in all && ExtentOf(SpotOf(k)) == e && !RankLeq(h, k)
    ensures |c| < cap
  {
    hide RankLeq, SpotOf, ExtentOf, StableSort, Cut;
    var p := CutPlace(all, cap, h);
    var front := StableSort(RankLeq, all)[..p];
    forall e | e in c ensures e in Extents(front) {
      var k :| k in all && ExtentOf(SpotOf(k)) == e && !RankLeq(h, k);
    }
    ExtentsAtMost(front);
    SubsetCount(c, Extents(front));
  }

  /** A paragraph behind `cap` others is left out. */
  lemma TextLeftOut(s: Setting, q: Query, papers: seq<PaperText>, text: seq<Hit>, graph: seq<Hit>, cap: nat, t: Hit)
    requires Found(s, q, papers, text, graph) && t in text && |Foremost(Spots(text), SpotOf(t))| >= cap
    ensures !Represented(Cut(text, cap), t)
  {
    hide Sliced, RankLeq, Before, Cut;
    CutMembers(text, cap);
    if Represented(Cut(text, cap), t) {
      var k :| k in Cut(text, cap) && LocationOf(k) == LocationOf(t);
      assert k == t;
      var c := Foremost(Spots(text), SpotOf(t));
      forall e | e in c ensures exists k :: k in text && ExtentOf(SpotOf(k)) == e && !RankLeq(t, k) {
        var h :| h in text && Before(SpotOf(h), SpotOf(t)) && ExtentOf(SpotOf(h)) == e;
        RankBefore(h, t);
      }
      CutCount(text, cap, t, c);
    }
  }

  /** A slice that is sorted last at its start offset is left out if more than `cap` rank up to there. */
  lemma GraphLeftOut(s: Setting, q: Query, papers: seq<PaperText>, low: set<Preimage>, high: set<Preimage>,
                     text: seq<Hit>, graph: seq<Hit>, cap: nat, g: Hit)
    requires OnlyCandidates(low) && OnlyCandidates(high)
    requires Found(Resorted(s, low, high), q, papers, text, graph) && g in graph
    requires forall k :: k in graph && ExtentOf(SpotOf(k)) != ExtentOf(SpotOf(g)) ==>
               GradeOf(s, q, papers, low, high, k) < GradeOf(s, q, papers, low, high, g)
    requires |UpTo(Spots(graph), SpotOf(g))| > cap
    ensures !Represented(Cut(graph, cap), g)
  {
    hide Sliced, RankLeq, Before, Cut, Marked, Grade;
    CutMembers(graph, cap);
    if Represented(Cut(graph, cap), g) {
      var h :| h in Cut(graph, cap) && LocationOf(h) == LocationOf(g);
      assert h.origin == g.origin && SpotOf(h) == SpotOf(g);
      var c := UpTo(Spots(graph), SpotOf(g)) - {ExtentOf(SpotOf(g))};
      forall e | e in c ensures exists k :: k in graph && ExtentOf(SpotOf(k)) == e && !RankLeq(h, k) {
        var k :| k in graph && !Before(SpotOf(g), SpotOf(k)) && ExtentOf(SpotOf(k)) == e;
        RankBefore(k, h);
        if !Before(SpotOf(k), SpotOf(h)) {
          GradeDecides(s, q, papers, low, high, k, h);
        }
      }
      CutCount(graph, cap, h, c);
    }
  }

  // ---------------------------------------------------------------- unsettled passages

  /** A slice's entry in a ranking: merged if a paragraph lies at the same place. */
  lemma EntryOf(s: Setting, q: Query, papers: seq<PaperText>, x: seq<Hit>, text: seq<Hit>, graph: seq<Hit>, g: Hit) returns (l: nat)
    requires Found(s, q, papers, text, graph) && Ranks(s, q, papers, x, text, graph) && g in graph
    requires forall t :: t in text && LocationOf(t) == LocationOf(g) ==> t.score <= g.score
    ensures l < |x| && SpotOf(x[l]) == SpotOf(g) && LocationOf(x[l]) == LocationOf(g) && Sliced(s, q, papers, x[l])
    ensures x[l].origin == if Represented(text, g) then Both else Graph
  {
    hide Sliced, RankLeq, Alike, Combine, At, Searched;
    var at := LocationOf(g);
    assert Represented(x, g);
    l := LocatedAt(x, g);
    assert x[l] in x;
    MergedSliced(s, q, papers, text, graph, x[l]);
    AtFacts(text, at);
    AtFacts(graph, at);
    AlikeOrigin(x[l], MergedAt(s, q, papers, text, graph, at).value);
    if At(text, at).Some? {
      CombineScore(s, q, papers, At(text, at).value, At(graph, at).value);
    }
  }

  /** A contested start offset: the paragraph, its slice and another slice there. */
  ghost predicate Contest(s: Setting, q: Query, papers: seq<PaperText>, text: seq<Hit>, graph: seq<Hit>, t: Hit, g: Hit, other: Hit) {
    && Found(s, q, papers, text, graph) && t in text && g in graph && other in graph
    && Contested(SpotOf(t), SpotOf(g), SpotOf(other))
  }

  /** Of what the searches found at a contested start offset, only the paragraph's slice is a paragraph. */
  lemma ContestFacts(s: Setting, q: Query, papers: seq<PaperText>, text: seq<Hit>, graph: seq<Hit>, t: Hit, g: Hit, other: Hit, h: Hit)
    requires Contest(s, q, papers, text, graph, t, g, other) && h in graph && LevelWith(h, g)
    ensures LevelWith(other, g) && LocationOf(t) == LocationOf(g) && ExtentOf(SpotOf(other)) != ExtentOf(SpotOf(g))
    ensures LocationOf(h) == LocationOf(g) <==> ExtentOf(SpotOf(h)) == ExtentOf(SpotOf(g))
    ensures Represented(text, g)
    ensures forall k :: k in text && LocationOf(k) == LocationOf(h) ==> k == t && k.score <= h.score
    ensures LocationOf(h) != LocationOf(g) ==> !Represented(text, h)
  {
    SlicedExtents(s, q, papers, t, g);
    if ExtentOf(SpotOf(h)) == ExtentOf(SpotOf(g)) {
      SlicedExtents(s, q, papers, h, g);
    }
    hide Sliced;
    forall k | k in text && LocationOf(k) == LocationOf(h) ensures k == t {
      assert k.paperId == t.paperId && StartOf(k) == StartOf(t);
    }
  }

  /** Where a ranking turns to the level of `g`, if it holds `g`. */
  lemma TurnsLevel(s: Setting, q: Query, papers: seq<PaperText>, x: seq<Hit>, text: seq<Hit>, graph: seq<Hit>, g: Hit, l: nat) returns (a: nat)
    requires Found(s, q, papers, text, graph) && Ranks(s, q, papers, x, text, graph)
    requires l < |x| && SpotOf(x[l]) == SpotOf(g)
    ensures a == |Foremost(Spots(text) + Spots(graph), SpotOf(g))| <= l
    ensures forall i :: 0 <= i < |x| ==> (i < a <==> Before(SpotOf(x[i]), SpotOf(g)))
    ensures LevelWith(x[a], g) && Sliced(s, q, papers, x[a])
  {
    hide Found, Sliced, RankLeq, Before, SpotOf, Foremost, MergedFrom;
    a := |Foremost(Spots(text) + Spots(graph), SpotOf(g))|;
    forall i | 0 <= i < |x| ensures i < a <==> Before(SpotOf(x[i]), SpotOf(g)) {
      ForemostFirst(s, q, papers, x, text, graph, SpotOf(g), i);
    }
    NotBeforeSelf(g);
    assert x[a] in x;
    MergedSliced(s, q, papers, text, graph, x[a]);
    RankBefore(x[a], x[l]);
    RankBefore(x[l], x[a]);
    SameSpotLevel(x[a], x[l], g);
    if a == l {
      LevelSelf(x[l]);
    }
  }

  lemma NotBeforeSelf(g: Hit)
    ensures !Before(SpotOf(g), SpotOf(g))
  {
  }

  lemma SameSpotLevel(m: Hit, n: Hit, g: Hit)
    requires SpotOf(n) == SpotOf(g)
    ensures LevelWith(m, n) ==> LevelWith(m, g)
  {
  }

  /** Two marks that sort the slice of a contested passage first and its merged form last. */
  function SliceFirst(s: Setting, q: Query, papers: seq<PaperText>, e: Extent): Setting {
    Resorted(s, {Marked(s, q, papers, e, Graph)}, {Marked(s, q, papers, e, Both)})
  }

  lemma SliceFirstGrade(s: Setting, q: Query, papers: seq<PaperText>, e: Extent, h: Hit)
    ensures GradeOf(s, q, papers, {Marked(s, q, papers, e, Graph)}, {Marked(s, q, papers, e, Both)}, h) ==
            if ExtentOf(SpotOf(h)) != e || h.origin == TextBaseline then 1 else if h.origin == Graph then 0 else 2
  {
  }

  /** The slice is kept: only what ranks before its start offset can push it out. */
  lemma SliceKept(s: Setting, q: Query, papers: seq<PaperText>, text: seq<Hit>, graph: seq<Hit>, graphKept: seq<Hit>, g: Hit, cap: nat)
    requires Found(SliceFirst(s, q, papers, ExtentOf(SpotOf(g))), q, papers, text, graph) && g in graph
    requires KeepsBest(graph, graphKept, cap) && |Foremost(Spots(text) + Spots(graph), SpotOf(g))| < cap
    ensures Represented(graphKept, g)
  {
    hide Sliced, RankLeq, KeepsBest, Before, SpotOf, ExtentOf, LevelWith, Prefixed, Marked, GradeOf;
    var e := ExtentOf(SpotOf(g));
    var low, high := {Marked(s, q, papers, e, Graph)}, {Marked(s, q, papers, e, Both)};
    MarksAreCandidates(s, q, papers, e);
    var c := Foremost(Spots(text) + Spots(graph), SpotOf(g)) + {e};
    forall k | k in graph && RankLeq(k, g) ensures ExtentOf(SpotOf(k)) in c {
      RankBefore(k, g);
      if !Before(SpotOf(k), SpotOf(g)) && ExtentOf(SpotOf(k)) != e {
        LevelBack(k, g);
        SliceFirstGrade(s, q, papers, e, g);
        SliceFirstGrade(s, q, papers, e, k);
        GradeDecides(s, q, papers, low, high, g, k);
      }
    }
    KeptByCount(SliceFirst(s, q, papers, e), q, papers, graph, graphKept, cap, g, c);
  }

  lemma LevelBack(g: Hit, h: Hit)
    requires LevelWith(g, h)
    ensures LevelWith(h, g)
    ensures forall k :: LevelWith(k, g) ==> LevelWith(k, h)
    ensures !Before(SpotOf(g), SpotOf(h)) && !Before(SpotOf(h), SpotOf(g))
  {
  }

  lemma MarksAreCandidates(s: Setting, q: Query, papers: seq<PaperText>, e: Extent)
    ensures forall origin :: OnlyCandidates({Marked(s, q, papers, e, origin)})
    ensures forall o1, o2 :: OnlyCandidates({Marked(s, q, papers, e, o1), Marked(s, q, papers, e, o2)})
  {
  }

  /** If the paragraph is left out, its slice is the first of its level in the bounded ranking. */
  lemma SliceIsFirst(s: Setting, q: Query, papers: seq<PaperText>, y: seq<Hit>, text: seq<Hit>, graph: seq<Hit>,
                     textKept: seq<Hit>, graphKept: seq<Hit>, t: Hit, g: Hit, other: Hit, cap: nat) returns (u: Hit)
    requires var r := SliceFirst(s, q, papers, ExtentOf(SpotOf(g)));
             Contest(r, q, papers, text, graph, t, g, other) && Ranks(r, q, papers, y, textKept, graphKept)
    requires KeepsBest(text, textKept, cap) && KeepsBest(graph, graphKept, cap) && !Represented(textKept, t)
    requires |Foremost(Spots(text) + Spots(graph), SpotOf(g))| < cap
    ensures u in y && LocationOf(u) == LocationOf(g) && SpotOf(u) == SpotOf(g)
    ensures forall v :: v in y && LevelWith(v, g) && LocationOf(v) != LocationOf(g) ==> RankLeq(u, v)
  {
    hide Sliced, RankLeq, Alike, MergedFrom, Contested, Before, SpotOf, ExtentOf, LocationOf, LevelWith, Prefixed, Marked, GradeOf;
    var e := ExtentOf(SpotOf(g));
    var r := SliceFirst(s, q, papers, e);
    var low, high := {Marked(s, q, papers, e, Graph)}, {Marked(s, q, papers, e, Both)};
    MarksAreCandidates(s, q, papers, e);
    FoundPart(r, q, papers, text, graph, textKept, graphKept);
    SliceKept(s, q, papers, text, graph, graphKept, g, cap);
    var k :| k in graphKept && LocationOf(k) == LocationOf(g);
    SameScoreSpot(k, g);
    ContestFacts(r, q, papers, text, graph, t, g, other, k);
    var l := EntryOf(r, q, papers, y, textKept, graphKept, k);
    u := y[l];
    SliceFirstGrade(s, q, papers, e, u);
    SameSpotsLevel(u, g);
    forall v | v in y && LevelWith(v, g) && LocationOf(v) != LocationOf(g) ensures RankLeq(u, v) {
      MergedSliced(r, q, papers, textKept, graphKept, v);
      if ExtentOf(SpotOf(v)) == ExtentOf(SpotOf(u)) {
        SlicedExtents(r, q, papers, v, u);
      }
      SliceFirstGrade(s, q, papers, e, v);
      LevelBack(v, g);
      LevelBack(g, v);
      GradeDecides(s, q, papers, low, high, u, v);
    }
  }

  lemma SameScoreSpot(g: Hit, h: Hit)
    requires LocationOf(g) == LocationOf(h) && g.score == h.score
    ensures SpotOf(g) == SpotOf(h) && LevelWith(g, h)
  {
  }

  lemma SameSpotsLevel(g: Hit, h: Hit)
    requires SpotOf(g) == SpotOf(h)
    ensures LevelWith(g, h)
  {
  }

  /** If the paragraph is left out, its slice comes first at its start in the bounded ranking only. */
  lemma ParagraphDropped(s: Setting, q: Query, papers: seq<PaperText>, x: seq<Hit>, y: seq<Hit>, text: seq<Hit>, graph: seq<Hit>,
                         textKept: seq<Hit>, graphKept: seq<Hit>, t: Hit, g: Hit, other: Hit, topK: nat, cap: nat)
    requires var r := SliceFirst(s, q, papers, ExtentOf(SpotOf(g)));
             && Contest(r, q, papers, text, graph, t, g, other)
             && Ranks(r, q, papers, x, text, graph) && Ranks(r, q, papers, y, textKept, graphKept)
    requires KeepsBest(text, textKept, cap) && KeepsBest(graph, graphKept, cap) && !Represented(textKept, t)
    requires |Foremost(Spots(text) + Spots(graph), SpotOf(g))| < topK <= cap
    ensures Places(Take(y, topK)) != Places(Take(x, topK))
  {
    hide Sliced, RankLeq, Alike, MergedFrom, Contested, Before, SpotOf, ExtentOf, LocationOf, LevelWith, Prefixed, Marked, GradeOf,
      KeepsBest, Found, Foremost;
    var e := ExtentOf(SpotOf(g));
    var r := SliceFirst(s, q, papers, e);
    LevelSelf(g);
    ContestFacts(r, q, papers, text, graph, t, g, other, g);
    ContestFacts(r, q, papers, text, graph, t, g, other, other);
    var l := EntryOf(r, q, papers, x, text, graph, g);
    var m := EntryOf(r, q, papers, x, text, graph, other);
    var a := TurnsLevel(r, q, papers, x, text, graph, g, l);
    MergedLast(s, q, papers, x, g, other, l, m, a);
    var u := SliceIsFirst(s, q, papers, y, text, graph, textKept, graphKept, t, g, other, cap);
    forall v | v in y && PlaceOf(v) == PlaceOf(x[a]) ensures RankLeq(u, v) {
      PlaceLevel(v, x[a], g);
    }
    NotBeforeSelf(g);
    FirstDiffers(x, y, SpotOf(g), a, u, topK);
  }

  lemma PlaceLevel(v: Hit, m: Hit, g: Hit)
    requires PlaceOf(v) == PlaceOf(m) && LevelWith(m, g)
    ensures LevelWith(v, g) && LocationOf(v) == LocationOf(m)
  {
  }

  /** Merged, the slice comes behind the other one. */
  lemma MergedLast(s: Setting, q: Query, papers: seq<PaperText>, x: seq<Hit>, g: Hit, other: Hit, l: nat, m: nat, a: nat)
    requires IsStrictlySorted(RankLeq, x) && DistinctLocations(x) && l < |x| && m < |x| && a < |x|
    requires var r := SliceFirst(s, q, papers, ExtentOf(SpotOf(g))); Sliced(r, q, papers, x[l]) && Sliced(r, q, papers, x[m])
    requires SpotOf(x[l]) == SpotOf(g) && x[l].origin == Both && SpotOf(x[m]) == SpotOf(other) && x[m].origin == Graph
    requires LevelWith(other, g) && ExtentOf(SpotOf(other)) != ExtentOf(SpotOf(g)) && LocationOf(x[l]) == LocationOf(g)
    requires forall i :: 0 <= i < |x| ==> (i < a <==> Before(SpotOf(x[i]), SpotOf(g)))
    ensures LocationOf(x[a]) != LocationOf(g)
  {
    hide Sliced, RankLeq, Before, SpotOf, ExtentOf, LocationOf, LevelWith, Prefixed, Marked, GradeOf;
    var e := ExtentOf(SpotOf(g));
    MarksAreCandidates(s, q, papers, e);
    SliceFirstGrade(s, q, papers, e, x[l]);
    SliceFirstGrade(s, q, papers, e, x[m]);
    SameSpotsLevel(x[m], other);
    SameSpotsLevel(x[l], g);
    LevelBack(x[l], g);
    LevelBack(other, g);
    LevelBack(g, x[l]);
    LevelBack(g, other);
    LevelThrough(x[m], other, g);
    LevelThrough(x[m], g, x[l]);
    LevelNotBefore(x[m], g);
    GradeDecides(s, q, papers, {Marked(s, q, papers, e, Graph)}, {Marked(s, q, papers, e, Both)}, x[m], x[l]);
    assert a <= m < l;
    assert LocationOf(x[a]) != LocationOf(x[l]);
  }

  lemma LevelThrough(g: Hit, h: Hit, k: Hit)
    requires LevelWith(g, h) && LevelWith(h, k)
    ensures LevelWith(g, k)
  {
  }

  // The other family: the slice is sorted last, its merged form first.

  function SliceLast(s: Setting, q: Query, papers: seq<PaperText>, e: Extent): Setting {
    Resorted(s, {Marked(s, q, papers, e, Both)}, {Marked(s, q, papers, e, Graph), Marked(s, q, papers, e, TextBaseline)})
  }

  lemma SliceLastGrade(s: Setting, q: Query, papers: seq<PaperText>, e: Extent, h: Hit)
    ensures GradeOf(s, q, papers, {Marked(s, q, papers, e, Both)},
                    {Marked(s, q, papers, e, Graph), Marked(s, q, papers, e, TextBaseline)}, h) ==
            if ExtentOf(SpotOf(h)) != e then 1 else if h.origin == Both then 0 else 2
  {
  }

  /** A slice of the level of `g` that is kept although too many rank up to there. */
  lemma SomeKept(s: Setting, q: Query, papers: seq<PaperText>, text: seq<Hit>, graph: seq<Hit>, graphKept: seq<Hit>,
                 g: Hit, other: Hit, cap: nat) returns (k: Hit)
    requires Found(s, q, papers, text, graph) && g in graph && other in graph && LevelWith(other, g)
    requires KeepsBest(graph, graphKept, cap) && |Foremost(Spots(text) + Spots(graph), SpotOf(g))| < cap
    ensures k in graphKept && LevelWith(k, g)
  {
    hide Sliced, RankLeq, Before, SpotOf, ExtentOf, LevelWith, LocationOf;
    LevelBack(other, g);
    if Represented(graphKept, other) {
      k :| k in graphKept && LocationOf(k) == LocationOf(other);
      SameScoreSpot(k, other);
      LevelThrough(k, other, g);
    } else {
      assert |graphKept| >= cap && RanksBehind(graphKept, other);
      ExtentCount(s, q, papers, graphKept);
      var e := LeftOver(Extents(graphKept), Foremost(Spots(text) + Spots(graph), SpotOf(g)));
      k :| k in graphKept && ExtentOf(SpotOf(k)) == e;
      RankBefore(k, other);
      NotAhead(k, other, g);
      RankBefore(k, g);
    }
  }

  lemma NotAhead(k: Hit, other: Hit, g: Hit)
    requires LevelWith(other, g) && !Before(SpotOf(other), SpotOf(k))
    ensures !Before(SpotOf(g), SpotOf(k))
  {
  }

  /** Merged, the slice comes first at its level. */
  lemma MergedFirst(s: Setting, q: Query, papers: seq<PaperText>, x: seq<Hit>, g: Hit, l: nat, a: nat)
    requires IsStrictlySorted(RankLeq, x) && DistinctLocations(x) && l < |x| && a <= l
    requires var r := SliceLast(s, q, papers, ExtentOf(SpotOf(g))); Sliced(r, q, papers, x[l]) && Sliced(r, q, papers, x[a])
    requires SpotOf(x[l]) == SpotOf(g) && x[l].origin == Both && LevelWith(x[a], g)
    ensures a == l
  {
    hide Sliced, RankLeq, Before, SpotOf, ExtentOf, LocationOf, LevelWith, Prefixed, Marked, GradeOf;
    var e := ExtentOf(SpotOf(g));
    MarksAreCandidates(s, q, papers, e);
    SliceLastGrade(s, q, papers, e, x[l]);
    SliceLastGrade(s, q, papers, e, x[a]);
    if a < l {
      assert LocationOf(x[a]) != LocationOf(x[l]);
      if ExtentOf(SpotOf(x[a])) == e {
        SlicedExtents(SliceLast(s, q, papers, e), q, papers, x[a], x[l]);
      }
      SameSpotsLevel(x[l], g);
      LevelBack(x[a], g);
      LevelThrough(x[l], g, x[a]);
      GradeDecides(s, q, papers, {Marked(s, q, papers, e, Both)},
                   {Marked(s, q, papers, e, Graph), Marked(s, q, papers, e, TextBaseline)}, x[l], x[a]);
    }
  }

  /** What lies at the slice's place without the slice is the paragraph. */
  lemma ParagraphAlone(s: Setting, q: Query, papers: seq<PaperText>, y: seq<Hit>, textKept: seq<Hit>, graphKept: seq<Hit>, g: Hit, v: Hit)
    requires Found(s, q, papers, textKept, graphKept) && Ranks(s, q, papers, y, textKept, graphKept)
    requires v in y && LocationOf(v) == LocationOf(g) && !Represented(graphKept, g)
    ensures v.origin == TextBaseline && Sliced(s, q, papers, v)
  {
    hide Sliced, Alike, RankLeq, LocationOf, At;
    MergedSliced(s, q, papers, textKept, graphKept, v);
    AtFacts(textKept, LocationOf(v));
    AtFacts(graphKept, LocationOf(v));
    AlikeOrigin(v, MergedAt(s, q, papers, textKept, graphKept, LocationOf(v)).value);
  }

  /** If the slice is left out, its merged form comes first at its start in the unbounded ranking only. */
  lemma SliceDropped(s: Setting, q: Query, papers: seq<PaperText>, x: seq<Hit>, y: seq<Hit>, text: seq<Hit>, graph: seq<Hit>,
                     textKept: seq<Hit>, graphKept: seq<Hit>, t: Hit, g: Hit, other: Hit, topK: nat, cap: nat)
    requires var r := SliceLast(s, q, papers, ExtentOf(SpotOf(g)));
             && Contest(r, q, papers, text, graph, t, g, other)
             && Ranks(r, q, papers, x, text, graph) && Ranks(r, q, papers, y, textKept, graphKept)
    requires KeepsBest(text, textKept, cap) && KeepsBest(graph, graphKept, cap) && !Represented(graphKept, g)
    requires |Foremost(Spots(text) + Spots(graph), SpotOf(g))| < topK <= cap
    ensures Places(Take(y, topK)) != Places(Take(x, topK))
  {
    hide Sliced, RankLeq, Alike, MergedFrom, Contested, Before, SpotOf, ExtentOf, LocationOf, LevelWith, Prefixed, Marked, GradeOf,
      Found, Foremost, SliceLast;
    var r := SliceLast(s, q, papers, ExtentOf(SpotOf(g)));
    LevelSelf(g);
    ContestFacts(r, q, papers, text, graph, t, g, other, g);
    var l := EntryOf(r, q, papers, x, text, graph, g);
    var a := TurnsLevel(r, q, papers, x, text, graph, g, l);
    MergedFirst(s, q, papers, x, g, l, a);
    FoundPart(r, q, papers, text, graph, textKept, graphKept);
    var k := SomeKept(r, q, papers, text, graph, graphKept, g, other, cap);
    assert LocationOf(k) != LocationOf(g);
    ContestFacts(r, q, papers, text, graph, t, g, other, k);
    var j := EntryOf(r, q, papers, y, textKept, graphKept, k);
    var u := y[j];
    SameSpotsLevel(u, k);
    LevelThrough(u, k, g);
    LevelNotBefore(u, g);
    forall v | v in y && PlaceOf(v) == PlaceOf(x[a]) ensures RankLeq(u, v) {
      PlaceLevel(v, x[a], g);
      ParagraphAlone(r, q, papers, y, textKept, graphKept, g, v);
      OtherBefore(s, q, papers, g, u, v);
    }
    FirstDiffers(x, y, SpotOf(g), a, u, topK);
  }

  lemma OtherBefore(s: Setting, q: Query, papers: seq<PaperText>, g: Hit, u: Hit, v: Hit)
    requires var r := SliceLast(s, q, papers, ExtentOf(SpotOf(g))); Sliced(r, q, papers, u) && Sliced(r, q, papers, v)
    requires LevelWith(u, g) && LevelWith(v, g) && LocationOf(v) == LocationOf(g) && v.origin == TextBaseline
    requires ExtentOf(SpotOf(u)) != ExtentOf(SpotOf(g))
    ensures RankLeq(u, v)
  {
    SameScoreSpot(v, g);
    hide Sliced, RankLeq, Before, SpotOf, ExtentOf, LocationOf, LevelWith, Prefixed, Marked, GradeOf;
    var e := ExtentOf(SpotOf(g));
    MarksAreCandidates(s, q, papers, e);
    SliceLastGrade(s, q, papers, e, u);
    SliceLastGrade(s, q, papers, e, v);
    LevelBack(v, g);
    LevelThrough(u, g, v);
    GradeDecides(s, q, papers, {Marked(s, q, papers, e, Both)},
                 {Marked(s, q, papers, e, Graph), Marked(s, q, papers, e, TextBaseline)}, u, v);
  }
}
