/** Bounding the two searchers does not change what the coordinator selects, unless merging moves a
    hit behind another one at its own start that one of the searchers has dropped
    (library/retrieval.py). */
module RetrievalTruncation {
  import opened Basics
  import opened Ordering
  import opened RetrievalHits
  import opened RetrievalBackends
  import opened RetrievalMerge

  // ---------------------------------------------------------------- places

  /** What a selection is about: a source location and the score it is selected with. */
  datatype Place = Place(at: Location, score: real)

  function PlaceOf(h: Hit): Place {
    Place(LocationOf(h), h.score)
  }

  function Places(hits: seq<Hit>): (x: seq<Place>)
    ensures |x| == |hits|
    ensures forall i :: 0 <= i < |hits| ==> x[i] == PlaceOf(hits[i])
  {
    seq(|hits|, i requires 0 <= i < |hits| => PlaceOf(hits[i]))
  }

  /** Nothing but the key decides which of the two ranks first. */
  predicate LevelWith(g: Hit, h: Hit) {
    g.score == h.score && g.paperId == h.paperId && StartOf(g) == StartOf(h)
  }

  function Locations(hits: seq<Hit>): set<Location> {
    set i | 0 <= i < |hits| :: LocationOf(hits[i])
  }

  lemma {:induction false} LocationCount(hits: seq<Hit>)
    ensures |Locations(hits)| <= |hits|
    ensures DistinctLocations(hits) ==> |Locations(hits)| == |hits|
  {
    hide LocationOf;
    if hits == [] {
      assert Locations(hits) == {};
    } else {
      var n := |hits| - 1;
      LocationCount(hits[..n]);
      assert Locations(hits) == Locations(hits[..n]) + {LocationOf(hits[n])};
      if DistinctLocations(hits) {
        assert LocationOf(hits[n]) !in Locations(hits[..n]);
      }
    }
  }

  lemma SubsetCount<T>(a: set<T>, b: set<T>)
    requires a <= b
    ensures |a| <= |b|
  {
    assert b == a + (b - a);
  }

  // ---------------------------------------------------------------- merging, location by location

  /** The same candidate, but for the graph node it was found through. */
  ghost predicate Alike(g: Hit, h: Hit) {
    g.(nodeId := h.nodeId, relation := h.relation) == h
  }

  function At(hits: seq<Hit>, at: Location): Option<Hit> {
    var i := IndexAt(hits, at);
    if i < |hits| then Some(hits[i]) else None
  }

  lemma AtFacts(hits: seq<Hit>, at: Location)
    ensures At(hits, at).Some? ==> At(hits, at).value in hits && LocationOf(At(hits, at).value) == at
    ensures At(hits, at).None? ==> forall h :: h in hits ==> LocationOf(h) != at
  {
    hide LocationOf;
  }

  /** What merging makes of the hits at one location. */
  function MergedAt(s: Setting, q: Query, papers: seq<PaperText>, text: seq<Hit>, graph: seq<Hit>, at: Location): Option<Hit> {
    var t, g := At(text, at), At(graph, at);
    if t.None? then g else if g.None? then t else Some(Combine(s, q, papers, t.value, g.value))
  }

  ghost predicate AlikeByLocation(hits: seq<Hit>) {
    forall g, h :: g in hits && h in hits && LocationOf(g) == LocationOf(h) ==> Alike(g, h)
  }

  /** Two backends' valid hits; one found more than once differs in its provenance at most. */
  ghost predicate Searched(text: seq<Hit>, graph: seq<Hit>) {
    && OfOrigin(text, TextBaseline) && OfOrigin(graph, Graph)
    && AlikeByLocation(text) && AlikeByLocation(graph)
  }

  /** `merged` holds one hit for each location of the two lists, and each is what merging makes of it. */
  ghost predicate Merges(s: Setting, q: Query, papers: seq<PaperText>, merged: seq<Hit>, text: seq<Hit>, graph: seq<Hit>) {
    && DistinctLocations(merged)
    && (forall m :: m in merged ==> MergedFrom(s, q, papers, text, graph, m))
    && (forall h :: h in text || h in graph ==> Represented(merged, h))
  }

  ghost predicate MergedFrom(s: Setting, q: Query, papers: seq<PaperText>, text: seq<Hit>, graph: seq<Hit>, m: Hit) {
    var w := MergedAt(s, q, papers, text, graph, LocationOf(m));
    w.Some? && Alike(m, w.value)
  }

  ghost predicate Represented(hits: seq<Hit>, h: Hit) {
    exists k :: k in hits && LocationOf(k) == LocationOf(h)
  }

  lemma AtSnoc(hits: seq<Hit>, h: Hit, at: Location)
    ensures At(hits + [h], at) == if At(hits, at).Some? then At(hits, at) else if LocationOf(h) == at then Some(h) else None
  {
    hide LocationOf, IndexAt;
    IndexAtSnoc(hits, h, at);
  }

  lemma SearchedFront(text: seq<Hit>, graph: seq<Hit>, h: Hit)
    requires Searched(text, graph + [h])
    ensures Searched(text, graph) && h.origin == Graph
    ensures forall g :: g in graph && LocationOf(g) == LocationOf(h) ==> Alike(g, h)
  {
    hide LocationOf, Alike;
    assert (graph + [h])[|graph|] == h;
    assert forall i :: 0 <= i < |graph| ==> (graph + [h])[i] == graph[i];
  }

  /** The dictionary after one more text hit. */
  lemma MergesText(s: Setting, q: Query, papers: seq<PaperText>, merged: seq<Hit>, text: seq<Hit>, t: Hit)
    requires Merges(s, q, papers, merged, text, []) && OfOrigin(text, TextBaseline) && t.origin == TextBaseline
    ensures Merges(s, q, papers, MergeHit(s, q, papers, merged, t), text + [t], [])
  {
    hide LocationOf, Combine, IndexAt, Alike;
    var after := MergeHit(s, q, papers, merged, t);
    forall m | m in merged ensures MergedFrom(s, q, papers, text + [t], [], m) && m.origin == TextBaseline {
      AtFacts(text, LocationOf(m));
      AtSnoc(text, t, LocationOf(m));
      AlikeOrigin(m, At(text, LocationOf(m)).value);
    }
    var i := IndexAt(merged, LocationOf(t));
    if i == |merged| {
      AtFacts(text, LocationOf(t));
      AtSnoc(text, t, LocationOf(t));
      AlikeSelf(t);
      StillRepresented(merged, [t], text);
      assert after[|merged|] == t;
    } else {
      assert merged[i] in after;
    }
  }

  lemma AlikeSelf(h: Hit)
    ensures Alike(h, h)
  {
  }

  lemma AlikeOrigin(g: Hit, h: Hit)
    requires Alike(g, h)
    ensures g.origin == h.origin && LocationOf(g) == LocationOf(h) && g.score == h.score && g.key == h.key && Alike(h, g)
    ensures forall k :: Alike(h, k) ==> Alike(g, k)
  {
  }

  lemma StillRepresented(merged: seq<Hit>, more: seq<Hit>, hits: seq<Hit>)
    requires forall h :: h in hits ==> Represented(merged, h)
    ensures forall h :: h in hits ==> Represented(merged + more, h)
  {
    hide LocationOf;
    forall h | h in hits ensures Represented(merged + more, h) {
      var k :| k in merged && LocationOf(k) == LocationOf(h);
      assert k in merged + more;
    }
  }

  lemma {:induction false} MergesAllText(s: Setting, q: Query, papers: seq<PaperText>, text: seq<Hit>, n: nat)
    requires OfOrigin(text, TextBaseline) && n <= |text|
    ensures Merges(s, q, papers, MergeAll(s, q, papers, text[..n]), text[..n], [])
  {
    hide LocationOf, Merges, MergeHit;
    if n == 0 {
      NothingMerged(s, q, papers);
      assert text[..0] == [];
    } else {
      MergesAllText(s, q, papers, text, n - 1);
      MergesText(s, q, papers, MergeAll(s, q, papers, text[..n - 1]), text[..n - 1], text[n - 1]);
      assert text[..n] == text[..n - 1] + [text[n - 1]] && text[..n][..n - 1] == text[..n - 1];
    }
  }

  lemma NothingMerged(s: Setting, q: Query, papers: seq<PaperText>)
    ensures Merges(s, q, papers, MergeAll(s, q, papers, []), [], [])
  {
  }

  /** Combining once more with another copy of the graph's hit changes nothing but provenance. */
  lemma CombineAgain(s: Setting, q: Query, papers: seq<PaperText>, t: Hit, g: Hit, m: Hit, h: Hit)
    requires Alike(m, Combine(s, q, papers, t, g)) && Alike(g, h)
    ensures Alike(Combine(s, q, papers, m, h), Combine(s, q, papers, t, g))
  {
  }

  /** The entry that a further graph hit meets, and what becomes of it. */
  lemma MergedEntry(s: Setting, q: Query, papers: seq<PaperText>, merged: seq<Hit>, text: seq<Hit>, graph: seq<Hit>,
                    g: Hit, i: nat)
    requires Merges(s, q, papers, merged, text, graph) && Searched(text, graph + [g])
    requires i == IndexAt(merged, LocationOf(g)) && i < |merged|
    ensures MergedFrom(s, q, papers, text, graph + [g], MergeHit(s, q, papers, merged, g)[i])
    ensures LocationOf(MergeHit(s, q, papers, merged, g)[i]) == LocationOf(g)
  {
    hide LocationOf, Combine, IndexAt, Alike;
    var at, m := LocationOf(g), merged[i];
    assert m in merged && MergedFrom(s, q, papers, text, graph, m);
    SearchedFront(text, graph, g);
    AtFacts(text, at);
    AtFacts(graph, at);
    AtSnoc(graph, g, at);
    var w := MergedAt(s, q, papers, text, graph, at).value;
    AlikeOrigin(m, w);
    CombineKeepsLocation(s, q, papers, m, g);
    if At(text, at).Some? {
      var t := At(text, at).value;
      if At(graph, at).Some? {
        CombinedOrigin(s, q, papers, t, At(graph, at).value);
        CombineAgain(s, q, papers, t, At(graph, at).value, m, g);
      } else {
        CombineAlike(s, q, papers, m, t, g);
      }
    }
  }

  lemma CombinedOrigin(s: Setting, q: Query, papers: seq<PaperText>, t: Hit, g: Hit)
    ensures Combine(s, q, papers, t, g).origin == Both
  {
  }

  lemma CombineAlike(s: Setting, q: Query, papers: seq<PaperText>, m: Hit, t: Hit, g: Hit)
    requires Alike(m, t) && g.origin == Graph
    ensures Alike(Combine(s, q, papers, m, g), Combine(s, q, papers, t, g))
  {
  }

  /** The dictionary after one more graph hit. */
  lemma MergesGraph(s: Setting, q: Query, papers: seq<PaperText>, merged: seq<Hit>, text: seq<Hit>, graph: seq<Hit>, g: Hit)
    requires Merges(s, q, papers, merged, text, graph) && Searched(text, graph + [g])
    ensures Merges(s, q, papers, MergeHit(s, q, papers, merged, g), text, graph + [g])
  {
    hide LocationOf, Combine, IndexAt, Alike, Searched;
    var after, i := MergeHit(s, q, papers, merged, g), IndexAt(merged, LocationOf(g));
    AtFacts(text, LocationOf(g));
    AtFacts(graph, LocationOf(g));
    AtSnoc(graph, g, LocationOf(g));
    if i < |merged| {
      MergedEntry(s, q, papers, merged, text, graph, g, i);
    } else {
      AlikeSelf(g);
    }
    forall k | 0 <= k < |after| ensures MergedFrom(s, q, papers, text, graph + [g], after[k]) {
      if k < |merged| && k != i {
        assert after[k] == merged[k] && merged[k] in merged;
        AtSnoc(graph, g, LocationOf(merged[k]));
      }
    }
    MergedLocations(s, q, papers, merged, g);
    SameLocationsRepresent(merged, after, text);
    SameLocationsRepresent(merged, after, graph);
    assert after[i] in after;
  }

  /** A turn of the merging loop keeps every location and adds at most the new hit's. */
  lemma MergedLocations(s: Setting, q: Query, papers: seq<PaperText>, merged: seq<Hit>, g: Hit)
    requires DistinctLocations(merged)
    ensures var after, i := MergeHit(s, q, papers, merged, g), IndexAt(merged, LocationOf(g));
            && DistinctLocations(after) && i < |after| && LocationOf(after[i]) == LocationOf(g)
            && |merged| <= |after| <= |merged| + 1 && (|merged| < |after| ==> i == |merged|)
            && (forall k :: 0 <= k < |merged| ==> LocationOf(after[k]) == LocationOf(merged[k]))
  {
    hide LocationOf, Combine, IndexAt;
    var i := IndexAt(merged, LocationOf(g));
    if i < |merged| {
      CombineKeepsLocation(s, q, papers, merged[i], g);
    }
  }

  lemma SameLocationsRepresent(merged: seq<Hit>, after: seq<Hit>, hits: seq<Hit>)
    requires |merged| <= |after| && forall k :: 0 <= k < |merged| ==> LocationOf(after[k]) == LocationOf(merged[k])
    requires forall h :: h in hits ==> Represented(merged, h)
    ensures forall h :: h in hits ==> Represented(after, h)
  {
    hide LocationOf;
    forall h | h in hits ensures Represented(after, h) {
      var m :| m in merged && LocationOf(m) == LocationOf(h);
      var k :| 0 <= k < |merged| && merged[k] == m;
      assert after[k] in after;
    }
  }

  /** Merging holds, for each location, what the first hits of both lists at it make. */
  lemma {:induction false} MergeFacts(s: Setting, q: Query, papers: seq<PaperText>, text: seq<Hit>, graph: seq<Hit>, n: nat)
    requires n <= |graph| && Searched(text, graph[..n])
    ensures Merges(s, q, papers, MergeAll(s, q, papers, text + graph[..n]), text, graph[..n])
  {
    hide LocationOf, Merges, MergeHit, Alike, AlikeByLocation;
    if n == 0 {
      assert text + graph[..0] == text == text[..|text|] && graph[..0] == [];
      MergesAllText(s, q, papers, text, |text|);
    } else {
      var front, g := graph[..n - 1], graph[n - 1];
      assert graph[..n] == front + [g];
      SearchedFront(text, front, g);
      MergeFacts(s, q, papers, text, graph, n - 1);
      MergesGraph(s, q, papers, MergeAll(s, q, papers, text + front), text, front, g);
      var all := text + graph[..n];
      assert all[..|all| - 1] == text + front && all[|all| - 1] == g;
    }
  }

  // ---------------------------------------------------------------- bounded lists

  /** `part` holds hits of `all`, one for each location, and what it leaves out ranks behind at least
      `cap` hits that it holds. */
  ghost predicate KeepsBest(all: seq<Hit>, part: seq<Hit>, cap: nat) {
    && DistinctLocations(part) && (forall k :: k in part ==> k in all)
    && (forall h :: h in all ==> Represented(part, h) || (|part| >= cap && RanksBehind(part, h)))
  }

  ghost predicate RanksBehind(part: seq<Hit>, h: Hit) {
    forall k :: k in part ==> RankLeq(k, h)
  }

  ghost predicate Bounded(text: seq<Hit>, graph: seq<Hit>, textKept: seq<Hit>, graphKept: seq<Hit>, cap: nat) {
    Searched(text, graph) && KeepsBest(text, textKept, cap) && KeepsBest(graph, graphKept, cap)
  }

  /** Whatever was found at this location has been kept. */
  ghost predicate KeptAt(all: seq<Hit>, part: seq<Hit>, at: Location) {
    At(all, at).Some? ==> At(part, at).Some?
  }

  lemma KeptSearched(text: seq<Hit>, graph: seq<Hit>, textKept: seq<Hit>, graphKept: seq<Hit>, cap: nat)
    requires Bounded(text, graph, textKept, graphKept, cap)
    ensures Searched(textKept, graphKept)
  {
    hide LocationOf, Alike, Represented, RanksBehind;
    forall i | 0 <= i < |textKept| ensures textKept[i].origin == TextBaseline {
      assert textKept[i] in text;
    }
    forall i | 0 <= i < |graphKept| ensures graphKept[i].origin == Graph {
      assert graphKept[i] in graph;
    }
  }

  lemma KeptFound(all: seq<Hit>, part: seq<Hit>, at: Location)
    requires AlikeByLocation(all) && forall k :: k in part ==> k in all
    ensures At(part, at).Some? ==> At(all, at).Some? && Alike(At(part, at).value, At(all, at).value)
  {
    hide LocationOf, Alike;
    AtFacts(part, at);
    AtFacts(all, at);
  }

  lemma CombineBothAlike(s: Setting, q: Query, papers: seq<PaperText>, j: Hit, k: Hit, t: Hit, g: Hit)
    requires Alike(j, t) && Alike(k, g) && g.origin == Graph
    ensures Alike(Combine(s, q, papers, j, k), Combine(s, q, papers, t, g))
  {
  }

  lemma CombineScore(s: Setting, q: Query, papers: seq<PaperText>, t: Hit, g: Hit)
    ensures var c := Combine(s, q, papers, t, g);
            c.origin == Both && c.score >= t.score && c.score >= g.score && (c.score == t.score || c.score == g.score)
  {
  }

  /** A location's hit after bounding, next to what it would be without. */
  lemma KeptMerged(s: Setting, q: Query, papers: seq<PaperText>, text: seq<Hit>, graph: seq<Hit>,
                   textKept: seq<Hit>, graphKept: seq<Hit>, cap: nat, at: Location)
    requires Bounded(text, graph, textKept, graphKept, cap)
    ensures var w, c := MergedAt(s, q, papers, text, graph, at), MergedAt(s, q, papers, textKept, graphKept, at);
            && (c.Some? ==> w.Some? && c.value.score <= w.value.score)
            && (c.Some? && w.value.origin != Both ==> Alike(c.value, w.value))
            && (w.Some? && KeptAt(text, textKept, at) && KeptAt(graph, graphKept, at) ==> c.Some? && Alike(c.value, w.value))
  {
    hide LocationOf, Alike, Combine, At, RanksBehind, Represented;
    KeptFound(text, textKept, at);
    KeptFound(graph, graphKept, at);
    AtFacts(graph, at);
    var t, g, j, k := At(text, at), At(graph, at), At(textKept, at), At(graphKept, at);
    if j.Some? {
      AlikeOrigin(j.value, t.value);
    }
    if k.Some? {
      AlikeOrigin(k.value, g.value);
    }
    if t.Some? && g.Some? {
      CombineScore(s, q, papers, t.value, g.value);
      if j.Some? && k.Some? {
        CombineBothAlike(s, q, papers, j.value, k.value, t.value, g.value);
        AlikeOrigin(Combine(s, q, papers, j.value, k.value), Combine(s, q, papers, t.value, g.value));
      }
    }
  }

  // ---------------------------------------------------------------- rankings

  /** What a backend that keeps its `cap` best hits hands on. */
  function Cut(hits: seq<Hit>, cap: nat): seq<Hit> {
    Take(StableSort(RankLeq, hits), cap)
  }

  /** All merged hits, ranked. */
  function Ranking(s: Setting, q: Query, papers: seq<PaperText>, text: seq<Hit>, graph: seq<Hit>): seq<Hit> {
    StableSort(RankLeq, MergeAll(s, q, papers, text + graph))
  }

  /** Ranked strictly, one hit for each location, and each what merging makes of the hits there. */
  ghost predicate Ranks(s: Setting, q: Query, papers: seq<PaperText>, x: seq<Hit>, text: seq<Hit>, graph: seq<Hit>) {
    IsStrictlySorted(RankLeq, x) && Merges(s, q, papers, x, text, graph)
  }

  /** No two of these hits tie in the ranking. */
  ghost predicate Untied(hits: seq<Hit>) {
    forall g, h :: g in hits && h in hits && RankLeq(g, h) && RankLeq(h, g) ==> LocationOf(g) == LocationOf(h)
  }

  lemma SortDistinctLocations(hits: seq<Hit>)
    requires DistinctLocations(hits)
    ensures DistinctLocations(StableSort(RankLeq, hits))
  {
    hide LocationOf, RankLeq;
    var ranked := StableSort(RankLeq, hits);
    SortDistinct(RankLeq, hits);
    SortSame(RankLeq, hits);
    assert Distinct(hits);
    forall i, j | 0 <= i < j < |ranked| ensures LocationOf(ranked[i]) != LocationOf(ranked[j]) {
      assert ranked[i] in ranked && ranked[j] in ranked;
      var k :| 0 <= k < |hits| && hits[k] == ranked[i];
      var l :| 0 <= l < |hits| && hits[l] == ranked[j];
    }
  }

  /** Without ties, ranking the merged hits gives a strict ranking. */
  lemma RankingRanks(s: Setting, q: Query, papers: seq<PaperText>, text: seq<Hit>, graph: seq<Hit>)
    requires Searched(text, graph) && Untied(MergeAll(s, q, papers, text + graph))
    ensures Ranks(s, q, papers, Ranking(s, q, papers, text, graph), text, graph)
  {
    hide LocationOf, RankLeq, Alike, AlikeByLocation, MergeAll, MergedFrom;
    assert graph[..|graph|] == graph;
    MergeFacts(s, q, papers, text, graph, |graph|);
    var merged := MergeAll(s, q, papers, text + graph);
    var x := StableSort(RankLeq, merged);
    RankIsTotal();
    SortSorted(RankLeq, merged);
    SortSame(RankLeq, merged);
    SortDistinctLocations(merged);
    forall i, j | 0 <= i < j < |x| ensures RankLeq(x[i], x[j]) && !RankLeq(x[j], x[i]) {
      assert x[i] in x && x[j] in x;
    }
    forall h | h in text || h in graph ensures Represented(x, h) {
      var m :| m in merged && LocationOf(m) == LocationOf(h);
      assert m in x;
    }
  }

  // ---------------------------------------------------------------- what survives

  /** Bounding drops nothing at two levels of one start that merging could have put in a new order:
      if either of them was merged and one of them may be selected, all hits at both are kept. */
  ghost predicate Undisturbed(x: seq<Hit>, text: seq<Hit>, graph: seq<Hit>, textKept: seq<Hit>, graphKept: seq<Hit>, topK: nat) {
    forall i, j :: 0 <= i < |x| && 0 <= j < |x| && i < topK && i != j && LevelWith(x[i], x[j])
                   && (x[i].origin.Both? || x[j].origin.Both?) ==>
      forall k :: k == i || k == j ==>
        KeptAt(text, textKept, LocationOf(x[k])) && KeptAt(graph, graphKept, LocationOf(x[k]))
  }

  lemma LeftOver<T>(a: set<T>, b: set<T>) returns (l: T)
    requires |b| < |a|
    ensures l in a && l !in b
  {
    if a <= b {
      SubsetCount(a, b);
    }
    l :| l in a && l !in b;
  }

  /** Of more than `i` hits at locations of their own, one is ranked at `i` or later. */
  lemma SomeLater(x: seq<Hit>, part: seq<Hit>, i: nat) returns (k: Hit, j: nat)
    requires DistinctLocations(part) && i < |part| && i < |x| && forall k :: k in part ==> Represented(x, k)
    ensures k in part && i <= j < |x| && LocationOf(x[j]) == LocationOf(k)
  {
    hide LocationOf;
    LocationCount(part);
    LocationCount(x[..i]);
    assert forall n :: 0 <= n < i ==> LocationOf(x[n]) == LocationOf(x[..i][n]) && LocationOf(x[n]) in Locations(x[..i]);
    var l := LeftOver(Locations(part), Locations(x[..i]));
    var p :| 0 <= p < |part| && LocationOf(part[p]) == l;
    k := part[p];
    assert k in part;
    var m :| m in x && LocationOf(m) == LocationOf(k);
    j :| 0 <= j < |x| && x[j] == m;
  }

  /** Four hits in a circle of ranks are level. */
  lemma LevelCircle(k: Hit, h: Hit, xi: Hit, xj: Hit)
    requires RankLeq(k, h) && RankLeq(xi, xj) && LocationOf(k) == LocationOf(xj) && LocationOf(h) == LocationOf(xi)
    requires xj.score >= k.score && xi.score == h.score
    ensures LevelWith(xi, xj) && xj.score == k.score
    ensures k.key == xj.key && h.key == xi.key ==> RankLeq(xj, xi)
  {
    LexTrichotomy(xi.paperId, xj.paperId);
  }

  /** A hit that a place takes its score from is kept, if the place is ranked among the first `cap`. */
  lemma SourceKept(s: Setting, q: Query, papers: seq<PaperText>, x: seq<Hit>, text: seq<Hit>, graph: seq<Hit>,
                   textKept: seq<Hit>, graphKept: seq<Hit>, cap: nat, topK: nat,
                   own: seq<Hit>, part: seq<Hit>, h: Hit, i: nat)
    requires Bounded(text, graph, textKept, graphKept, cap) && Ranks(s, q, papers, x, text, graph)
    requires Undisturbed(x, text, graph, textKept, graphKept, topK) && i < topK <= cap && i < |x|
    requires (own == text && part == textKept) || (own == graph && part == graphKept)
    requires At(own, LocationOf(x[i])) == Some(h) && h.score == x[i].score
    ensures At(part, LocationOf(x[i])).Some?
  {
    hide LocationOf, Alike, RankLeq, IndexAt, At, MergedFrom, Undisturbed, LevelWith, AlikeByLocation;
    AtFacts(own, LocationOf(x[i]));
    AtFacts(part, LocationOf(x[i]));
    if !Represented(part, h) {
      assert RanksBehind(part, h) && |part| > i;
      var k, j := SomeLater(x, part, i);
      assert j != i && RankLeq(x[i], x[j]) && !RankLeq(x[j], x[i]);
      LaterIsLevel(s, q, papers, x, text, graph, own, k, h, i, j);
      UndisturbedKept(x, text, graph, textKept, graphKept, topK, i, j);
    }
  }

  lemma UndisturbedKept(x: seq<Hit>, text: seq<Hit>, graph: seq<Hit>, textKept: seq<Hit>, graphKept: seq<Hit>, topK: nat,
                        i: nat, j: nat)
    requires Undisturbed(x, text, graph, textKept, graphKept, topK) && i < topK && i < |x| && j < |x| && i != j
    requires LevelWith(x[i], x[j]) && (x[i].origin.Both? || x[j].origin.Both?)
    ensures KeptAt(text, textKept, LocationOf(x[i])) && KeptAt(graph, graphKept, LocationOf(x[i]))
    ensures KeptAt(text, textKept, LocationOf(x[j])) && KeptAt(graph, graphKept, LocationOf(x[j]))
  {
    hide KeptAt, LevelWith, LocationOf;
  }

  /** A merged hit scores no less than a hit at its location, and is that hit if it was not merged. */
  lemma MergedAbove(s: Setting, q: Query, papers: seq<PaperText>, text: seq<Hit>, graph: seq<Hit>, own: seq<Hit>, m: Hit, h: Hit)
    requires Searched(text, graph) && (own == text || own == graph) && h in own && LocationOf(h) == LocationOf(m)
    requires MergedFrom(s, q, papers, text, graph, m)
    ensures m.score >= h.score
    ensures m.origin != Both ==> m.key == h.key && m.score == h.score
  {
    hide LocationOf, Alike, Combine, At;
    var at := LocationOf(m);
    AtFacts(text, at);
    AtFacts(graph, at);
    AlikeOrigin(m, MergedAt(s, q, papers, text, graph, at).value);
    AlikeOrigin(h, At(own, at).value);
    if At(text, at).Some? && At(graph, at).Some? {
      CombineScore(s, q, papers, At(text, at).value, At(graph, at).value);
    }
  }

  /** A hit ranked behind in the backend that comes first after merging was merged, or the other was. */
  lemma LaterIsLevel(s: Setting, q: Query, papers: seq<PaperText>, x: seq<Hit>, text: seq<Hit>, graph: seq<Hit>,
                     own: seq<Hit>, k: Hit, h: Hit, i: nat, j: nat)
    requires Searched(text, graph) && Ranks(s, q, papers, x, text, graph) && i < |x| && j < |x|
    requires (own == text || own == graph) && h in own && k in own && RankLeq(k, h)
    requires RankLeq(x[i], x[j]) && !RankLeq(x[j], x[i])
    requires LocationOf(h) == LocationOf(x[i]) && h.score == x[i].score && LocationOf(k) == LocationOf(x[j])
    ensures LevelWith(x[i], x[j]) && (x[i].origin.Both? || x[j].origin.Both?)
  {
    hide LocationOf, Alike, RankLeq, MergedFrom, LevelWith, Searched;
    assert x[i] in x && x[j] in x;
    MergedAbove(s, q, papers, text, graph, own, x[i], h);
    MergedAbove(s, q, papers, text, graph, own, x[j], k);
    LevelCircle(k, h, x[i], x[j]);
  }

  /** What may be selected has the same place after bounding. */
  lemma PlaceSurvives(s: Setting, q: Query, papers: seq<PaperText>, x: seq<Hit>, y: seq<Hit>, text: seq<Hit>, graph: seq<Hit>,
                      textKept: seq<Hit>, graphKept: seq<Hit>, cap: nat, topK: nat, i: nat)
    requires Bounded(text, graph, textKept, graphKept, cap) && Ranks(s, q, papers, x, text, graph)
    requires Ranks(s, q, papers, y, textKept, graphKept)
    requires Undisturbed(x, text, graph, textKept, graphKept, topK) && i < topK <= cap && i < |x|
    ensures exists a :: 0 <= a < |y| && PlaceOf(y[a]) == PlaceOf(x[i])
  {
    hide LocationOf, Alike, RankLeq, IndexAt, At, Undisturbed, Searched, KeepsBest, Combine, IsStrictlySorted;
    var at := LocationOf(x[i]);
    assert x[i] in x && MergedFrom(s, q, papers, text, graph, x[i]);
    var w := MergedAt(s, q, papers, text, graph, at).value;
    AlikeOrigin(x[i], w);
    var t, g := At(text, at), At(graph, at);
    if t.Some? && g.Some? {
      CombineScore(s, q, papers, t.value, g.value);
    }
    var own, part := text, textKept;
    if t.None? || (g.Some? && g.value.score >= t.value.score) {
      own, part := graph, graphKept;
    }
    SourceKept(s, q, papers, x, text, graph, textKept, graphKept, cap, topK, own, part, At(own, at).value, i);
    AtFacts(part, at);
    var k := At(part, at).value;
    assert Represented(y, k);
    var m :| m in y && LocationOf(m) == LocationOf(k);
    var a :| 0 <= a < |y| && y[a] == m;
    KeptScore(s, q, papers, text, graph, textKept, graphKept, cap, own, part, at);
    AlikeOrigin(y[a], MergedAt(s, q, papers, textKept, graphKept, at).value);
  }

  lemma KeptScore(s: Setting, q: Query, papers: seq<PaperText>, text: seq<Hit>, graph: seq<Hit>,
                  textKept: seq<Hit>, graphKept: seq<Hit>, cap: nat, own: seq<Hit>, part: seq<Hit>, at: Location)
    requires Bounded(text, graph, textKept, graphKept, cap)
    requires (own == text && part == textKept) || (own == graph && part == graphKept)
    requires At(part, at).Some? && MergedAt(s, q, papers, text, graph, at).Some? && At(own, at).Some?
    requires MergedAt(s, q, papers, text, graph, at).value.score == At(own, at).value.score
    ensures var c := MergedAt(s, q, papers, textKept, graphKept, at);
            c.Some? && c.value.score == MergedAt(s, q, papers, text, graph, at).value.score
  {
    KeptMerged(s, q, papers, text, graph, textKept, graphKept, cap, at);
    KeptFound(own, part, at);
    hide LocationOf, Alike, Combine, At, Represented, RanksBehind;
    AlikeOrigin(At(part, at).value, At(own, at).value);
    var j, k := At(textKept, at), At(graphKept, at);
    if j.Some? && k.Some? {
      CombineScore(s, q, papers, j.value, k.value);
    }
  }

  /** What may be selected stays ahead of everything it was ranked ahead of. */
  lemma OrderSurvives(s: Setting, q: Query, papers: seq<PaperText>, x: seq<Hit>, y: seq<Hit>, text: seq<Hit>, graph: seq<Hit>,
                      textKept: seq<Hit>, graphKept: seq<Hit>, cap: nat, topK: nat, i: nat, j: nat, a: nat, b: nat)
    requires Bounded(text, graph, textKept, graphKept, cap) && Ranks(s, q, papers, x, text, graph)
    requires Ranks(s, q, papers, y, textKept, graphKept)
    requires Undisturbed(x, text, graph, textKept, graphKept, topK) && i < topK && i < j < |x|
    requires a < |y| && b < |y| && PlaceOf(y[a]) == PlaceOf(x[i]) && LocationOf(y[b]) == LocationOf(x[j])
    ensures a < b
  {
    hide Alike, IndexAt, At, Undisturbed, Searched, KeepsBest, Combine, MergedAt, LocationOf;
    assert x[i] in x && x[j] in x && y[a] in y && y[b] in y;
    EntryAgain(s, q, papers, text, graph, textKept, graphKept, cap, x[i], y[a]);
    EntryAgain(s, q, papers, text, graph, textKept, graphKept, cap, x[j], y[b]);
    if LevelWith(x[i], x[j]) && (x[i].origin.Both? || x[j].origin.Both?) {
      UndisturbedKept(x, text, graph, textKept, graphKept, topK, i, j);
    }
    StillAhead(x[i], x[j], y[a], y[b]);
  }

  /** One location's hit in both rankings. */
  lemma EntryAgain(s: Setting, q: Query, papers: seq<PaperText>, text: seq<Hit>, graph: seq<Hit>,
                   textKept: seq<Hit>, graphKept: seq<Hit>, cap: nat, m: Hit, n: Hit)
    requires Bounded(text, graph, textKept, graphKept, cap) && LocationOf(m) == LocationOf(n)
    requires MergedFrom(s, q, papers, text, graph, m) && MergedFrom(s, q, papers, textKept, graphKept, n)
    ensures n.score <= m.score
    ensures m.origin != Both || (KeptAt(text, textKept, LocationOf(m)) && KeptAt(graph, graphKept, LocationOf(m))) ==>
              n.score == m.score && n.key == m.key
  {
    hide Alike, IndexAt, At, Searched, KeepsBest, Combine, LocationOf, KeptAt, MergedAt;
    var at := LocationOf(m);
    KeptMerged(s, q, papers, text, graph, textKept, graphKept, cap, at);
    AlikeOrigin(m, MergedAt(s, q, papers, text, graph, at).value);
    AlikeOrigin(n, MergedAt(s, q, papers, textKept, graphKept, at).value);
    if Alike(MergedAt(s, q, papers, textKept, graphKept, at).value, MergedAt(s, q, papers, text, graph, at).value) {
      AlikeOrigin(MergedAt(s, q, papers, textKept, graphKept, at).value, MergedAt(s, q, papers, text, graph, at).value);
    }
  }

  lemma StillAhead(m: Hit, n: Hit, c: Hit, d: Hit)
    requires RankLeq(m, n) && !RankLeq(n, m)
    requires LocationOf(c) == LocationOf(m) && LocationOf(d) == LocationOf(n) && c.score == m.score && d.score <= n.score
    requires LevelWith(m, n) ==> c.key == m.key && (d.score == n.score ==> d.key == n.key)
    ensures !RankLeq(d, c)
  {
    LexTrichotomy(m.paperId, n.paperId);
  }

  /** The first `k` places of `x` are in `y`, each ahead of whatever it is ahead of in `x`. */
  ghost predicate InStep(x: seq<Hit>, y: seq<Hit>, k: nat) {
    && (forall b :: 0 <= b < |y| ==> Represented(x, y[b]))
    && (forall i :: 0 <= i < |x| && i < k ==> Holds(y, x[i]))
    && (forall i, j, a, b | 0 <= i < j < |x| && i < k && 0 <= a < |y| && 0 <= b < |y| ::
          PlaceOf(y[a]) == PlaceOf(x[i]) && LocationOf(y[b]) == LocationOf(x[j]) ==> a < b)
  }

  ghost predicate Holds(y: seq<Hit>, m: Hit) {
    exists a :: 0 <= a < |y| && PlaceOf(y[a]) == PlaceOf(m)
  }

  lemma {:induction false} SameTop(x: seq<Hit>, y: seq<Hit>, k: nat)
    requires DistinctLocations(x) && DistinctLocations(y) && InStep(x, y, k)
    ensures Take(Places(x), k) == Take(Places(y), k)
  {
    hide LocationOf, Represented, Holds;
    if k > 0 {
      var i := k - 1;
      SameTop(x, y, i);
      assert |Take(Places(x), i)| == |Take(Places(y), i)|;
      forall l | 0 <= l < i && l < |x| ensures l < |y| && PlaceOf(x[l]) == PlaceOf(y[l]) {
        assert Take(Places(x), i)[l] == Take(Places(y), i)[l];
      }
      if i < |x| {
        NextInStep(x, y, i);
      } else {
        NoMorePlaces(x, y);
      }
    }
  }

  lemma LocatedAt(x: seq<Hit>, n: Hit) returns (j: nat)
    requires Represented(x, n)
    ensures j < |x| && LocationOf(x[j]) == LocationOf(n)
  {
    hide LocationOf;
    var m :| m in x && LocationOf(m) == LocationOf(n);
    j :| 0 <= j < |x| && x[j] == m;
  }

  lemma InStepAt(x: seq<Hit>, y: seq<Hit>, i: nat) returns (a: nat)
    requires InStep(x, y, i + 1) && i < |x|
    ensures a < |y| && PlaceOf(y[a]) == PlaceOf(x[i])
    ensures forall j, b :: i < j < |x| && 0 <= b < |y| && LocationOf(y[b]) == LocationOf(x[j]) ==> a < b
    ensures forall b :: 0 <= b < |y| ==> Represented(x, y[b])
  {
    hide LocationOf, Represented, PlaceOf;
    assert Holds(y, x[i]);
    a :| 0 <= a < |y| && PlaceOf(y[a]) == PlaceOf(x[i]);
  }

  lemma NextInStep(x: seq<Hit>, y: seq<Hit>, i: nat)
    requires DistinctLocations(x) && DistinctLocations(y) && InStep(x, y, i + 1) && i < |x|
    requires forall l :: 0 <= l < i ==> l < |y| && PlaceOf(x[l]) == PlaceOf(y[l])
    ensures i < |y| && PlaceOf(x[i]) == PlaceOf(y[i])
  {
    hide LocationOf, Represented, InStep, Holds;
    var a := InStepAt(x, y, i);
    assert forall l :: 0 <= l < i ==> LocationOf(x[l]) == LocationOf(y[l]);
    assert i <= a;
    var j := LocatedAt(x, y[i]);
  }

  lemma NoMorePlaces(x: seq<Hit>, y: seq<Hit>)
    requires DistinctLocations(y) && forall b :: 0 <= b < |y| ==> Represented(x, y[b])
    ensures |y| <= |x|
  {
    hide LocationOf, Represented;
    LocationCount(x);
    LocationCount(y);
    forall l | l in Locations(y) ensures l in Locations(x) {
      var b :| 0 <= b < |y| && LocationOf(y[b]) == l;
      var j := LocatedAt(x, y[b]);
    }
    SubsetCount(Locations(y), Locations(x));
  }

  /** Bounding that leaves merged ties undisturbed selects the same places in the same order. */
  lemma BoundedSelection(s: Setting, q: Query, papers: seq<PaperText>, x: seq<Hit>, y: seq<Hit>, text: seq<Hit>, graph: seq<Hit>,
                         textKept: seq<Hit>, graphKept: seq<Hit>, cap: nat, topK: nat)
    requires Bounded(text, graph, textKept, graphKept, cap) && topK <= cap
    requires Ranks(s, q, papers, x, text, graph) && Ranks(s, q, papers, y, textKept, graphKept)
    requires Undisturbed(x, text, graph, textKept, graphKept, topK)
    ensures Places(Take(y, topK)) == Places(Take(x, topK))
  {
    hide LocationOf, Bounded, Undisturbed, MergedFrom, RankLeq, Represented, PlaceOf;
    forall i | 0 <= i < |x| && i < topK ensures Holds(y, x[i]) {
      PlaceSurvives(s, q, papers, x, y, text, graph, textKept, graphKept, cap, topK, i);
    }
    forall i, j, a, b | 0 <= i < j < |x| && i < topK && 0 <= a < |y| && 0 <= b < |y|
        && PlaceOf(y[a]) == PlaceOf(x[i]) && LocationOf(y[b]) == LocationOf(x[j]) ensures a < b {
      OrderSurvives(s, q, papers, x, y, text, graph, textKept, graphKept, cap, topK, i, j, a, b);
    }
    forall b | 0 <= b < |y| ensures Represented(x, y[b]) {
      KeptRepresented(s, q, papers, x, y, text, graph, textKept, graphKept, cap, y[b]);
    }
    SameTop(x, y, topK);
    assert Places(Take(x, topK)) == Take(Places(x), topK) && Places(Take(y, topK)) == Take(Places(y), topK);
  }

  lemma KeptRepresented(s: Setting, q: Query, papers: seq<PaperText>, x: seq<Hit>, y: seq<Hit>, text: seq<Hit>, graph: seq<Hit>,
                        textKept: seq<Hit>, graphKept: seq<Hit>, cap: nat, n: Hit)
    requires Bounded(text, graph, textKept, graphKept, cap) && n in y
    requires Ranks(s, q, papers, x, text, graph) && Ranks(s, q, papers, y, textKept, graphKept)
    ensures Represented(x, n)
  {
    hide LocationOf, Alike, RankLeq, At, Represented, Combine;
    assert MergedFrom(s, q, papers, textKept, graphKept, n);
    AtFacts(textKept, LocationOf(n));
    AtFacts(graphKept, LocationOf(n));
    var h := if At(textKept, LocationOf(n)).Some? then At(textKept, LocationOf(n)).value else At(graphKept, LocationOf(n)).value;
    assert Represented(x, h);
    RepresentedAt(x, h, n);
  }

  lemma RepresentedAt(x: seq<Hit>, h: Hit, n: Hit)
    requires Represented(x, h) && LocationOf(h) == LocationOf(n)
    ensures Represented(x, n)
  {
    hide LocationOf;
  }

  // ---------------------------------------------------------------- the cut

  lemma CutMembers(hits: seq<Hit>, cap: nat)
    ensures forall h :: h in Cut(hits, cap) ==> h in hits
    ensures DistinctLocations(hits) ==> DistinctLocations(Cut(hits, cap))
  {
    hide LocationOf, RankLeq;
    SortSame(RankLeq, hits);
    forall h | h in Cut(hits, cap) ensures h in hits {
      assert h in StableSort(RankLeq, hits);
    }
    if DistinctLocations(hits) {
      SortDistinctLocations(hits);
    }
  }

  /** Cutting at `cap` keeps the best. */
  lemma CutKeepsBest(hits: seq<Hit>, cap: nat)
    requires DistinctLocations(Cut(hits, cap))
    ensures KeepsBest(hits, Cut(hits, cap), cap)
  {
    hide LocationOf, RankLeq;
    CutMembers(hits, cap);
    RankIsTotal();
    SortSorted(RankLeq, hits);
    SortSame(RankLeq, hits);
    var ranked, part := StableSort(RankLeq, hits), Cut(hits, cap);
    forall h | h in hits ensures Represented(part, h) || (|part| >= cap && RanksBehind(part, h)) {
      assert h in ranked;
      var p :| 0 <= p < |ranked| && ranked[p] == h;
      if p < |part| {
        assert part[p] == h && h in part;
      } else {
        forall k | k in part ensures RankLeq(k, h) {
          var l :| 0 <= l < |part| && part[l] == k;
          assert ranked[l] == k;
        }
      }
    }
  }

  /** Two backends' valid hits, each at its own location within its backend. */
  ghost predicate BackendHits(text: seq<Hit>, graph: seq<Hit>) {
    && DistinctLocations(text) && DistinctLocations(graph)
    && OfOrigin(text, TextBaseline) && OfOrigin(graph, Graph)
  }

  /** No two of these hits lie at different locations that share paper and start offset. */
  ghost predicate LocationsByStart(hits: seq<Hit>) {
    forall g, h :: g in hits && h in hits && g.paperId == h.paperId && StartOf(g) == StartOf(h) ==>
      LocationOf(g) == LocationOf(h)
  }

  lemma DistinctAlike(hits: seq<Hit>)
    requires DistinctLocations(hits)
    ensures AlikeByLocation(hits)
  {
    hide LocationOf;
    forall g, h | g in hits && h in hits && LocationOf(g) == LocationOf(h) ensures Alike(g, h) {
      var i :| 0 <= i < |hits| && hits[i] == g;
      var j :| 0 <= j < |hits| && hits[j] == h;
    }
  }

  lemma BackendsSearched(text: seq<Hit>, graph: seq<Hit>)
    requires BackendHits(text, graph)
    ensures Searched(text, graph)
  {
    hide LocationOf, AlikeByLocation;
    DistinctAlike(text);
    DistinctAlike(graph);
  }

  lemma OneByStart(s: Setting, q: Query, papers: seq<PaperText>, text: seq<Hit>, graph: seq<Hit>, m: Hit, n: Hit)
    requires LocationsByStart(text + graph) && MergedFrom(s, q, papers, text, graph, m) && MergedFrom(s, q, papers, text, graph, n)
    requires m.paperId == n.paperId && StartOf(m) == StartOf(n)
    ensures LocationOf(m) == LocationOf(n)
  {
    hide At, Alike, Combine;
    AtFacts(text, LocationOf(m));
    AtFacts(graph, LocationOf(m));
    AtFacts(text, LocationOf(n));
    AtFacts(graph, LocationOf(n));
    var g := if At(text, LocationOf(m)).Some? then At(text, LocationOf(m)).value else At(graph, LocationOf(m)).value;
    var h := if At(text, LocationOf(n)).Some? then At(text, LocationOf(n)).value else At(graph, LocationOf(n)).value;
    assert g in text + graph && h in text + graph;
  }

  /** With one location for each start, the ranking is strict. */
  lemma RankingByStart(s: Setting, q: Query, papers: seq<PaperText>, text: seq<Hit>, graph: seq<Hit>)
    requires Searched(text, graph) && LocationsByStart(text + graph)
    ensures Ranks(s, q, papers, Ranking(s, q, papers, text, graph), text, graph)
  {
    hide LocationOf, RankLeq, Alike, AlikeByLocation, MergeAll, MergedFrom, LocationsByStart;
    assert graph[..|graph|] == graph;
    MergeFacts(s, q, papers, text, graph, |graph|);
    var merged := MergeAll(s, q, papers, text + graph);
    forall m, n | m in merged && n in merged && RankLeq(m, n) && RankLeq(n, m) ensures LocationOf(m) == LocationOf(n) {
      TiedStarts(m, n);
      OneByStart(s, q, papers, text, graph, m, n);
    }
    RankingRanks(s, q, papers, text, graph);
  }

  lemma TiedStarts(m: Hit, n: Hit)
    requires RankLeq(m, n) && RankLeq(n, m)
    ensures m.paperId == n.paperId && StartOf(m) == StartOf(n) && m.key == n.key
  {
    LexTrichotomy(m.paperId, n.paperId);
    if LexLeq(m.key, n.key) && LexLeq(n.key, m.key) {
      LexAntisymmetric(m.key, n.key);
    }
  }

  /** Keeping the `cap` best hits of each backend selects the same locations, in the same order and
      with the same scores, as merging the whole lists, for any selection of at most `cap`, if no two
      locations share a paper and a start offset. */
  lemma TruncationKeepsSelection(s: Setting, q: Query, papers: seq<PaperText>, text: seq<Hit>, graph: seq<Hit>,
                                 topK: nat, cap: nat)
    requires BackendHits(text, graph) && LocationsByStart(text + graph) && topK <= cap
    ensures Places(Take(Ranking(s, q, papers, Cut(text, cap), Cut(graph, cap)), topK))
         == Places(Take(Ranking(s, q, papers, text, graph), topK))
  {
    hide LocationOf, RankLeq, Cut, Ranking, PlaceOf, Searched, KeepsBest, MergedFrom;
    var textKept, graphKept := Cut(text, cap), Cut(graph, cap);
    BackendsSearched(text, graph);
    CutMembers(text, cap);
    CutMembers(graph, cap);
    CutKeepsBest(text, cap);
    CutKeepsBest(graph, cap);
    KeptSearched(text, graph, textKept, graphKept, cap);
    assert forall h :: h in textKept + graphKept ==> h in text + graph;
    RankingByStart(s, q, papers, text, graph);
    RankingByStart(s, q, papers, textKept, graphKept);
    var x := Ranking(s, q, papers, text, graph);
    NothingLevel(s, q, papers, x, text, graph, textKept, graphKept, topK);
    BoundedSelection(s, q, papers, x, Ranking(s, q, papers, textKept, graphKept), text, graph, textKept, graphKept, cap, topK);
  }

  lemma NothingLevel(s: Setting, q: Query, papers: seq<PaperText>, x: seq<Hit>, text: seq<Hit>, graph: seq<Hit>,
                     textKept: seq<Hit>, graphKept: seq<Hit>, topK: nat)
    requires Ranks(s, q, papers, x, text, graph) && LocationsByStart(text + graph)
    ensures Undisturbed(x, text, graph, textKept, graphKept, topK)
  {
    hide LocationOf, RankLeq, MergedFrom, LocationsByStart, KeptAt;
    forall i, j | 0 <= i < |x| && 0 <= j < |x| && i != j ensures !LevelWith(x[i], x[j]) {
      assert x[i] in x && x[j] in x;
      assert LocationOf(x[i]) != LocationOf(x[j]);
      if LevelWith(x[i], x[j]) {
        OneByStart(s, q, papers, text, graph, x[i], x[j]);
      }
    }
  }
}
