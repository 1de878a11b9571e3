/** How the coordinator merges the two backends' hits (library/retrieval.py). */
module RetrievalMerge {
  import opened Basics
  import opened Ordering
  import opened RetrievalHits
  import opened RetrievalBackends

  /** The source location under which hits are merged. */
  datatype Location = Location(paperId: string, start: nat, end: nat, spanHash: string)

  function LocationOf(h: Hit): Location {
    Location(h.paperId, h.start.GetOr(0), h.end.GetOr(0), h.spanHash.GetOr(""))
  }

  /** The first hit at `at`; `|hits|` when there is none. */
  function IndexAt(hits: seq<Hit>, at: Location): (i: nat)
    ensures i <= |hits|
    ensures i < |hits| ==> LocationOf(hits[i]) == at
    ensures forall k :: 0 <= k < i ==> LocationOf(hits[k]) != at
  {
    if hits == [] || LocationOf(hits[0]) == at then 0
    else
      assert forall k :: 1 <= k < |hits| ==> hits[k] == hits[1..][k - 1];
      1 + IndexAt(hits[1..], at)
  }

  function RawHashOf(papers: seq<PaperText>, paperId: string): string {
    var i := PaperIndex(papers, paperId);
    if i < |papers| then papers[i].rawMdHash else ""
  }

  function Max(a: real, b: real): real {
    if a >= b then a else b
  }

  /** One candidate that both backends found: the larger score, the graph's provenance, a new key. */
  function Combine(s: Setting, q: Query, papers: seq<PaperText>, prior: Hit, hit: Hit): Hit {
    var graphHit := if hit.origin.Graph? then hit else prior;
    prior.(origin := Both, score := Max(prior.score, hit.score),
           nodeId := graphHit.nodeId, relation := graphHit.relation,
           key := s.digest(CandidateIdentity(prior.paperId, RawHashOf(papers, prior.paperId), q.id,
                             QueryTextHash(s, q), prior.sourceText, prior.start, prior.end, Both)))
  }

  /** One turn of the merging loop, on the dictionary's values in insertion order. */
  function MergeHit(s: Setting, q: Query, papers: seq<PaperText>, merged: seq<Hit>, hit: Hit): seq<Hit> {
    var i := IndexAt(merged, LocationOf(hit));
    if i == |merged| then merged + [hit]
    else if merged[i].origin != hit.origin then merged[i := Combine(s, q, papers, merged[i], hit)]
    else merged
  }

  function MergeAll(s: Setting, q: Query, papers: seq<PaperText>, hits: seq<Hit>): seq<Hit> {
    if hits == [] then []
    else MergeHit(s, q, papers, MergeAll(s, q, papers, hits[..|hits| - 1]), hits[|hits| - 1])
  }

  ghost predicate DistinctLocations(hits: seq<Hit>) {
    forall i, j :: 0 <= i < j < |hits| ==> LocationOf(hits[i]) != LocationOf(hits[j])
  }

  /** The dictionary's keys, in insertion order, point at the hits of `values`. */
  ghost predicate Mirrors(merged: map<Location, Hit>, order: seq<Location>, values: seq<Hit>) {
    && |order| == |values| && DistinctLocations(values)
    && (forall i :: 0 <= i < |order| ==> order[i] == LocationOf(values[i]) && order[i] in merged
                                         && merged[order[i]] == values[i])
    && (forall l :: l in merged ==> l in order)
  }

  /** The merging loop of `UnifiedRetrievalCoordinator.retrieve`. */
  method MergeHits(s: Setting, q: Query, papers: seq<PaperText>, hits: seq<Hit>) returns (values: seq<Hit>)
    ensures values == MergeAll(s, q, papers, hits)
    ensures DistinctLocations(values)
  {
    hide Combine, LocationOf, MergeAll, IndexAt;
    var merged: map<Location, Hit> := map[];
    var order: seq<Location> := [];
    MergeNothing(s, q, papers, hits);
    for k := 0 to |hits|
      invariant Mirrors(merged, order, MergeAll(s, q, papers, hits[..k]))
    {
      var hit := hits[k];
      ghost var before := MergeAll(s, q, papers, hits[..k]);
      MergeStep(s, q, papers, hits, k);
      var at := LocationOf(hit);
      if at !in merged {
        merged := merged[at := hit];
        order := order + [at];
      } else {
        var prior := merged[at];
        ghost var i := MirrorsLookup(merged, order, before, at);
        if prior.origin != hit.origin {
          var both := Combine(s, q, papers, prior, hit);
          CombineKeepsLocation(s, q, papers, prior, hit);
          merged := merged[at := both];
        }
      }
    }
    assert hits[..|hits|] == hits;
    values := seq(|order|, i requires 0 <= i < |order| && order[i] in merged => merged[order[i]]);
    assert values == MergeAll(s, q, papers, hits);
  }

  lemma MergeNothing(s: Setting, q: Query, papers: seq<PaperText>, hits: seq<Hit>)
    ensures MergeAll(s, q, papers, hits[..0]) == []
  {
  }

  lemma MergeStep(s: Setting, q: Query, papers: seq<PaperText>, hits: seq<Hit>, k: nat)
    requires k < |hits|
    ensures MergeAll(s, q, papers, hits[..k + 1]) == MergeHit(s, q, papers, MergeAll(s, q, papers, hits[..k]), hits[k])
  {
    assert hits[..k + 1][..k] == hits[..k];
  }

  lemma CombineKeepsLocation(s: Setting, q: Query, papers: seq<PaperText>, prior: Hit, hit: Hit)
    ensures LocationOf(Combine(s, q, papers, prior, hit)) == LocationOf(prior)
  {
  }

  lemma MirrorsLookup(merged: map<Location, Hit>, order: seq<Location>, values: seq<Hit>, at: Location) returns (i: nat)
    requires Mirrors(merged, order, values) && at in merged
    ensures i < |values| && order[i] == at && merged[at] == values[i] && IndexAt(values, at) == i
  {
    hide LocationOf;
    i :| 0 <= i < |order| && order[i] == at;
    assert LocationOf(values[i]) == at;
    assert IndexAt(values, at) <= i;
  }

  // ---------------------------------------------------------------- the declarative form

  /** A text hit, combined with the graph's hit at its location if there is one. */
  function Upgrade(s: Setting, q: Query, papers: seq<PaperText>, t: Hit, graph: seq<Hit>): Hit {
    var i := IndexAt(graph, LocationOf(t));
    if i < |graph| then Combine(s, q, papers, t, graph[i]) else t
  }

  function Upgraded(s: Setting, q: Query, papers: seq<PaperText>, text: seq<Hit>, graph: seq<Hit>): seq<Hit> {
    seq(|text|, i requires 0 <= i < |text| => Upgrade(s, q, papers, text[i], graph))
  }

  /** The graph's hits at locations that the text search did not find, or, negated, did find. */
  function GraphHitsAt(text: seq<Hit>, graph: seq<Hit>, shared: bool): seq<Hit> {
    if graph == [] then []
    else
      var g := graph[|graph| - 1];
      GraphHitsAt(text, graph[..|graph| - 1], shared)
      + (if (IndexAt(text, LocationOf(g)) < |text|) == shared then [g] else [])
  }

  function Joined(s: Setting, q: Query, papers: seq<PaperText>, text: seq<Hit>, graph: seq<Hit>): seq<Hit> {
    Upgraded(s, q, papers, text, graph) + GraphHitsAt(text, graph, false)
  }

  ghost predicate OfOrigin(hits: seq<Hit>, origin: Origin) {
    forall i :: 0 <= i < |hits| ==> hits[i].origin == origin
  }

  lemma IndexAtIsUnique(hits: seq<Hit>, i: nat)
    requires DistinctLocations(hits) && i < |hits|
    ensures IndexAt(hits, LocationOf(hits[i])) == i
  {
    hide LocationOf;
    var k := IndexAt(hits, LocationOf(hits[i]));
    assert k <= i;
  }

  lemma MergeOfNew(s: Setting, q: Query, papers: seq<PaperText>, merged: seq<Hit>, hit: Hit)
    requires DistinctLocations(merged + [hit])
    ensures MergeHit(s, q, papers, merged, hit) == merged + [hit]
  {
    hide LocationOf, Combine;
    assert (merged + [hit])[|merged|] == hit;
    assert forall k :: 0 <= k < |merged| ==> (merged + [hit])[k] == merged[k];
  }

  lemma {:induction false} MergeOfDistinct(s: Setting, q: Query, papers: seq<PaperText>, text: seq<Hit>, n: nat)
    requires DistinctLocations(text) && n <= |text|
    ensures MergeAll(s, q, papers, text[..n]) == text[..n]
  {
    hide LocationOf, Combine, IndexAt, MergeHit;
    if n > 0 {
      MergeOfDistinct(s, q, papers, text, n - 1);
      assert text[..n] == text[..n - 1] + [text[n - 1]] && text[..n][..n - 1] == text[..n - 1];
      assert DistinctLocations(text[..n]);
      MergeOfNew(s, q, papers, text[..n - 1], text[n - 1]);
    }
  }

  lemma {:induction false} GraphHitsAtMembers(text: seq<Hit>, graph: seq<Hit>, shared: bool)
    ensures forall h :: h in GraphHitsAt(text, graph, shared) <==>
              h in graph && (IndexAt(text, LocationOf(h)) < |text|) == shared
  {
    hide LocationOf, IndexAt;
    if graph != [] {
      var n := |graph| - 1;
      GraphHitsAtMembers(text, graph[..n], shared);
      assert graph == graph[..n] + [graph[n]];
    }
  }

  lemma {:induction false} GraphHitsAtCount(text: seq<Hit>, graph: seq<Hit>)
    ensures |GraphHitsAt(text, graph, true)| + |GraphHitsAt(text, graph, false)| == |graph|
  {
    hide LocationOf, IndexAt;
    if graph != [] {
      GraphHitsAtCount(text, graph[..|graph| - 1]);
    }
  }

  /** Merging text hits and then graph hits upgrades the shared text hits in place and appends the
      graph hits found nowhere else. */
  lemma {:induction false} MergeIsJoin(s: Setting, q: Query, papers: seq<PaperText>, text: seq<Hit>, graph: seq<Hit>, n: nat)
    requires DistinctLocations(text) && DistinctLocations(graph) && n <= |graph|
    requires OfOrigin(text, TextBaseline) && OfOrigin(graph, Graph)
    ensures MergeAll(s, q, papers, text + graph[..n]) == Joined(s, q, papers, text, graph[..n])
  {
    hide LocationOf, Combine, IndexAt, MergeHit, MergeAll, Joined, DistinctLocations;
    if n == 0 {
      assert text + graph[..0] == text == text[..|text|];
      MergeOfDistinct(s, q, papers, text, |text|);
      NothingToUpgrade(s, q, papers, text);
    } else {
      var front := graph[..n - 1];
      MergeIsJoin(s, q, papers, text, graph, n - 1);
      assert text + graph[..n] == text + front + [graph[n - 1]];
      var all := text + front + [graph[n - 1]];
      MergeStep(s, q, papers, all, |all| - 1);
      assert all[..|all| - 1] == text + front && all[..|all|] == all;
      JoinStep(s, q, papers, text, graph, n);
    }
  }

  lemma NothingToUpgrade(s: Setting, q: Query, papers: seq<PaperText>, text: seq<Hit>)
    ensures Joined(s, q, papers, text, []) == text
  {
    assert Upgraded(s, q, papers, text, []) == text;
  }

  lemma JoinStep(s: Setting, q: Query, papers: seq<PaperText>, text: seq<Hit>, graph: seq<Hit>, n: nat)
    requires DistinctLocations(text) && DistinctLocations(graph) && 0 < n <= |graph|
    requires OfOrigin(text, TextBaseline) && OfOrigin(graph, Graph)
    ensures Joined(s, q, papers, text, graph[..n])
         == MergeHit(s, q, papers, Joined(s, q, papers, text, graph[..n - 1]), graph[n - 1])
  {
    hide LocationOf, Combine, IndexAt, Upgrade;
    var front, g := graph[..n - 1], graph[n - 1];
    assert graph[..n][..n - 1] == front;
    UpgradedStep(s, q, papers, text, graph, n);
    var merged := Joined(s, q, papers, text, front);
    var i := IndexAt(text, LocationOf(g));
    if i < |text| {
      JoinedIndexShared(s, q, papers, text, graph, n, i);
    } else {
      JoinedIndexFresh(s, q, papers, text, graph, n);
      assert Upgraded(s, q, papers, text, graph[..n]) + (GraphHitsAt(text, front, false) + [g]) == merged + [g];
    }
  }

  lemma UpgradeKeepsLocation(s: Setting, q: Query, papers: seq<PaperText>, t: Hit, graph: seq<Hit>)
    ensures LocationOf(Upgrade(s, q, papers, t, graph)) == LocationOf(t)
  {
  }

  /** One more graph hit changes at most the text hit at its own location. */
  lemma UpgradedStep(s: Setting, q: Query, papers: seq<PaperText>, text: seq<Hit>, graph: seq<Hit>, n: nat)
    requires DistinctLocations(text) && DistinctLocations(graph) && 0 < n <= |graph|
    ensures var i := IndexAt(text, LocationOf(graph[n - 1]));
            var front := Upgraded(s, q, papers, text, graph[..n - 1]);
            Upgraded(s, q, papers, text, graph[..n]) ==
              if i < |text| then front[i := Combine(s, q, papers, text[i], graph[n - 1])] else front
    ensures var i := IndexAt(text, LocationOf(graph[n - 1]));
            i < |text| ==> Upgrade(s, q, papers, text[i], graph[..n - 1]) == text[i]
  {
    hide LocationOf, Combine, IndexAt, Upgrade;
    var i := IndexAt(text, LocationOf(graph[n - 1]));
    forall k | 0 <= k < |text|
      ensures Upgrade(s, q, papers, text[k], graph[..n]) ==
              if k == i then Combine(s, q, papers, text[k], graph[n - 1]) else Upgrade(s, q, papers, text[k], graph[..n - 1])
    {
      UpgradeStep(s, q, papers, text, graph, n, k);
    }
    if i < |text| {
      UpgradeStep(s, q, papers, text, graph, n, i);
    }
  }

  lemma IndexExactly(hits: seq<Hit>, k: nat, at: Location)
    requires DistinctLocations(hits) && k < |hits|
    ensures k == IndexAt(hits, at) <==> LocationOf(hits[k]) == at
  {
    hide LocationOf, IndexAt;
    if LocationOf(hits[k]) == at {
      IndexAtIsUnique(hits, k);
    }
  }

  lemma NoneBefore(hits: seq<Hit>, n: nat)
    requires DistinctLocations(hits) && 0 < n <= |hits|
    ensures IndexAt(hits[..n - 1], LocationOf(hits[n - 1])) == n - 1
  {
    hide LocationOf, IndexAt;
    assert forall k :: 0 <= k < n - 1 ==> LocationOf(hits[..n - 1][k]) == LocationOf(hits[k]);
  }

  lemma UpgradeStep(s: Setting, q: Query, papers: seq<PaperText>, text: seq<Hit>, graph: seq<Hit>, n: nat, k: nat)
    requires DistinctLocations(text) && DistinctLocations(graph) && 0 < n <= |graph| && k < |text|
    ensures var i := IndexAt(text, LocationOf(graph[n - 1]));
            var before := Upgrade(s, q, papers, text[k], graph[..n - 1]);
            && Upgrade(s, q, papers, text[k], graph[..n]) ==
                 (if k == i then Combine(s, q, papers, text[k], graph[n - 1]) else before)
            && (k == i ==> before == text[k])
  {
    hide LocationOf, Combine, IndexAt, DistinctLocations;
    var front := graph[..n - 1];
    assert graph[..n] == front + [graph[n - 1]];
    IndexExactly(text, k, LocationOf(graph[n - 1]));
    NoneBefore(graph, n);
    IndexAtSnoc(front, graph[n - 1], LocationOf(text[k]));
  }

  lemma IndexAtSnoc(hits: seq<Hit>, hit: Hit, at: Location)
    ensures var i := IndexAt(hits, at);
            IndexAt(hits + [hit], at) == if i < |hits| then i else if LocationOf(hit) == at then |hits| else |hits| + 1
  {
    hide LocationOf;
    var all := hits + [hit];
    var i, j := IndexAt(hits, at), IndexAt(all, at);
    assert forall k :: 0 <= k < |hits| ==> all[k] == hits[k];
    assert all[|hits|] == hit;
  }

  lemma JoinedIndexShared(s: Setting, q: Query, papers: seq<PaperText>, text: seq<Hit>, graph: seq<Hit>, n: nat, i: nat)
    requires DistinctLocations(text) && DistinctLocations(graph) && 0 < n <= |graph|
    requires i < |text| && i == IndexAt(text, LocationOf(graph[n - 1]))
    ensures IndexAt(Joined(s, q, papers, text, graph[..n - 1]), LocationOf(graph[n - 1])) == i
  {
    hide LocationOf, Combine, IndexAt, Upgrade;
    var merged := Joined(s, q, papers, text, graph[..n - 1]);
    forall k | 0 <= k < |text| ensures LocationOf(merged[k]) == LocationOf(text[k]) {
      UpgradeKeepsLocation(s, q, papers, text[k], graph[..n - 1]);
    }
    var j := IndexAt(merged, LocationOf(graph[n - 1]));
    assert j <= i;
    assert forall k :: 0 <= k < i ==> LocationOf(merged[k]) != LocationOf(graph[n - 1]);
  }

  lemma JoinedIndexFresh(s: Setting, q: Query, papers: seq<PaperText>, text: seq<Hit>, graph: seq<Hit>, n: nat)
    requires DistinctLocations(text) && DistinctLocations(graph) && 0 < n <= |graph|
    requires IndexAt(text, LocationOf(graph[n - 1])) == |text|
    ensures var merged := Joined(s, q, papers, text, graph[..n - 1]);
            IndexAt(merged, LocationOf(graph[n - 1])) == |merged|
  {
    hide LocationOf, Combine, IndexAt, Upgrade;
    var front := graph[..n - 1];
    var merged := Joined(s, q, papers, text, front);
    var added := GraphHitsAt(text, front, false);
    GraphHitsAtMembers(text, front, false);
    forall k | 0 <= k < |merged| ensures LocationOf(merged[k]) != LocationOf(graph[n - 1]) {
      if k < |text| {
        UpgradeKeepsLocation(s, q, papers, text[k], front);
        assert LocationOf(text[k]) != LocationOf(graph[n - 1]);
      } else {
        assert merged[k] == added[k - |text|] && merged[k] in added;
        var j :| 0 <= j < |front| && front[j] == merged[k];
        assert graph[j] == merged[k];
      }
    }
  }

  // ---------------------------------------------------------------- what a merged hit stands for

  /** Every merged hit has the location and the score of some backend hit. */
  lemma JoinedHasSource(s: Setting, q: Query, papers: seq<PaperText>, text: seq<Hit>, graph: seq<Hit>, m: Hit)
      returns (h: Hit)
    requires m in Joined(s, q, papers, text, graph)
    ensures h in text || h in graph
    ensures LocationOf(h) == LocationOf(m) && h.score == m.score
  {
    hide LocationOf, IndexAt;
    var joined := Joined(s, q, papers, text, graph);
    var k :| 0 <= k < |joined| && joined[k] == m;
    if k < |text| {
      h := text[k];
      var i := IndexAt(graph, LocationOf(text[k]));
      if i < |graph| {
        CombineKeepsLocation(s, q, papers, text[k], graph[i]);
        h := if text[k].score >= graph[i].score then text[k] else graph[i];
      }
    } else {
      GraphHitsAtMembers(text, graph, false);
      assert m == GraphHitsAt(text, graph, false)[k - |text|];
      h := m;
    }
  }

  /** Every backend hit is represented by a merged hit at its location with no smaller score. */
  lemma JoinedCoversSource(s: Setting, q: Query, papers: seq<PaperText>, text: seq<Hit>, graph: seq<Hit>, h: Hit)
      returns (m: Hit)
    requires DistinctLocations(text) && DistinctLocations(graph) && (h in text || h in graph)
    ensures m in Joined(s, q, papers, text, graph)
    ensures LocationOf(m) == LocationOf(h) && m.score >= h.score
  {
    hide LocationOf, IndexAt, Combine;
    var joined := Joined(s, q, papers, text, graph);
    var i := IndexAt(text, LocationOf(h));
    if i < |text| {
      m := joined[i];
      UpgradeScore(s, q, papers, text[i], graph);
      if h in text {
        var k :| 0 <= k < |text| && text[k] == h;
        IndexAtIsUnique(text, k);
      } else {
        var k :| 0 <= k < |graph| && graph[k] == h;
        IndexAtIsUnique(graph, k);
      }
    } else {
      assert forall k :: 0 <= k < |text| ==> text[k] != h;
      GraphHitsAtMembers(text, graph, false);
      var k :| 0 <= k < |GraphHitsAt(text, graph, false)| && GraphHitsAt(text, graph, false)[k] == h;
      assert joined[|text| + k] == h;
      m := h;
    }
  }

  lemma UpgradeScore(s: Setting, q: Query, papers: seq<PaperText>, t: Hit, graph: seq<Hit>)
    ensures var u := Upgrade(s, q, papers, t, graph); var i := IndexAt(graph, LocationOf(t));
            LocationOf(u) == LocationOf(t) && u.score >= t.score && (i < |graph| ==> u.score >= graph[i].score)
  {
  }

  lemma JoinedDistinct(s: Setting, q: Query, papers: seq<PaperText>, text: seq<Hit>, graph: seq<Hit>)
    requires DistinctLocations(text) && DistinctLocations(graph)
    ensures DistinctLocations(Joined(s, q, papers, text, graph))
  {
    hide LocationOf, IndexAt, Upgrade;
    var joined, added := Joined(s, q, papers, text, graph), GraphHitsAt(text, graph, false);
    GraphHitsAtMembers(text, graph, false);
    GraphHitsAtDistinct(text, graph, false);
    forall i, j | 0 <= i < j < |joined| ensures LocationOf(joined[i]) != LocationOf(joined[j]) {
      if i < |text| {
        UpgradeKeepsLocation(s, q, papers, text[i], graph);
      }
      if j < |text| {
        UpgradeKeepsLocation(s, q, papers, text[j], graph);
      } else {
        assert joined[j] == added[j - |text|] && joined[j] in added;
        assert IndexAt(text, LocationOf(joined[j])) == |text|;
        assert i >= |text| ==> joined[i] == added[i - |text|];
      }
    }
  }

  lemma {:induction false} GraphHitsAtDistinct(text: seq<Hit>, graph: seq<Hit>, shared: bool)
    requires DistinctLocations(graph)
    ensures DistinctLocations(GraphHitsAt(text, graph, shared))
  {
    hide LocationOf, IndexAt;
    if graph != [] {
      var n := |graph| - 1;
      GraphHitsAtDistinct(text, graph[..n], shared);
      GraphHitsAtMembers(text, graph[..n], shared);
      var front := GraphHitsAt(text, graph[..n], shared);
      forall i | 0 <= i < |front| ensures LocationOf(front[i]) != LocationOf(graph[n]) {
        assert front[i] in front;
        var k :| 0 <= k < n && graph[..n][k] == front[i];
      }
    }
  }
}
