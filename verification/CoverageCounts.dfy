/** What the numbers of a coverage report mean, counted over the positions of the executed queries and of their candidates
    (library/retrieval_coverage.py). */
module CoverageCounts {
  import opened Basics
  import opened Ids
  import opened Ordering
  import opened RetrievalHits
  import opened RetrievalLedger
  import opened Tallies
  import opened Coverage

  /** The queries of one claim, of one intent, of both, or all. */
  datatype Scope = Scope(claim: Option<string>, intent: Option<RetrievalIntent>)

  predicate In(scope: Scope, e: Executed) {
    && (scope.claim.Some? ==> ClaimOf(e) == scope.claim.value)
    && (scope.intent.Some? ==> e.intent == scope.intent.value)
  }

  ghost function Members(es: seq<Executed>, scope: Scope): set<nat> {
    set i: nat | i < |es| && In(scope, es[i])
  }

  /** Query `i` counts, and its ledger has a candidate at `j`. */
  ghost predicate Listed(es: seq<Executed>, scope: Scope, i: nat, j: nat) {
    i < |es| && In(scope, es[i]) && j < |es[i].ledger.rawHits|
  }

  ghost function HitAt(es: seq<Executed>, p: (nat, nat)): Hit
    requires p.0 < |es| && p.1 < |es[p.0].ledger.rawHits|
  {
    es[p.0].ledger.rawHits[p.1]
  }

  ghost predicate ChosenAt(es: seq<Executed>, scope: Scope, i: nat, j: nat) {
    Listed(es, scope, i, j) && es[i].ledger.rawHits[j].key in es[i].ledger.selectedKeys
  }

  /** The positions of the selected candidates. */
  ghost function Chosen(es: seq<Executed>, scope: Scope): (r: set<(nat, nat)>)
    ensures forall p :: p in r <==> ChosenAt(es, scope, p.0, p.1)
  {
    set i: nat, j: nat | i < |es| && j < |es[i].ledger.rawHits| && ChosenAt(es, scope, i, j) :: (i, j)
  }

  /** The positions of the invalid candidates. */
  ghost function Invalid(es: seq<Executed>, scope: Scope): (r: set<(nat, nat)>)
    ensures forall p :: p in r <==> Listed(es, scope, p.0, p.1) && !HitAt(es, p).isValid
  {
    set i: nat, j: nat | i < |es| && j < |es[i].ledger.rawHits| && Listed(es, scope, i, j) && !HitAt(es, (i, j)).isValid :: (i, j)
  }

  predicate Before(p: (nat, nat), q: (nat, nat)) {
    p.0 < q.0 || (p.0 == q.0 && p.1 < q.1)
  }

  predicate SamePassage(g: Hit, h: Hit) {
    g.paperId == h.paperId && g.start == h.start && g.end == h.end
  }

  ghost predicate RepeatsEarlier(es: seq<Executed>, scope: Scope, p: (nat, nat))
    requires p in Chosen(es, scope)
  {
    exists q :: q in Chosen(es, scope) && Before(q, p) && SamePassage(HitAt(es, q), HitAt(es, p))
  }

  /** The positions of the selected candidates whose passage an earlier one has. */
  ghost function Repeated(es: seq<Executed>, scope: Scope): set<(nat, nat)> {
    set p | p in Chosen(es, scope) && RepeatsEarlier(es, scope, p)
  }

  ghost function Papers(es: seq<Executed>, scope: Scope): set<string> {
    set p | p in Chosen(es, scope) :: HitAt(es, p).paperId
  }

  ghost function Wordings(es: seq<Executed>, scope: Scope): set<set<string>> {
    set i | i in Members(es, scope) :: es[i].terms
  }

  /** The candidates that the backends dropped, valid and invalid. */
  ghost function Dropped(es: seq<Executed>, scope: Scope): nat {
    if es == [] then 0
    else
      var l := es[|es| - 1].ledger;
      Dropped(es[..|es| - 1], scope)
      + if In(scope, es[|es| - 1]) then
          l.textTruncatedValid + l.textTruncatedInvalid + l.graphTruncatedValid + l.graphTruncatedInvalid
        else 0
  }

  // ---------------------------------------------------------------- what a report says

  ghost predicate Counted(es: seq<Executed>, scope: Scope, queries: nat, selected: nat, papers: nat) {
    queries == |Members(es, scope)| && selected == |Chosen(es, scope)| && papers == |Papers(es, scope)|
  }

  /** The rate is the share of repeated passages among the selected candidates, and 0 without any. */
  ghost predicate Rated(es: seq<Executed>, scope: Scope, rate: real) {
    && rate * (|Chosen(es, scope)| as real) == |Repeated(es, scope)| as real
    && (Chosen(es, scope) == {} ==> rate == 0.0)
  }

  ghost predicate Summed(es: seq<Executed>, scope: Scope, terminology: nat, invalid: nat, truncated: nat) {
    && terminology == |Wordings(es, scope)| && invalid == |Invalid(es, scope)| && truncated == Dropped(es, scope)
  }

  /** Exactly the intents with a query in the scope have a row, which counts the queries of that intent. */
  ghost predicate Broken(es: seq<Executed>, scope: Scope, rows: seq<IntentCoverage>) {
    && (forall x :: x in rows ==> Counted(es, scope.(intent := Some(x.intent)), x.queries, x.selected, x.papers))
    && (forall i :: i in IntentsIn(rows) <==> Members(es, scope.(intent := Some(i))) != {})
  }

  predicate Required(i: RetrievalIntent) {
    i.Support? || i.Contradiction? || i.Boundary? || i.Alternative?
  }

  /** Intent `i` is required and no query of the claim has it. */
  ghost predicate Lacks(es: seq<Executed>, id: string, i: RetrievalIntent) {
    Required(i) && Members(es, Scope(Some(id), Some(i))) == {}
  }

  ghost predicate LacksSome(es: seq<Executed>, id: string) {
    exists i :: Lacks(es, id, i)
  }

  ghost predicate Queried(es: seq<Executed>, id: string) {
    exists e :: e in es && ClaimOf(e) == id
  }

  ghost predicate Reported(claims: seq<ClaimCoverage>, id: string) {
    exists c :: c in claims && c.claimId == id
  }

  ghost predicate ClaimExactly(es: seq<Executed>, c: ClaimCoverage) {
    var scope := Scope(Some(c.claimId), None);
    && Members(es, scope) != {} && Counted(es, scope, c.queries, c.selected, c.papers) && Rated(es, scope, c.duplicateRate)
    && Summed(es, scope, c.terminology, c.invalid, c.truncated) && Broken(es, scope, c.perIntent)
    && (forall i :: i in c.missing <==> Lacks(es, c.claimId, i))
  }

  ghost predicate AggregateExactly(es: seq<Executed>, a: Aggregate) {
    var scope := Scope(None, None);
    && Counted(es, scope, a.queries, a.selected, a.papers) && Rated(es, scope, a.duplicateRate)
    && Summed(es, scope, a.terminology, a.invalid, a.truncated) && Broken(es, scope, a.perIntent)
    && a.queries == |es| && a.claims == |set e | e in es :: ClaimOf(e)|
    && (forall id :: id in a.missingClaims <==> Queried(es, id) && LacksSome(es, id))
  }

  // ---------------------------------------------------------------- lists of queries and positions

  ghost function Picked(es: seq<Executed>, scope: Scope): seq<Executed> {
    if es == [] then []
    else Picked(es[..|es| - 1], scope) + if In(scope, es[|es| - 1]) then [es[|es| - 1]] else []
  }

  lemma {:induction false} PickedAll(es: seq<Executed>)
    ensures Picked(es, Scope(None, None)) == es
  {
    if es != [] {
      PickedAll(es[..|es| - 1]);
    }
  }

  lemma {:induction false} PickedClaim(es: seq<Executed>, id: string)
    ensures Picked(es, Scope(Some(id), None)) == Where(es, ClaimOf, id)
  {
    hide ClaimOf;
    if es != [] {
      PickedClaim(es[..|es| - 1], id);
    }
  }

  lemma {:induction false} PickedIntent(es: seq<Executed>, i: RetrievalIntent)
    ensures Picked(es, Scope(None, Some(i))) == Where(es, IntentOf, i)
  {
    if es != [] {
      PickedIntent(es[..|es| - 1], i);
    }
  }

  lemma {:induction false} PickedBoth(es: seq<Executed>, id: string, i: RetrievalIntent)
    ensures Picked(es, Scope(Some(id), Some(i))) == Where(Where(es, ClaimOf, id), IntentOf, i)
  {
    if es != [] {
      hide Where, ClaimOf;
      var n := |es| - 1;
      PickedBoth(es[..n], id, i);
      assert es == es[..n] + [es[n]];
      WhereTwiceSnoc(es[..n], es[n], ClaimOf, id, IntentOf, i);
    } else {
      assert Where(Where(es, ClaimOf, id), IntentOf, i) == [];
    }
  }

  /** Two sets whose members correspond one to one are equally large. */
  lemma {:induction false} SameSize<T(!new), U(!new)>(a: set<T>, f: T -> U, b: set<U>)
    requires forall x, y :: x in a && y in a && f(x) == f(y) ==> x == y
    requires forall x :: x in a ==> f(x) in b
    requires forall u :: u in b ==> exists x :: x in a && f(x) == u
    ensures |a| == |b|
  {
    if a == {} {
      assert b == {};
    } else {
      var x :| x in a;
      forall u | u in b - {f(x)} ensures exists y :: y in a - {x} && f(y) == u {
        var y :| y in a && f(y) == u;
        assert y in a - {x};
      }
      SameSize(a - {x}, f, b - {f(x)});
    }
  }

  ghost function ChosenIn(hits: seq<Hit>, keys: set<string>): set<nat> {
    set j: nat | j < |hits| && hits[j].key in keys
  }

  ghost function InvalidIn(hits: seq<Hit>): set<nat> {
    set j: nat | j < |hits| && !hits[j].isValid
  }

  lemma HitsWithLast(hits: seq<Hit>, keys: set<string>)
    requires hits != []
    ensures |HitsWith(hits, keys)| == |HitsWith(hits[..|hits| - 1], keys)| + if hits[|hits| - 1].key in keys then 1 else 0
  {
  }

  lemma ChosenInLast(hits: seq<Hit>, keys: set<string>)
    requires hits != []
    ensures |ChosenIn(hits, keys)| == |ChosenIn(hits[..|hits| - 1], keys)| + if hits[|hits| - 1].key in keys then 1 else 0
  {
    var n := |hits| - 1;
    if hits[n].key in keys {
      assert ChosenIn(hits, keys) == ChosenIn(hits[..n], keys) + {n};
    } else {
      assert ChosenIn(hits, keys) == ChosenIn(hits[..n], keys);
    }
  }

  lemma {:induction false} ChosenSize(hits: seq<Hit>, keys: set<string>)
    ensures |HitsWith(hits, keys)| == |ChosenIn(hits, keys)|
  {
    if hits != [] {
      hide HitsWith, ChosenIn;
      var n := |hits| - 1;
      ChosenSize(hits[..n], keys);
      HitsWithLast(hits, keys);
      ChosenInLast(hits, keys);
    }
  }

  lemma {:induction false} InvalidSize(hits: seq<Hit>)
    ensures |HitsOf(hits, false)| == |InvalidIn(hits)|
  {
    if hits != [] {
      var n := |hits| - 1;
      InvalidSize(hits[..n]);
      assert InvalidIn(hits) == InvalidIn(hits[..n]) + if hits[n].isValid then {} else {n};
    }
  }

  ghost function Row(n: nat, js: set<nat>): (r: set<(nat, nat)>)
    ensures |r| == |js| && forall p :: p in r <==> p.0 == n && p.1 in js
  {
    var r := set j | j in js :: (n, j);
    SameSize(js, (j: nat) => (n, j), r);
    r
  }

  /** What the last query adds to the positions. */
  lemma MembersStep(es: seq<Executed>, scope: Scope)
    requires es != []
    ensures |Members(es, scope)| == |Members(es[..|es| - 1], scope)| + if In(scope, es[|es| - 1]) then 1 else 0
  {
    hide In;
    var n := |es| - 1;
    assert Members(es, scope) == Members(es[..n], scope) + if In(scope, es[n]) then {n} else {};
  }

  /** Positions before the last query are those of the list without it. */
  lemma FrontListed(es: seq<Executed>, scope: Scope, i: nat, j: nat)
    requires es != [] && i < |es| - 1
    ensures Listed(es[..|es| - 1], scope, i, j) <==> Listed(es, scope, i, j)
    ensures ChosenAt(es[..|es| - 1], scope, i, j) <==> ChosenAt(es, scope, i, j)
  {
    hide In;
    assert es[..|es| - 1][i] == es[i];
  }

  lemma LastChosen(es: seq<Executed>, scope: Scope)
    requires es != [] && In(scope, es[|es| - 1])
    ensures var n := |es| - 1; var l := es[n].ledger; var row := Row(n, ChosenIn(l.rawHits, ToSet(l.selectedKeys)));
            Chosen(es, scope) == Chosen(es[..n], scope) + row && Chosen(es[..n], scope) !! row
  {
    var n := |es| - 1;
    var l := es[n].ledger;
    var row := Row(n, ChosenIn(l.rawHits, ToSet(l.selectedKeys)));
    forall p: (nat, nat) | p.0 == n ensures ChosenAt(es, scope, p.0, p.1) <==> p in row {
      hide In, Row, Chosen;
    }
    hide In, Row, Chosen, ChosenAt, ChosenIn;
    forall p: (nat, nat) ensures p in Chosen(es, scope) <==> p in Chosen(es[..n], scope) + row {
      if p.0 < n {
        FrontListed(es, scope, p.0, p.1);
      } else if p.0 > n {
        OutOfRange(es, scope, p);
      } else {
        OutOfRange(es[..n], scope, p);
      }
    }
    forall p | p in row ensures p !in Chosen(es[..n], scope) {
      OutOfRange(es[..n], scope, p);
    }
  }

  lemma OutOfRange(es: seq<Executed>, scope: Scope, p: (nat, nat))
    requires p.0 >= |es|
    ensures !Listed(es, scope, p.0, p.1) && !ChosenAt(es, scope, p.0, p.1)
  {
  }

  lemma LastInvalid(es: seq<Executed>, scope: Scope)
    requires es != [] && In(scope, es[|es| - 1])
    ensures var n := |es| - 1; var row := Row(n, InvalidIn(es[n].ledger.rawHits));
            Invalid(es, scope) == Invalid(es[..n], scope) + row && Invalid(es[..n], scope) !! row
  {
    var n := |es| - 1;
    var row := Row(n, InvalidIn(es[n].ledger.rawHits));
    hide In, Row, Invalid, ChosenAt;
    forall p: (nat, nat) | p.0 == n ensures p in Invalid(es, scope) <==> p in row {
      assert Listed(es, scope, n, p.1) <==> p.1 < |es[n].ledger.rawHits|;
    }
    hide Listed, InvalidIn;
    forall p: (nat, nat) ensures p in Invalid(es, scope) <==> p in Invalid(es[..n], scope) + row {
      if p.0 < n {
        FrontListed(es, scope, p.0, p.1);
      } else if p.0 > n {
        OutOfRange(es, scope, p);
      } else {
        OutOfRange(es[..n], scope, p);
      }
    }
    forall p | p in row ensures p !in Invalid(es[..n], scope) {
      OutOfRange(es[..n], scope, p);
    }
  }

  lemma LastOutside(es: seq<Executed>, scope: Scope)
    requires es != [] && !In(scope, es[|es| - 1])
    ensures Chosen(es, scope) == Chosen(es[..|es| - 1], scope) && Invalid(es, scope) == Invalid(es[..|es| - 1], scope)
  {
    hide In, Chosen, Invalid;
  }

  lemma ChosenStep(es: seq<Executed>, scope: Scope)
    requires es != []
    ensures var l := es[|es| - 1].ledger;
            |Chosen(es, scope)| == |Chosen(es[..|es| - 1], scope)| + if In(scope, es[|es| - 1]) then |SelectedHits(l)| else 0
  {
    hide In, SelectedHits, Chosen, HitsWith, Row, ToSet;
    var n := |es| - 1;
    var l := es[n].ledger;
    var front := Chosen(es[..n], scope);
    if In(scope, es[n]) {
      LastChosen(es, scope);
      ChosenSize(l.rawHits, ToSet(l.selectedKeys));
      SelectedSize(l);
    } else {
      LastOutside(es, scope);
    }
  }

  lemma SelectedSize(l: Ledger)
    ensures |SelectedHits(l)| == |HitsWith(l.rawHits, ToSet(l.selectedKeys))|
  {
  }

  lemma InvalidStep(es: seq<Executed>, scope: Scope)
    requires es != []
    ensures var l := es[|es| - 1].ledger;
            |Invalid(es, scope)| == |Invalid(es[..|es| - 1], scope)| + if In(scope, es[|es| - 1]) then |HitsOf(l.rawHits, false)| else 0
  {
    hide In, Invalid, HitsOf, Row;
    var n := |es| - 1;
    var l := es[n].ledger;
    var front := Invalid(es[..n], scope);
    if In(scope, es[n]) {
      LastInvalid(es, scope);
      InvalidSize(l.rawHits);
    } else {
      LastOutside(es, scope);
    }
  }

  lemma NothingPicked(scope: Scope)
    ensures Members([], scope) == {} && Chosen([], scope) == {} && Invalid([], scope) == {}
  {
  }

  lemma NothingSummed(scope: Scope)
    ensures Total(Picked([], scope), InvalidOf) == 0 && Total(Picked([], scope), TruncatedOf) == 0 && Dropped([], scope) == 0
  {
  }

  /** How many queries and selected candidates there are in scope. */
  lemma {:induction false} PickedSizes(es: seq<Executed>, scope: Scope)
    ensures |Picked(es, scope)| == |Members(es, scope)| && |AllSelected(Picked(es, scope))| == |Chosen(es, scope)|
  {
    hide In, Members, Chosen, SelectedHits;
    if es == [] {
      NothingPicked(scope);
    } else {
      var n := |es| - 1;
      PickedSizes(es[..n], scope);
      MembersStep(es, scope);
      ChosenStep(es, scope);
      var front := Picked(es[..n], scope);
      assert (front + [es[n]])[..|front|] == front && front + [] == front;
    }
  }

  lemma {:induction false} PickedSums(es: seq<Executed>, scope: Scope)
    requires forall e :: e in es ==> e.ledger.invalidCandidates == |HitsOf(e.ledger.rawHits, false)|
    ensures Total(Picked(es, scope), InvalidOf) == |Invalid(es, scope)|
    ensures Total(Picked(es, scope), TruncatedOf) == Dropped(es, scope)
  {
    hide In, HitsOf, Invalid, Total;
    if es == [] {
      NothingPicked(scope);
      NothingSummed(scope);
    } else {
      var n := |es| - 1;
      assert es == es[..n] + [es[n]];
      PickedSums(es[..n], scope);
      InvalidStep(es, scope);
      var front := Picked(es[..n], scope);
      TotalSnoc(front, es[n], InvalidOf);
      TotalSnoc(front, es[n], TruncatedOf);
      assert front + [] == front;
    }
  }

  lemma {:induction false} PickedMembers(es: seq<Executed>, scope: Scope)
    ensures forall e :: e in Picked(es, scope) <==> e in es && In(scope, e)
  {
    hide In;
    if es != [] {
      assert es == es[..|es| - 1] + [es[|es| - 1]];
      PickedMembers(es[..|es| - 1], scope);
    }
  }

  lemma {:induction false} SelectedMembers(es: seq<Executed>, h: Hit)
    ensures h in AllSelected(es) <==> exists e :: e in es && h in SelectedHits(e.ledger)
  {
    hide SelectedHits;
    if es != [] {
      assert es == es[..|es| - 1] + [es[|es| - 1]];
      SelectedMembers(es[..|es| - 1], h);
    }
  }

  ghost predicate HitChosen(es: seq<Executed>, scope: Scope, h: Hit) {
    exists p :: p in Chosen(es, scope) && HitAt(es, p) == h
  }

  /** The selected candidates of the queries in scope are the candidates at the chosen positions. */
  lemma SelectedAt(es: seq<Executed>, scope: Scope, h: Hit)
    ensures h in AllSelected(Picked(es, scope)) <==> HitChosen(es, scope, h)
  {
    hide In, HitsWith, AllSelected, Picked;
    SelectedMembers(Picked(es, scope), h);
    PickedMembers(es, scope);
    if h in AllSelected(Picked(es, scope)) {
      var e :| e in Picked(es, scope) && h in SelectedHits(e.ledger);
      var i: nat :| i < |es| && es[i] == e;
      var j: nat :| j < |e.ledger.rawHits| && e.ledger.rawHits[j] == h;
      assert (i, j) in Chosen(es, scope) && HitAt(es, (i, j)) == h;
    }
    if HitChosen(es, scope, h) {
      var p :| p in Chosen(es, scope) && HitAt(es, p) == h;
      assert es[p.0] in Picked(es, scope) && h in SelectedHits(es[p.0].ledger);
    }
  }

  // ---------------------------------------------------------------- repeated passages

  ghost predicate Located(es: seq<Executed>, scope: Scope) {
    forall p :: p in Chosen(es, scope) ==> HitAt(es, p).start.Some? && HitAt(es, p).end.Some?
  }

  ghost function PassageAt(es: seq<Executed>, p: (nat, nat)): (string, nat, nat) {
    if p.0 < |es| && p.1 < |es[p.0].ledger.rawHits| then SpanIdentity(HitAt(es, p)) else ("", 0, 0)
  }

  ghost function Firsts(es: seq<Executed>, scope: Scope): set<(nat, nat)> {
    Chosen(es, scope) - Repeated(es, scope)
  }

  lemma SamePassageAt(es: seq<Executed>, scope: Scope, p: (nat, nat), q: (nat, nat))
    requires Located(es, scope) && p in Chosen(es, scope) && q in Chosen(es, scope)
    ensures SamePassage(HitAt(es, p), HitAt(es, q)) <==> PassageAt(es, p) == PassageAt(es, q)
  {
  }

  ghost predicate SomeFirst(es: seq<Executed>, scope: Scope, u: (string, nat, nat)) {
    exists q :: q in Firsts(es, scope) && PassageAt(es, q) == u
  }

  /** Every passage has a first position. */
  lemma {:induction false} FirstOf(es: seq<Executed>, scope: Scope, p: (nat, nat))
    requires Located(es, scope) && p in Chosen(es, scope)
    ensures SomeFirst(es, scope, PassageAt(es, p))
    decreases p.0, p.1
  {
    hide Chosen, Located, PassageAt, SamePassage;
    if RepeatsEarlier(es, scope, p) {
      var q :| q in Chosen(es, scope) && Before(q, p) && SamePassage(HitAt(es, q), HitAt(es, p));
      SamePassageAt(es, scope, q, p);
      FirstOf(es, scope, q);
    } else {
      assert p in Firsts(es, scope);
    }
  }

  lemma FirstsDiffer(es: seq<Executed>, scope: Scope, p: (nat, nat), q: (nat, nat))
    requires Located(es, scope) && p in Firsts(es, scope) && q in Firsts(es, scope) && PassageAt(es, p) == PassageAt(es, q)
    ensures p == q
  {
    hide Chosen, Located, PassageAt, SamePassage;
    SamePassageAt(es, scope, p, q);
    SamePassageAt(es, scope, q, p);
    assert Before(p, q) || Before(q, p) || p == q;
  }

  lemma FirstsAreIdentities(es: seq<Executed>, scope: Scope)
    requires Located(es, scope)
    ensures |Firsts(es, scope)| == |SpanIdentities(AllSelected(Picked(es, scope)))|
  {
    hide Chosen, Located, HitChosen, SamePassage, SpanIdentity, AllSelected, Firsts, SomeFirst;
    var hits := AllSelected(Picked(es, scope));
    forall p, q | p in Firsts(es, scope) && q in Firsts(es, scope) && PassageAt(es, p) == PassageAt(es, q) ensures p == q {
      FirstsDiffer(es, scope, p, q);
    }
    forall p | p in Firsts(es, scope) ensures PassageAt(es, p) in SpanIdentities(hits) {
      FirstSelected(es, scope, p);
    }
    forall u | u in SpanIdentities(hits) ensures exists p :: p in Firsts(es, scope) && PassageAt(es, p) == u {
      IdentityFirst(es, scope, u);
    }
    SameSize(Firsts(es, scope), (p: (nat, nat)) => PassageAt(es, p), SpanIdentities(hits));
  }

  lemma FirstSelected(es: seq<Executed>, scope: Scope, p: (nat, nat))
    requires p in Firsts(es, scope)
    ensures PassageAt(es, p) in SpanIdentities(AllSelected(Picked(es, scope)))
  {
    hide In, SpanIdentity, AllSelected;
    var h := HitAt(es, p);
    assert HitChosen(es, scope, h);
    SelectedAt(es, scope, h);
  }

  lemma IdentityFirst(es: seq<Executed>, scope: Scope, u: (string, nat, nat))
    requires Located(es, scope) && u in SpanIdentities(AllSelected(Picked(es, scope)))
    ensures exists p :: p in Firsts(es, scope) && PassageAt(es, p) == u
  {
    hide In, Located, SpanIdentity, AllSelected, Firsts;
    var h :| h in AllSelected(Picked(es, scope)) && SpanIdentity(h) == u;
    SelectedAt(es, scope, h);
    var p :| p in Chosen(es, scope) && HitAt(es, p) == h;
    FirstOf(es, scope, p);
  }

  /** The duplicate rate times the number of selected candidates is how many of them repeat an earlier passage. */
  lemma RateExactly(es: seq<Executed>, scope: Scope)
    requires Located(es, scope) && |AllSelected(Picked(es, scope))| == |Chosen(es, scope)|
    ensures Rated(es, scope, DuplicateRate(AllSelected(Picked(es, scope))))
  {
    hide Chosen, Located, RepeatsEarlier, AllSelected, SpanIdentities;
    FirstsAreIdentities(es, scope);
    var hits := AllSelected(Picked(es, scope));
    var chosen, repeated := Chosen(es, scope), Repeated(es, scope);
    assert |Firsts(es, scope)| == |chosen| - |repeated|;
    if hits != [] {
      ShareOf(|SpanIdentities(hits)| as real, |hits| as real);
    }
  }

  lemma ShareOf(a: real, b: real)
    requires b > 0.0
    ensures (1.0 - a / b) * b == b - a
  {
  }

  // ---------------------------------------------------------------- what a report says, proved

  ghost predicate Accepted(digest: Digest, es: seq<Executed>) {
    forall e :: e in es ==> EntryOk(digest, e)
  }

  lemma LedgerCounts(digest: Digest, e: Executed)
    requires EntryOk(digest, e)
    ensures e.ledger.invalidCandidates == |HitsOf(e.ledger.rawHits, false)|
  {
    hide HitOk, ClassificationOk, OrderOk, NoRepeats;
  }

  lemma ChosenLocated(digest: Digest, es: seq<Executed>, scope: Scope)
    requires Accepted(digest, es)
    ensures Located(es, scope)
  {
    hide EntryOk, HitsWith, In;
    forall p | p in Chosen(es, scope) ensures HitAt(es, p).start.Some? && HitAt(es, p).end.Some? {
      assert es[p.0] in es && HitAt(es, p) in SelectedHits(es[p.0].ledger);
      SelectedLocated(digest, es[p.0], HitAt(es, p));
    }
  }

  lemma PapersExactly(es: seq<Executed>, scope: Scope)
    ensures PapersOfHits(AllSelected(Picked(es, scope))) == Papers(es, scope)
  {
    hide Chosen, Picked, AllSelected;
    var hits := AllSelected(Picked(es, scope));
    forall id | id in PapersOfHits(hits) ensures id in Papers(es, scope) {
      var h :| h in hits && h.paperId == id;
      SelectedAt(es, scope, h);
      var p :| p in Chosen(es, scope) && HitAt(es, p) == h;
      assert HitAt(es, p).paperId in Papers(es, scope);
    }
    forall id | id in Papers(es, scope) ensures id in PapersOfHits(hits) {
      var p :| p in Chosen(es, scope) && HitAt(es, p).paperId == id;
      assert HitChosen(es, scope, HitAt(es, p));
      SelectedAt(es, scope, HitAt(es, p));
    }
  }

  lemma WordingsExactly(es: seq<Executed>, scope: Scope)
    ensures Union(Picked(es, scope), TermsOf) == Wordings(es, scope)
  {
    hide In, Picked, Union;
    PickedMembers(es, scope);
    var ps := Picked(es, scope);
    forall terms | terms in Union(ps, TermsOf) ensures terms in Wordings(es, scope) {
      var e :| e in ps && terms in TermsOf(e);
      var i: nat :| i < |es| && es[i] == e;
      assert i in Members(es, scope);
    }
    forall terms | terms in Wordings(es, scope) ensures terms in Union(ps, TermsOf) {
      var i :| i in Members(es, scope) && es[i].terms == terms;
      assert es[i] in ps && terms in TermsOf(es[i]);
    }
  }

  /** All figures of the queries in scope. */
  lemma PickedExactly(digest: Digest, es: seq<Executed>, scope: Scope)
    requires Accepted(digest, es)
    ensures var ps := Picked(es, scope);
            && Counted(es, scope, |ps|, |AllSelected(ps)|, |PapersOfHits(AllSelected(ps))|)
            && Rated(es, scope, DuplicateRate(AllSelected(ps)))
            && Summed(es, scope, |Union(ps, TermsOf)|, Total(ps, InvalidOf), Total(ps, TruncatedOf))
  {
    hide EntryOk, Members, Chosen, Invalid, Picked, Total, Union, AllSelected, Rated, HitsOf, PapersOfHits, Papers, Wordings, Located;
    forall e | e in es ensures e.ledger.invalidCandidates == |HitsOf(e.ledger.rawHits, false)| {
      LedgerCounts(digest, e);
    }
    PickedSizes(es, scope);
    PickedSums(es, scope);
    PapersExactly(es, scope);
    WordingsExactly(es, scope);
    ChosenLocated(digest, es, scope);
    RateExactly(es, scope);
  }

  lemma PickedNone(es: seq<Executed>, scope: Scope)
    ensures Picked(es, scope) == [] <==> Members(es, scope) == {}
  {
    PickedSizes(es, scope);
  }

  lemma IntentExactly(digest: Digest, es: seq<Executed>, scope: Scope, i: RetrievalIntent)
    requires Accepted(digest, es)
    ensures var x := CoverageOfIntent(i, Picked(es, scope)); Counted(es, scope, x.queries, x.selected, x.papers)
  {
    hide EntryOk, Rated, Summed, Counted;
    PickedExactly(digest, es, scope);
  }

  /** Picking by intent among the queries in scope. */
  lemma PickedRefined(es: seq<Executed>, scope: Scope, i: RetrievalIntent)
    requires scope.intent.None?
    ensures Where(Picked(es, scope), IntentOf, i) == Picked(es, scope.(intent := Some(i)))
  {
    hide Where, ClaimOf, Picked;
    match scope.claim {
      case None =>
        PickedAll(es);
        PickedIntent(es, i);
      case Some(id) =>
        PickedClaim(es, id);
        PickedBoth(es, id, i);
    }
  }

  lemma RowsExactly(digest: Digest, es: seq<Executed>, scope: Scope)
    requires Accepted(digest, es) && scope.intent.None?
    ensures Broken(es, scope, PerIntent(INTENTS, Picked(es, scope)))
  {
    hide EntryOk, Where, Picked, PerIntent, CoverageOfIntent, Counted, Accepted, Members, Among;
    var ps := Picked(es, scope);
    var rows := PerIntent(INTENTS, ps);
    forall x | x in rows ensures Counted(es, scope.(intent := Some(x.intent)), x.queries, x.selected, x.papers) {
      PerIntentMember(INTENTS, ps, x);
      PickedRefined(es, scope, x.intent);
      IntentExactly(digest, es, scope.(intent := Some(x.intent)), x.intent);
    }
    PerIntentOrder(INTENTS, ps);
    forall i: RetrievalIntent ensures i in IntentsIn(rows) <==> Members(es, scope.(intent := Some(i))) != {} {
      PickedRefined(es, scope, i);
      PickedNone(es, scope.(intent := Some(i)));
      GroupPresent(ps, i);
      EveryIntent(i);
    }
  }

  lemma RequiredIntents(i: RetrievalIntent)
    ensures i in INTENTS[..REQUIRED] <==> Required(i)
  {
    assert INTENTS[..REQUIRED] == [Support, Contradiction, Boundary, Alternative];
  }

  /** The missing intents of a claim are the required ones that no query of the claim has. */
  lemma MissingExactly(es: seq<Executed>, id: string, i: RetrievalIntent)
    ensures i in Missing(Among(INTENTS, IntentSet(Where(es, ClaimOf, id)))) <==> Lacks(es, id, i)
  {
    hide Where, Among, Members, ClaimOf;
    RequiredIntents(i);
    EveryIntent(i);
    var scope := Scope(Some(id), None);
    PickedClaim(es, id);
    PickedRefined(es, scope, i);
    PickedNone(es, scope.(intent := Some(i)));
    GroupPresent(Where(es, ClaimOf, id), i);
  }

  lemma ClaimIsExact(digest: Digest, es: seq<Executed>, id: string)
    requires Accepted(digest, es) && Where(es, ClaimOf, id) != []
    ensures ClaimExactly(es, CoverageOfClaim(id, Where(es, ClaimOf, id)))
  {
    hide EntryOk, Where, ClaimOf, Picked, PerIntent, Among, Missing, AllSelected, Total, Union, DuplicateRate, PapersOfHits, Counted,
      Rated, Summed, Broken, Lacks, Members;
    var scope := Scope(Some(id), None);
    PickedClaim(es, id);
    PickedNone(es, scope);
    PickedExactly(digest, es, scope);
    RowsExactly(digest, es, scope);
    forall i: RetrievalIntent ensures i in Missing(Among(INTENTS, IntentSet(Where(es, ClaimOf, id)))) <==> Lacks(es, id, i) {
      MissingExactly(es, id, i);
    }
  }

  lemma {:induction false} MissingClaimsMember(claims: seq<ClaimCoverage>, id: string)
    ensures id in MissingClaims(claims) <==> exists c :: c in claims && c.missing != [] && c.claimId == id
  {
    if claims != [] {
      var n := |claims| - 1;
      assert claims == claims[..n] + [claims[n]];
      MissingClaimsMember(claims[..n], id);
    }
  }

  lemma LackingClaim(es: seq<Executed>, c: ClaimCoverage)
    requires ClaimExactly(es, c)
    ensures c.missing != [] <==> LacksSome(es, c.claimId)
  {
    hide Counted, Rated, Summed, Broken, Lacks;
    if c.missing != [] {
      assert Lacks(es, c.claimId, c.missing[0]);
    }
    if LacksSome(es, c.claimId) {
      var i :| Lacks(es, c.claimId, i);
      assert i in c.missing;
    }
  }

  /** Every figure of a report is what it is said to count, claim by claim and over all queries, and the claims are those of
      the queries. */
  lemma ReportExactly(digest: Digest, es: seq<Executed>)
    requires es != [] && Accepted(digest, es)
    ensures var r := CoverageOf(es);
            && (forall c :: c in r.claims ==> ClaimExactly(es, c))
            && (forall id :: Reported(r.claims, id) <==> Queried(es, id))
            && AggregateExactly(es, r.aggregate)
  {
    hide EntryOk, ClaimOf, ClaimExactly, AggregateExactly, CoverageOfClaim, AggregateOf, StableSort, LexLeq, LexLess, ClaimsSeen, Where;
    var r := CoverageOf(es);
    var ids := StableSort(LexLeq, ClaimsSeen(es));
    ClaimOrder(es);
    SortSame(LexLeq, ClaimsSeen(es));
    forall k | 0 <= k < |ids| ensures ClaimExactly(es, r.claims[k]) && r.claims[k].claimId == ids[k] {
      assert ids[k] in ids;
      ClaimIsExact(digest, es, ids[k]);
      NameOfCoverage(ids[k], Where(es, ClaimOf, ids[k]));
    }
    forall id ensures id in ids <==> Queried(es, id) {
      if Queried(es, id) {
        var e :| e in es && ClaimOf(e) == id;
      }
    }
    forall id ensures Reported(r.claims, id) <==> id in ids {
      if id in ids {
        var k :| 0 <= k < |ids| && ids[k] == id;
        assert r.claims[k] in r.claims;
      }
    }
    AggregateIsExact(digest, es, ids, r.claims);
  }

  lemma {:induction false} DistinctSize<T(!new)>(xs: seq<T>)
    requires Distinct(xs)
    ensures |ToSet(xs)| == |xs|
  {
    if xs != [] {
      var n := |xs| - 1;
      assert xs == xs[..n] + [xs[n]] && xs[n] !in xs[..n];
      DistinctSize(xs[..n]);
      assert ToSet(xs) == ToSet(xs[..n]) + {xs[n]};
    }
  }

  lemma AggregateIsExact(digest: Digest, es: seq<Executed>, ids: seq<string>, claims: seq<ClaimCoverage>)
    requires Accepted(digest, es) && Distinct(ids) && |claims| == |ids|
    requires forall id :: id in ids <==> Queried(es, id)
    requires forall k :: 0 <= k < |ids| ==> ClaimExactly(es, claims[k]) && claims[k].claimId == ids[k]
    ensures AggregateExactly(es, AggregateOf(claims, es))
  {
    hide EntryOk, ClaimOf, ClaimExactly, Picked, PerIntent, AllSelected, Total, Union, DuplicateRate, PapersOfHits, Counted, Rated,
      Summed, Broken, LacksSome, MissingClaims, Distinct;
    var scope := Scope(None, None);
    PickedAll(es);
    PickedExactly(digest, es, scope);
    RowsExactly(digest, es, scope);
    DistinctSize(ids);
    assert (set e | e in es :: ClaimOf(e)) == ToSet(ids);
    var missing := MissingClaims(claims);
    forall id ensures id in missing <==> Queried(es, id) && LacksSome(es, id) {
      MissingClaimsMember(claims, id);
      if id in missing {
        var c :| c in claims && c.missing != [] && c.claimId == id;
        LackingClaim(es, c);
      }
      if id in ids && LacksSome(es, id) {
        var k :| 0 <= k < |ids| && ids[k] == id;
        LackingClaim(es, claims[k]);
      }
    }
  }
}
