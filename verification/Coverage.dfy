/** Retrieval coverage of executed queries, and the checks that a coverage report must pass
    (library/retrieval_coverage.py). */
module Coverage {
  import opened Basics
  import opened Ids
  import opened Lookup
  import opened Ordering
  import opened RetrievalHits
  import opened RetrievalLedger
  import opened Tallies

  const MAX_COVERAGE_ENTRIES: nat := 600

  /** `INTENT_COVERAGE_ORDER`; the first four are required. */
  const INTENTS: seq<RetrievalIntent> := [Support, Contradiction, Boundary, Alternative, MethodChallenge, NullResult]

  const REQUIRED: nat := 4

  /** An executed query; `terms` are its normalized query terms. */
  datatype Executed = Executed(queryId: string, text: string, terms: set<string>, intent: RetrievalIntent, ledger: Ledger)

  datatype IntentCoverage = IntentCoverage(intent: RetrievalIntent, queries: nat, selected: nat, papers: nat)

  datatype ClaimCoverage = ClaimCoverage(
    claimId: string, executed: seq<RetrievalIntent>, missing: seq<RetrievalIntent>, queries: nat, selected: nat, papers: nat,
    terminology: nat, perIntent: seq<IntentCoverage>, duplicateRate: real, invalid: nat, truncated: nat)

  datatype Aggregate = Aggregate(
    claims: nat, queries: nat, selected: nat, papers: nat, terminology: nat, perIntent: seq<IntentCoverage>,
    duplicateRate: real, invalid: nat, truncated: nat, missingClaims: seq<string>)

  datatype Report = Report(lockHash: string, generation: nat, claims: seq<ClaimCoverage>, aggregate: Aggregate)

  datatype CoverageError = NoEntries | TooManyEntries | RepeatedQuery | SeveralLocks | SeveralGenerations

  /** `ExecutedRetrievalQuery._entry_matches_ledger`. */
  ghost predicate EntryOk(digest: Digest, e: Executed) {
    && ParseQueryId(e.queryId).Some? && ParseQueryId(e.queryId).value.intent == e.intent
    && LedgerOk(e.ledger) && (forall h :: h in e.ledger.rawHits ==> HitOk(digest, h))
    && e.ledger.queryId == e.queryId && e.ledger.queryTextHash == digest(TextBytes(e.text))
  }

  // ---------------------------------------------------------------- what is counted

  function IntentOf(e: Executed): RetrievalIntent { e.intent }

  function ClaimOf(e: Executed): string {
    match ParseQueryId(e.queryId)
    case Some(key) => key.claimId
    case None => ""
  }

  function HitsWith(hits: seq<Hit>, keys: set<string>): (r: seq<Hit>)
    ensures forall h :: h in r <==> h in hits && h.key in keys
  {
    if hits == [] then []
    else
      assert hits == hits[..|hits| - 1] + [hits[|hits| - 1]];
      HitsWith(hits[..|hits| - 1], keys) + if hits[|hits| - 1].key in keys then [hits[|hits| - 1]] else []
  }

  /** `_selected_hits`. */
  function SelectedHits(l: Ledger): seq<Hit> {
    HitsWith(l.rawHits, ToSet(l.selectedKeys))
  }

  function AllSelected(es: seq<Executed>): seq<Hit> {
    if es == [] then [] else AllSelected(es[..|es| - 1]) + SelectedHits(es[|es| - 1].ledger)
  }

  function PapersOfHits(hits: seq<Hit>): set<string> {
    set h | h in hits :: h.paperId
  }

  function One(e: Executed): nat { 1 }
  function SelectedCount(e: Executed): nat { |SelectedHits(e.ledger)| }
  function InvalidOf(e: Executed): nat { e.ledger.invalidCandidates }
  function TruncatedOf(e: Executed): nat {
    e.ledger.textTruncatedValid + e.ledger.textTruncatedInvalid + e.ledger.graphTruncatedValid + e.ledger.graphTruncatedInvalid
  }
  function PapersOf(e: Executed): set<string> { PapersOfHits(SelectedHits(e.ledger)) }
  function TermsOf(e: Executed): set<set<string>> { {e.terms} }

  /** `_span_identity`; a selected candidate always has offsets (`SelectedLocated`). */
  function SpanIdentity(h: Hit): (string, nat, nat) {
    (h.paperId, h.start.GetOr(0), h.end.GetOr(0))
  }

  function SpanIdentities(hits: seq<Hit>): set<(string, nat, nat)> {
    set h | h in hits :: SpanIdentity(h)
  }

  /** `_duplicate_result_rate`. */
  function DuplicateRate(hits: seq<Hit>): real {
    if hits == [] then 0.0 else 1.0 - (|SpanIdentities(hits)| as real) / (|hits| as real)
  }

  function CoverageOfIntent(intent: RetrievalIntent, es: seq<Executed>): IntentCoverage {
    IntentCoverage(intent, |es|, |AllSelected(es)|, |PapersOfHits(AllSelected(es))|)
  }

  /** The coverage of every intent of `order` that some query has. */
  function PerIntent(order: seq<RetrievalIntent>, es: seq<Executed>): seq<IntentCoverage> {
    if order == [] then []
    else
      var i := order[|order| - 1];
      PerIntent(order[..|order| - 1], es)
      + if Where(es, IntentOf, i) != [] then [CoverageOfIntent(i, Where(es, IntentOf, i))] else []
  }

  function Among(order: seq<RetrievalIntent>, present: set<RetrievalIntent>): (r: seq<RetrievalIntent>)
    ensures forall i :: i in r <==> i in order && i in present
  {
    if order == [] then []
    else
      assert order == order[..|order| - 1] + [order[|order| - 1]];
      Among(order[..|order| - 1], present) + if order[|order| - 1] in present then [order[|order| - 1]] else []
  }

  function IntentSet(es: seq<Executed>): set<RetrievalIntent> {
    set e | e in es :: e.intent
  }

  /** The required intents that are not among `executed`. */
  function Missing(executed: seq<RetrievalIntent>): seq<RetrievalIntent> {
    Among(INTENTS[..REQUIRED], ToSet(INTENTS) - ToSet(executed))
  }

  /** `_claim_coverage`. */
  function CoverageOfClaim(claimId: string, es: seq<Executed>): ClaimCoverage {
    var executed := Among(INTENTS, IntentSet(es));
    ClaimCoverage(claimId, executed, Missing(executed), |es|, |AllSelected(es)|, |PapersOfHits(AllSelected(es))|,
                  |Union(es, TermsOf)|, PerIntent(INTENTS, es), DuplicateRate(AllSelected(es)), Total(es, InvalidOf),
                  Total(es, TruncatedOf))
  }

  function CoverageOfClaims(ids: seq<string>, entries: seq<Executed>): (r: seq<ClaimCoverage>)
    ensures |r| == |ids|
    ensures forall i :: 0 <= i < |r| ==> r[i] == CoverageOfClaim(ids[i], Where(entries, ClaimOf, ids[i]))
  {
    seq(|ids|, i requires 0 <= i < |ids| => CoverageOfClaim(ids[i], Where(entries, ClaimOf, ids[i])))
  }

  /** The claims of the entries in order of first occurrence: the keys of `by_claim`. */
  function ClaimsSeen(entries: seq<Executed>): (r: seq<string>)
    ensures forall e :: e in entries ==> ClaimOf(e) in r
    ensures forall id :: id in r ==> exists e :: e in entries && ClaimOf(e) == id
  {
    if entries == [] then []
    else
      var front, last := ClaimsSeen(entries[..|entries| - 1]), entries[|entries| - 1];
      assert entries == entries[..|entries| - 1] + [last];
      if ClaimOf(last) in front then front else front + [ClaimOf(last)]
  }

  function MissingClaims(claims: seq<ClaimCoverage>): seq<string> {
    if claims == [] then []
    else MissingClaims(claims[..|claims| - 1]) + if claims[|claims| - 1].missing != [] then [claims[|claims| - 1].claimId] else []
  }

  function AggregateOf(claims: seq<ClaimCoverage>, entries: seq<Executed>): Aggregate {
    Aggregate(|claims|, |entries|, |AllSelected(entries)|, |PapersOfHits(AllSelected(entries))|, |Union(entries, TermsOf)|,
              PerIntent(INTENTS, entries), DuplicateRate(AllSelected(entries)), Total(entries, InvalidOf),
              Total(entries, TruncatedOf), MissingClaims(claims))
  }

  /** `compute_retrieval_coverage`, for entries that pass its first checks. */
  function CoverageOf(entries: seq<Executed>): Report
    requires entries != []
  {
    var claims := CoverageOfClaims(StableSort(LexLeq, ClaimsSeen(entries)), entries);
    Report(entries[0].ledger.corpusLockHash, entries[0].ledger.sourceGeneration, claims, AggregateOf(claims, entries))
  }

  // ---------------------------------------------------------------- the checks on a report

  function CoveredIntent(x: IntentCoverage): RetrievalIntent { x.intent }
  function QueriesIn(x: IntentCoverage): nat { x.queries }
  function SelectedIn(x: IntentCoverage): nat { x.selected }
  function PapersIn(x: IntentCoverage): nat { x.papers }

  function IntentsIn(xs: seq<IntentCoverage>): (r: seq<RetrievalIntent>)
    ensures |r| == |xs| && forall i :: 0 <= i < |r| ==> r[i] == xs[i].intent
  {
    seq(|xs|, i requires 0 <= i < |xs| => xs[i].intent)
  }

  /** A distinct count lies between the largest of its parts and their sum. */
  predicate PapersBetween(parts: seq<IntentCoverage>, papers: nat) {
    (forall x :: x in parts ==> x.papers <= papers) && papers <= Total(parts, PapersIn)
  }

  /** `ClaimRetrievalCoverage._claim_coverage_is_consistent` and the bounds on its fields. */
  predicate ClaimCoverageOk(c: ClaimCoverage) {
    && c.executed != [] && c.queries >= 1 && c.terminology >= 1 && c.perIntent != [] && 0.0 <= c.duplicateRate <= 1.0
    && (forall x :: x in c.perIntent ==> x.queries >= 1)
    && c.executed == Among(INTENTS, ToSet(c.executed)) && c.missing == Missing(c.executed)
    && IntentsIn(c.perIntent) == c.executed
    && c.queries == Total(c.perIntent, QueriesIn) && c.selected == Total(c.perIntent, SelectedIn)
    && PapersBetween(c.perIntent, c.papers) && c.terminology <= c.queries
  }

  function ClaimQueries(c: ClaimCoverage): nat { c.queries }
  function ClaimSelected(c: ClaimCoverage): nat { c.selected }
  function ClaimPapers(c: ClaimCoverage): nat { c.papers }
  function ClaimTerminology(c: ClaimCoverage): nat { c.terminology }
  function ClaimInvalid(c: ClaimCoverage): nat { c.invalid }
  function ClaimTruncated(c: ClaimCoverage): nat { c.truncated }

  /** What the claims say about one intent. */
  function Parts(claims: seq<ClaimCoverage>, i: RetrievalIntent): seq<IntentCoverage> {
    if claims == [] then []
    else Parts(claims[..|claims| - 1], i) + Where(claims[|claims| - 1].perIntent, CoveredIntent, i)
  }

  predicate IntentAgrees(claims: seq<ClaimCoverage>, aggregate: seq<IntentCoverage>, i: RetrievalIntent) {
    var parts := Parts(claims, i);
    && (i in IntentsIn(aggregate) <==> parts != [])
    && forall x :: x in aggregate && x.intent == i ==>
         x.queries == Total(parts, QueriesIn) && x.selected == Total(parts, SelectedIn) && PapersBetween(parts, x.papers)
  }

  predicate ClaimsBetween(claims: seq<ClaimCoverage>, field: ClaimCoverage -> nat, value: nat) {
    (forall c :: c in claims ==> field(c) <= value) && value <= Total(claims, field)
  }

  ghost predicate ClaimsSorted(claims: seq<ClaimCoverage>) {
    forall i, j :: 0 <= i < j < |claims| ==> LexLess(claims[i].claimId, claims[j].claimId)
  }

  ghost predicate TotalsAgree(claims: seq<ClaimCoverage>, a: Aggregate) {
    && a.claims == |claims|
    && a.queries == Total(claims, ClaimQueries) && a.selected == Total(claims, ClaimSelected)
    && a.invalid == Total(claims, ClaimInvalid) && a.truncated == Total(claims, ClaimTruncated)
    && ClaimsBetween(claims, ClaimPapers, a.papers) && ClaimsBetween(claims, ClaimTerminology, a.terminology)
    && 1 <= a.terminology <= a.queries && 0.0 <= a.duplicateRate <= 1.0
  }

  ghost predicate IntentsAgree(claims: seq<ClaimCoverage>, perIntent: seq<IntentCoverage>) {
    && IntentsIn(perIntent) == Among(INTENTS, ToSet(IntentsIn(perIntent)))
    && forall i :: i in INTENTS ==> IntentAgrees(claims, perIntent, i)
  }

  /** `RetrievalCoverageReport._report_is_consistent` and the bounds on its fields. */
  ghost predicate ReportOk(r: Report) {
    && r.claims != [] && ClaimsSorted(r.claims) && TotalsAgree(r.claims, r.aggregate)
    && r.aggregate.missingClaims == MissingClaims(r.claims) && IntentsAgree(r.claims, r.aggregate.perIntent)
  }

  // ---------------------------------------------------------------- counting hits entry by entry

  lemma {:induction false} SelectedTotals(es: seq<Executed>)
    ensures |AllSelected(es)| == Total(es, SelectedCount)
    ensures PapersOfHits(AllSelected(es)) == Union(es, PapersOf)
  {
    if es != [] {
      var n := |es| - 1;
      SelectedTotals(es[..n]);
      var a, b := AllSelected(es[..n]), SelectedHits(es[n].ledger);
      assert PapersOfHits(a + b) == PapersOfHits(a) + PapersOfHits(b);
    }
  }

  lemma {:induction false} CountTotal(es: seq<Executed>)
    ensures Total(es, One) == |es|
  {
    if es != [] {
      CountTotal(es[..|es| - 1]);
    }
  }

  lemma {:induction false} IdentitiesBound(hits: seq<Hit>)
    ensures |SpanIdentities(hits)| <= |hits|
  {
    if hits != [] {
      var n := |hits| - 1;
      assert hits == hits[..n] + [hits[n]];
      IdentitiesBound(hits[..n]);
      assert SpanIdentities(hits) == SpanIdentities(hits[..n]) + {SpanIdentity(hits[n])};
    }
  }

  lemma RateBounded(hits: seq<Hit>)
    ensures 0.0 <= DuplicateRate(hits) <= 1.0
  {
    if hits != [] {
      IdentitiesBound(hits);
      var a, b := |SpanIdentities(hits)| as real, |hits| as real;
      assert 0.0 <= a <= b && b > 0.0;
      assert a / b <= 1.0 && a / b >= 0.0;
    }
  }

  /** A selected candidate of an accepted ledger has offsets. */
  lemma SelectedLocated(digest: Digest, e: Executed, h: Hit)
    requires EntryOk(digest, e) && h in SelectedHits(e.ledger)
    ensures h.start.Some? && h.end.Some?
  {
    hide HitOk, LedgerOk, HitsWith, ParseQueryId;
    SelectedAreValid(e.ledger, h);
    ValidHasOffsets(digest, h);
  }

  lemma SelectedAreValid(l: Ledger, h: Hit)
    requires LedgerOk(l) && h in SelectedHits(l)
    ensures h in l.rawHits && h.isValid
  {
    hide CountsOk, OrderOk, FieldBounds, HitsOf;
    var valid := HitsOf(l.rawHits, true);
    assert h.key in ToSet(Keys(valid));
    var i :| 0 <= i < |valid| && Keys(valid)[i] == h.key;
    HitsOfMembers(l.rawHits, true);
    assert valid[i] in valid;
    var j :| 0 <= j < |l.rawHits| && l.rawHits[j] == valid[i];
    var k :| 0 <= k < |l.rawHits| && l.rawHits[k] == h;
    assert Keys(l.rawHits)[j] == Keys(l.rawHits)[k];
  }

  lemma ValidHasOffsets(digest: Digest, h: Hit)
    requires HitOk(digest, h) && h.isValid
    ensures h.start.Some? && h.end.Some?
  {
  }

  // ---------------------------------------------------------------- one claim

  lemma EveryIntent(i: RetrievalIntent)
    ensures i in INTENTS && Distinct(INTENTS)
  {
    var k := match i case Support => 0 case Contradiction => 1 case Boundary => 2 case Alternative => 3
                    case MethodChallenge => 4 case NullResult => 5;
    assert INTENTS[k] == i;
  }

  lemma IntentFields(i: RetrievalIntent, es: seq<Executed>)
    ensures var x := CoverageOfIntent(i, es);
            x.queries == Total(es, One) && x.selected == Total(es, SelectedCount) && x.papers == |Union(es, PapersOf)|
  {
    CountTotal(es);
    SelectedTotals(es);
  }

  lemma TotalsOfNone()
    ensures Total<Executed>([], One) == 0 && Total<Executed>([], SelectedCount) == 0 && |Union<Executed, string>([], PapersOf)| == 0
  {
  }

  /** What one more intent adds to the per-intent coverage. */
  lemma PerIntentStep(order: seq<RetrievalIntent>, es: seq<Executed>)
    requires order != []
    ensures var n := |order| - 1;
            var front, group := PerIntent(order[..n], es), Where(es, IntentOf, order[n]);
            && PerIntent(order, es) == front + (if group != [] then [CoverageOfIntent(order[n], group)] else [])
            && Total(PerIntent(order, es), QueriesIn) == Total(front, QueriesIn) + Total(group, One)
            && Total(PerIntent(order, es), SelectedIn) == Total(front, SelectedIn) + Total(group, SelectedCount)
            && Total(PerIntent(order, es), PapersIn) == Total(front, PapersIn) + |Union(group, PapersOf)|
  {
    hide Total, Union, Where, CoverageOfIntent;
    var n := |order| - 1;
    var front, group := PerIntent(order[..n], es), Where(es, IntentOf, order[n]);
    if group != [] {
      var x := CoverageOfIntent(order[n], group);
      IntentFields(order[n], group);
      TotalSnoc(front, x, QueriesIn);
      TotalSnoc(front, x, SelectedIn);
      TotalSnoc(front, x, PapersIn);
    } else {
      TotalsOfNone();
      assert front + [] == front;
    }
  }

  lemma {:induction false} PerIntentTotals(order: seq<RetrievalIntent>, es: seq<Executed>)
    ensures Total(PerIntent(order, es), QueriesIn) == TotalBy(es, IntentOf, order, One)
    ensures Total(PerIntent(order, es), SelectedIn) == TotalBy(es, IntentOf, order, SelectedCount)
    ensures Total(PerIntent(order, es), PapersIn) == SizesBy(es, IntentOf, order, PapersOf)
  {
    hide Union, Where, CoverageOfIntent, PerIntent, Total;
    if order == [] {
      PerIntentNone(es);
    } else {
      PerIntentTotals(order[..|order| - 1], es);
      PerIntentStep(order, es);
    }
  }

  lemma PerIntentNone(es: seq<Executed>)
    ensures PerIntent([], es) == []
    ensures Total<IntentCoverage>([], QueriesIn) == Total<IntentCoverage>([], SelectedIn) == Total<IntentCoverage>([], PapersIn) == 0
  {
  }

  lemma {:induction false} PerIntentOrder(order: seq<RetrievalIntent>, es: seq<Executed>)
    ensures IntentsIn(PerIntent(order, es)) == Among(order, IntentSet(es))
  {
    if order != [] {
      var n := |order| - 1;
      PerIntentOrder(order[..n], es);
      GroupPresent(es, order[n]);
      var front := PerIntent(order[..n], es);
      assert IntentsIn(front + [CoverageOfIntent(order[n], Where(es, IntentOf, order[n]))]) == IntentsIn(front) + [order[n]];
      assert front + [] == front;
    }
  }

  lemma GroupPresent(es: seq<Executed>, i: RetrievalIntent)
    ensures Where(es, IntentOf, i) != [] <==> i in IntentSet(es)
  {
    if i in IntentSet(es) {
      var e :| e in es && e.intent == i;
      assert e in Where(es, IntentOf, i);
    }
    if Where(es, IntentOf, i) != [] {
      assert Where(es, IntentOf, i)[0] in es;
    }
  }

  lemma {:induction false} PerIntentMember(order: seq<RetrievalIntent>, es: seq<Executed>, x: IntentCoverage)
    requires x in PerIntent(order, es)
    ensures Where(es, IntentOf, x.intent) != [] && x == CoverageOfIntent(x.intent, Where(es, IntentOf, x.intent))
  {
    var n := |order| - 1;
    if x in PerIntent(order[..n], es) {
      PerIntentMember(order[..n], es, x);
    }
  }

  lemma {:induction false} AmongSame(order: seq<RetrievalIntent>, a: set<RetrievalIntent>, b: set<RetrievalIntent>)
    requires forall i :: i in order ==> (i in a <==> i in b)
    ensures Among(order, a) == Among(order, b)
  {
    if order != [] {
      assert order == order[..|order| - 1] + [order[|order| - 1]];
      AmongSame(order[..|order| - 1], a, b);
    }
  }

  /** Every distinct-paper count of a group is within the count of the whole list, and together they reach it. */
  lemma IntentPapersBetween(es: seq<Executed>)
    ensures PapersBetween(PerIntent(INTENTS, es), |PapersOfHits(AllSelected(es))|)
  {
    hide PerIntent, Union, CoverageOfIntent, Total;
    SelectedTotals(es);
    PerIntentTotals(INTENTS, es);
    forall e | e in es ensures IntentOf(e) in INTENTS {
      EveryIntent(e.intent);
    }
    GroupsBound(es, IntentOf, INTENTS, PapersOf);
    forall x | x in PerIntent(INTENTS, es) ensures x.papers <= |PapersOfHits(AllSelected(es))| {
      PerIntentMember(INTENTS, es, x);
      var group := Where(es, IntentOf, x.intent);
      IntentFields(x.intent, group);
      GroupWithin(group, es, PapersOf);
    }
  }

  lemma IntentCountsAdd(es: seq<Executed>)
    ensures |es| == Total(PerIntent(INTENTS, es), QueriesIn)
    ensures |AllSelected(es)| == Total(PerIntent(INTENTS, es), SelectedIn)
  {
    hide PerIntent, Total, TotalBy;
    SelectedTotals(es);
    CountTotal(es);
    PerIntentTotals(INTENTS, es);
    EveryIntent(Support);
    forall e | e in es ensures IntentOf(e) in INTENTS {
      EveryIntent(e.intent);
    }
    GroupsSum(es, IntentOf, INTENTS, One);
    GroupsSum(es, IntentOf, INTENTS, SelectedCount);
  }

  lemma TerminologyBounded(es: seq<Executed>)
    ensures |Union(es, TermsOf)| <= |es|
    ensures es != [] ==> |Union(es, TermsOf)| >= 1
  {
    SingletonsBound(es, TermsOf);
    if es != [] {
      assert TermsOf(es[0]) <= Union(es, TermsOf);
      CardSubset({es[0].terms}, Union(es, TermsOf));
    }
  }

  /** The coverage computed for a claim always passes its own checks. */
  lemma ClaimCoverageAlwaysOk(claimId: string, es: seq<Executed>)
    requires es != []
    ensures ClaimCoverageOk(CoverageOfClaim(claimId, es))
  {
    hide PerIntent, Total, Union, PapersBetween, DuplicateRate, Missing, PapersOfHits, AllSelected, Among;
    var c := CoverageOfClaim(claimId, es);
    IntentCountsAdd(es);
    IntentPapersBetween(es);
    TerminologyBounded(es);
    RateBounded(AllSelected(es));
    PerIntentOrder(INTENTS, es);
    EveryIntent(es[0].intent);
    assert es[0].intent in IntentSet(es);
    assert es[0].intent in c.executed;
    AmongSame(INTENTS, IntentSet(es), ToSet(c.executed));
    forall x | x in c.perIntent ensures x.queries >= 1 {
      PerIntentMember(INTENTS, es, x);
    }
    assert |IntentsIn(c.perIntent)| == |c.perIntent|;
  }

  // ---------------------------------------------------------------- one intent over all claims

  /** What one claim says about one intent. */
  lemma {:induction false} PerIntentPart(order: seq<RetrievalIntent>, es: seq<Executed>, i: RetrievalIntent)
    requires Distinct(order)
    ensures Where(PerIntent(order, es), CoveredIntent, i)
         == if i in order && Where(es, IntentOf, i) != [] then [CoverageOfIntent(i, Where(es, IntentOf, i))] else []
  {
    if order != [] {
      var n := |order| - 1;
      assert order == order[..n] + [order[n]] && order[n] !in order[..n];
      PerIntentPart(order[..n], es, i);
      hide Where;
      var front, group := PerIntent(order[..n], es), Where(es, IntentOf, order[n]);
      if group != [] {
        WhereSnoc(front, CoverageOfIntent(order[n], group), CoveredIntent, i);
        assert Where(front, CoveredIntent, i) + [] == Where(front, CoveredIntent, i);
      } else {
        assert front + [] == front;
      }
    }
  }

  /** The queries of one claim with one intent, in either order of grouping. */
  ghost function Cell(entries: seq<Executed>, id: string, i: RetrievalIntent): seq<Executed> {
    Where(Where(entries, IntentOf, i), ClaimOf, id)
  }

  lemma ClaimPart(entries: seq<Executed>, id: string, i: RetrievalIntent)
    ensures var part := Where(CoverageOfClaim(id, Where(entries, ClaimOf, id)).perIntent, CoveredIntent, i);
            part == if Cell(entries, id, i) != [] then [CoverageOfIntent(i, Cell(entries, id, i))] else []
  {
    hide Where, PerIntent, CoverageOfIntent;
    EveryIntent(i);
    PerIntentPart(INTENTS, Where(entries, ClaimOf, id), i);
    WhereCommutes(entries, ClaimOf, id, IntentOf, i);
  }

  lemma PartsStep(ids: seq<string>, entries: seq<Executed>, i: RetrievalIntent)
    requires ids != []
    ensures var n := |ids| - 1;
            var front, cell := Parts(CoverageOfClaims(ids[..n], entries), i), Cell(entries, ids[n], i);
            Parts(CoverageOfClaims(ids, entries), i) == front + if cell != [] then [CoverageOfIntent(i, cell)] else []
  {
    hide Where, CoverageOfClaim, CoverageOfIntent, Cell;
    var n := |ids| - 1;
    var claims := CoverageOfClaims(ids, entries);
    assert claims[..n] == CoverageOfClaims(ids[..n], entries);
    ClaimPart(entries, ids[n], i);
  }

  lemma {:induction false} PartsTotals(ids: seq<string>, entries: seq<Executed>, i: RetrievalIntent)
    ensures var parts, group := Parts(CoverageOfClaims(ids, entries), i), Where(entries, IntentOf, i);
            && Total(parts, QueriesIn) == TotalBy(group, ClaimOf, ids, One)
            && Total(parts, SelectedIn) == TotalBy(group, ClaimOf, ids, SelectedCount)
            && Total(parts, PapersIn) == SizesBy(group, ClaimOf, ids, PapersOf)
  {
    hide Where, CoverageOfClaim, CoverageOfIntent, Union;
    if ids != [] {
      var n := |ids| - 1;
      PartsTotals(ids[..n], entries, i);
      hide Parts, Total;
      PartsStep(ids, entries, i);
      var front, cell := Parts(CoverageOfClaims(ids[..n], entries), i), Cell(entries, ids[n], i);
      if cell != [] {
        var x := CoverageOfIntent(i, cell);
        IntentFields(i, cell);
        TotalSnoc(front, x, QueriesIn);
        TotalSnoc(front, x, SelectedIn);
        TotalSnoc(front, x, PapersIn);
      } else {
        TotalsOfNone();
        assert front + [] == front;
      }
    }
  }

  lemma {:induction false} PartsMember(ids: seq<string>, entries: seq<Executed>, i: RetrievalIntent, x: IntentCoverage)
    requires x in Parts(CoverageOfClaims(ids, entries), i)
    ensures exists id :: id in ids && Cell(entries, id, i) != [] && x == CoverageOfIntent(i, Cell(entries, id, i))
  {
    hide CoverageOfClaim, CoverageOfIntent, Cell;
    if ids != [] {
      var n := |ids| - 1;
      PartsStep(ids, entries, i);
      if x in Parts(CoverageOfClaims(ids[..n], entries), i) {
        PartsMember(ids[..n], entries, i, x);
      }
    }
  }

  lemma {:induction false} PartsReach(ids: seq<string>, entries: seq<Executed>, i: RetrievalIntent, id: string)
    requires id in ids && Cell(entries, id, i) != []
    ensures Parts(CoverageOfClaims(ids, entries), i) != []
  {
    hide CoverageOfClaim, CoverageOfIntent, Cell, Parts;
    var n := |ids| - 1;
    PartsStep(ids, entries, i);
    if id != ids[n] {
      assert ids == ids[..n] + [ids[n]];
      PartsReach(ids[..n], entries, i, id);
    }
  }

  /** The claims mention an intent exactly when some query has it. */
  lemma PartsPresent(ids: seq<string>, entries: seq<Executed>, i: RetrievalIntent)
    requires forall e :: e in entries ==> ClaimOf(e) in ids
    ensures Parts(CoverageOfClaims(ids, entries), i) != [] <==> i in IntentSet(entries)
  {
    hide CoverageOfClaim, CoverageOfIntent, Parts, ClaimOf;
    var parts := Parts(CoverageOfClaims(ids, entries), i);
    if parts != [] {
      PartsMember(ids, entries, i, parts[0]);
      var id :| id in ids && Cell(entries, id, i) != [];
      assert Cell(entries, id, i)[0] in Where(entries, IntentOf, i);
    }
    if i in IntentSet(entries) {
      var e :| e in entries && e.intent == i;
      assert e in Where(entries, IntentOf, i) && e in Cell(entries, ClaimOf(e), i);
      PartsReach(ids, entries, i, ClaimOf(e));
    }
  }

  lemma PartsBetween(ids: seq<string>, entries: seq<Executed>, i: RetrievalIntent)
    requires Distinct(ids) && forall e :: e in entries ==> ClaimOf(e) in ids
    ensures var parts, x := Parts(CoverageOfClaims(ids, entries), i), CoverageOfIntent(i, Where(entries, IntentOf, i));
            && x.queries == Total(parts, QueriesIn) && x.selected == Total(parts, SelectedIn) && PapersBetween(parts, x.papers)
  {
    hide CoverageOfClaim, CoverageOfIntent, Parts, ClaimOf, Total, TotalBy, SizesBy, Union;
    var parts, group := Parts(CoverageOfClaims(ids, entries), i), Where(entries, IntentOf, i);
    IntentFields(i, group);
    PartsTotals(ids, entries, i);
    GroupsSum(group, ClaimOf, ids, One);
    GroupsSum(group, ClaimOf, ids, SelectedCount);
    GroupsBound(group, ClaimOf, ids, PapersOf);
    forall x | x in parts ensures x.papers <= |Union(group, PapersOf)| {
      PartsMember(ids, entries, i, x);
      var id :| id in ids && Cell(entries, id, i) != [] && x == CoverageOfIntent(i, Cell(entries, id, i));
      IntentFields(i, Cell(entries, id, i));
      GroupWithin(Cell(entries, id, i), group, PapersOf);
    }
  }

  lemma AggregateIntentAgrees(ids: seq<string>, entries: seq<Executed>, i: RetrievalIntent)
    requires Distinct(ids) && forall e :: e in entries ==> ClaimOf(e) in ids
    ensures IntentAgrees(CoverageOfClaims(ids, entries), PerIntent(INTENTS, entries), i)
  {
    hide CoverageOfClaim, CoverageOfIntent, Parts, ClaimOf, Total, PerIntent, PapersBetween, Distinct;
    PartsPresent(ids, entries, i);
    PerIntentOrder(INTENTS, entries);
    EveryIntent(i);
    PartsBetween(ids, entries, i);
    forall x | x in PerIntent(INTENTS, entries) && x.intent == i ensures x == CoverageOfIntent(i, Where(entries, IntentOf, i)) {
      PerIntentMember(INTENTS, entries, x);
    }
  }

  // ---------------------------------------------------------------- all claims

  /** A field of the claims that is a total over each claim's queries. */
  lemma {:induction false} ClaimTotals(ids: seq<string>, entries: seq<Executed>, field: ClaimCoverage -> nat, w: Executed -> nat)
    requires forall id :: id in ids ==>
               field(CoverageOfClaim(id, Where(entries, ClaimOf, id))) == Total(Where(entries, ClaimOf, id), w)
    ensures Total(CoverageOfClaims(ids, entries), field) == TotalBy(entries, ClaimOf, ids, w)
  {
    hide CoverageOfClaim, Where, ClaimOf;
    if ids != [] {
      var n := |ids| - 1;
      ClaimTotals(ids[..n], entries, field, w);
      assert CoverageOfClaims(ids, entries)[..n] == CoverageOfClaims(ids[..n], entries);
    }
  }

  lemma {:induction false} ClaimSizes<U(!new)>(ids: seq<string>, entries: seq<Executed>, field: ClaimCoverage -> nat,
                                               f: Executed -> set<U>)
    requires forall id :: id in ids ==>
               field(CoverageOfClaim(id, Where(entries, ClaimOf, id))) == |Union(Where(entries, ClaimOf, id), f)|
    ensures Total(CoverageOfClaims(ids, entries), field) == SizesBy(entries, ClaimOf, ids, f)
  {
    hide CoverageOfClaim, Where, ClaimOf, Union;
    if ids != [] {
      var n := |ids| - 1;
      ClaimSizes(ids[..n], entries, field, f);
      assert CoverageOfClaims(ids, entries)[..n] == CoverageOfClaims(ids[..n], entries);
    }
  }

  lemma ClaimFields(id: string, es: seq<Executed>)
    ensures var c := CoverageOfClaim(id, es);
            && ClaimQueries(c) == Total(es, One) && ClaimSelected(c) == Total(es, SelectedCount)
            && ClaimInvalid(c) == Total(es, InvalidOf) && ClaimTruncated(c) == Total(es, TruncatedOf)
            && ClaimPapers(c) == |Union(es, PapersOf)| && ClaimTerminology(c) == |Union(es, TermsOf)|
  {
    hide Total, Union, PerIntent, Missing, Among, DuplicateRate;
    CountTotal(es);
    SelectedTotals(es);
  }

  lemma ClaimsBetweenHolds<U(!new)>(ids: seq<string>, entries: seq<Executed>, field: ClaimCoverage -> nat, f: Executed -> set<U>)
    requires forall e :: e in entries ==> ClaimOf(e) in ids
    requires forall id :: id in ids ==>
               field(CoverageOfClaim(id, Where(entries, ClaimOf, id))) == |Union(Where(entries, ClaimOf, id), f)|
    ensures ClaimsBetween(CoverageOfClaims(ids, entries), field, |Union(entries, f)|)
  {
    hide CoverageOfClaim, CoverageOfClaims, ClaimOf, Union, Total, SizesBy, Where;
    ClaimSizes(ids, entries, field, f);
    GroupsBound(entries, ClaimOf, ids, f);
    var claims := CoverageOfClaims(ids, entries);
    forall c | c in claims ensures field(c) <= |Union(entries, f)| {
      var i :| 0 <= i < |claims| && claims[i] == c;
      assert ids[i] in ids;
      ClaimWithin(entries, ids[i], f);
    }
  }

  lemma ClaimWithin<U(!new)>(entries: seq<Executed>, id: string, f: Executed -> set<U>)
    ensures |Union(Where(entries, ClaimOf, id), f)| <= |Union(entries, f)|
  {
    hide ClaimOf, Union, Where;
    GroupWithin(Where(entries, ClaimOf, id), entries, f);
  }

  lemma ClaimSums(ids: seq<string>, entries: seq<Executed>)
    requires Distinct(ids) && forall e :: e in entries ==> ClaimOf(e) in ids
    ensures var claims := CoverageOfClaims(ids, entries);
            && |entries| == Total(claims, ClaimQueries) && |AllSelected(entries)| == Total(claims, ClaimSelected)
            && Total(entries, InvalidOf) == Total(claims, ClaimInvalid)
            && Total(entries, TruncatedOf) == Total(claims, ClaimTruncated)
  {
    hide CoverageOfClaim, ClaimOf, Total, TotalBy, Where, ClaimQueries, ClaimSelected, ClaimInvalid, ClaimTruncated;
    CountTotal(entries);
    SelectedTotals(entries);
    forall id | id in ids
      ensures var c, es := CoverageOfClaim(id, Where(entries, ClaimOf, id)), Where(entries, ClaimOf, id);
              && ClaimQueries(c) == Total(es, One) && ClaimSelected(c) == Total(es, SelectedCount)
              && ClaimInvalid(c) == Total(es, InvalidOf) && ClaimTruncated(c) == Total(es, TruncatedOf)
    {
      ClaimFields(id, Where(entries, ClaimOf, id));
    }
    ClaimTotals(ids, entries, ClaimQueries, One);
    ClaimTotals(ids, entries, ClaimSelected, SelectedCount);
    ClaimTotals(ids, entries, ClaimInvalid, InvalidOf);
    ClaimTotals(ids, entries, ClaimTruncated, TruncatedOf);
    GroupsSum(entries, ClaimOf, ids, One);
    GroupsSum(entries, ClaimOf, ids, SelectedCount);
    GroupsSum(entries, ClaimOf, ids, InvalidOf);
    GroupsSum(entries, ClaimOf, ids, TruncatedOf);
  }

  lemma ClaimCounts(ids: seq<string>, entries: seq<Executed>)
    requires forall e :: e in entries ==> ClaimOf(e) in ids
    ensures var claims := CoverageOfClaims(ids, entries);
            && ClaimsBetween(claims, ClaimPapers, |PapersOfHits(AllSelected(entries))|)
            && ClaimsBetween(claims, ClaimTerminology, |Union(entries, TermsOf)|)
  {
    hide CoverageOfClaim, ClaimOf, Total, Where, ClaimPapers, ClaimTerminology, ClaimsBetween, Union, AllSelected, PapersOfHits;
    SelectedTotals(entries);
    forall id | id in ids
      ensures var c, es := CoverageOfClaim(id, Where(entries, ClaimOf, id)), Where(entries, ClaimOf, id);
              ClaimPapers(c) == |Union(es, PapersOf)| && ClaimTerminology(c) == |Union(es, TermsOf)|
    {
      ClaimFields(id, Where(entries, ClaimOf, id));
    }
    ClaimsBetweenHolds(ids, entries, ClaimPapers, PapersOf);
    ClaimsBetweenHolds(ids, entries, ClaimTerminology, TermsOf);
  }

  lemma {:induction false} ClaimsSeenDistinct(entries: seq<Executed>)
    ensures Distinct(ClaimsSeen(entries))
  {
    if entries != [] {
      ClaimsSeenDistinct(entries[..|entries| - 1]);
    }
  }

  lemma LexIsTotal()
    ensures IsTotalPreorder(LexLeq)
  {
    forall a: string, b: string ensures LexLeq(a, b) || LexLeq(b, a) {
      LexTotal(a, b);
    }
    forall a: string, b: string, c: string | LexLeq(a, b) && LexLeq(b, c) ensures LexLeq(a, c) {
      LexTransitive(a, b, c);
    }
  }

  /** The claims of a report come in strictly ascending order and cover every query. */
  lemma ClaimOrder(entries: seq<Executed>)
    ensures var ids := StableSort(LexLeq, ClaimsSeen(entries));
            && Distinct(ids) && (forall e :: e in entries ==> ClaimOf(e) in ids)
            && (forall i, j :: 0 <= i < j < |ids| ==> LexLess(ids[i], ids[j]))
            && (forall id :: id in ids ==> Where(entries, ClaimOf, id) != [])
            && (entries != [] ==> ids != [])
  {
    hide LexLeq, ClaimOf, Where;
    ClaimsSeenDistinct(entries);
    var seen := ClaimsSeen(entries);
    LexIsTotal();
    SortSorted(LexLeq, seen);
    SortDistinct(LexLeq, seen);
    SortSame(LexLeq, seen);
    forall id | id in seen ensures Where(entries, ClaimOf, id) != [] {
      var e :| e in entries && ClaimOf(e) == id;
      assert e in Where(entries, ClaimOf, id);
    }
    if entries != [] {
      assert ClaimOf(entries[0]) in seen;
    }
  }

  lemma AggregateIntentsOrdered(entries: seq<Executed>)
    ensures var intents := IntentsIn(PerIntent(INTENTS, entries)); intents == Among(INTENTS, ToSet(intents))
  {
    hide PerIntent;
    PerIntentOrder(INTENTS, entries);
    AmongSame(INTENTS, IntentSet(entries), ToSet(Among(INTENTS, IntentSet(entries))));
  }

  lemma TotalsOfClaims(ids: seq<string>, entries: seq<Executed>)
    requires Distinct(ids) && (forall e :: e in entries ==> ClaimOf(e) in ids) && entries != []
    ensures var claims := CoverageOfClaims(ids, entries); TotalsAgree(claims, AggregateOf(claims, entries))
  {
    hide CoverageOfClaim, ClaimOf, Total, ClaimsBetween, Union, MissingClaims, DuplicateRate, Where, AllSelected, PapersOfHits,
      PerIntent, CoverageOfClaims;
    ClaimSums(ids, entries);
    ClaimCounts(ids, entries);
    TerminologyBounded(entries);
    RateBounded(AllSelected(entries));
  }

  lemma AggregateTotals(entries: seq<Executed>)
    requires entries != []
    ensures TotalsAgree(CoverageOf(entries).claims, CoverageOf(entries).aggregate)
  {
    hide CoverageOfClaims, ClaimOf, StableSort, LexLeq, LexLess, Where, ClaimsSeen, AggregateOf, TotalsAgree, Distinct;
    ClaimOrder(entries);
    TotalsOfClaims(StableSort(LexLeq, ClaimsSeen(entries)), entries);
  }

  lemma AggregateIntents(entries: seq<Executed>)
    requires entries != []
    ensures IntentsAgree(CoverageOf(entries).claims, CoverageOf(entries).aggregate.perIntent)
  {
    hide CoverageOfClaim, ClaimOf, Total, Union, IntentAgrees, StableSort, LexLeq, LexLess, MissingClaims, DuplicateRate, Where,
      AllSelected, PapersOfHits, PerIntent, Among, ClaimsSeen;
    var ids := StableSort(LexLeq, ClaimsSeen(entries));
    ClaimOrder(entries);
    AggregateIntentsOrdered(entries);
    forall i | i in INTENTS ensures IntentAgrees(CoverageOf(entries).claims, CoverageOf(entries).aggregate.perIntent, i) {
      AggregateIntentAgrees(ids, entries, i);
    }
  }

  /** Whatever queries were executed, the report about them passes every check on itself and on its claims. */
  lemma ReportAlwaysOk(entries: seq<Executed>)
    requires entries != []
    ensures ReportOk(CoverageOf(entries))
    ensures forall c :: c in CoverageOf(entries).claims ==> ClaimCoverageOk(c)
  {
    hide TotalsAgree, IntentsAgree, ClaimsSorted, MissingClaims, ClaimCoverageOk, CoverageOfClaims, StableSort, ClaimsSeen, Total,
      Union, PerIntent, DuplicateRate, AllSelected, PapersOfHits;
    ClaimsOfReport(entries);
    AggregateTotals(entries);
    AggregateIntents(entries);
  }

  lemma ClaimsOfReport(entries: seq<Executed>)
    requires entries != []
    ensures var claims := CoverageOf(entries).claims;
            claims != [] && ClaimsSorted(claims) && forall c :: c in claims ==> ClaimCoverageOk(c)
  {
    hide CoverageOfClaim, ClaimOf, StableSort, LexLeq, LexLess, ClaimCoverageOk, Where, ClaimsSeen, AggregateOf, CoverageOfClaims;
    var ids := StableSort(LexLeq, ClaimsSeen(entries));
    var claims := CoverageOf(entries).claims;
    ClaimOrder(entries);
    forall k | 0 <= k < |ids| ensures ClaimCoverageOk(claims[k]) && claims[k].claimId == ids[k] {
      assert ids[k] in ids;
      ClaimCoverageAlwaysOk(ids[k], Where(entries, ClaimOf, ids[k]));
      NameOfCoverage(ids[k], Where(entries, ClaimOf, ids[k]));
    }
  }

  lemma NameOfCoverage(id: string, es: seq<Executed>)
    ensures CoverageOfClaim(id, es).claimId == id
  {
  }

  // ---------------------------------------------------------------- computing the report

  ghost predicate EntriesAccepted(entries: seq<Executed>) {
    && 0 < |entries| <= MAX_COVERAGE_ENTRIES
    && (forall i, j :: 0 <= i < j < |entries| ==> entries[i].queryId != entries[j].queryId)
    && (forall e :: e in entries ==> e.ledger.corpusLockHash == entries[0].ledger.corpusLockHash)
    && (forall e :: e in entries ==> e.ledger.sourceGeneration == entries[0].ledger.sourceGeneration)
  }

  function QueryIds(entries: seq<Executed>): (r: seq<string>)
    ensures |r| == |entries| && forall i :: 0 <= i < |r| ==> r[i] == entries[i].queryId
  {
    seq(|entries|, i requires 0 <= i < |entries| => entries[i].queryId)
  }

  /** The list of intent entries, built intent by intent. */
  method BuildPerIntent(order: seq<RetrievalIntent>, es: seq<Executed>) returns (r: seq<IntentCoverage>)
    ensures r == PerIntent(order, es)
  {
    hide Where, CoverageOfIntent;
    r := [];
    var i := 0;
    while i < |order|
      invariant 0 <= i <= |order| && r == PerIntent(order[..i], es)
    {
      assert order[..i + 1][..i] == order[..i];
      var group := Where(es, IntentOf, order[i]);
      if group != [] {
        r := r + [CoverageOfIntent(order[i], group)];
      }
      i := i + 1;
    }
    assert order[..i] == order;
  }

  /** Building the entries of the executed intents only leaves nothing out. */
  lemma {:induction false} ExecutedSuffice(order: seq<RetrievalIntent>, es: seq<Executed>)
    ensures PerIntent(Among(order, IntentSet(es)), es) == PerIntent(order, es)
  {
    if order != [] {
      var n := |order| - 1;
      ExecutedSuffice(order[..n], es);
      GroupPresent(es, order[n]);
      var front := Among(order[..n], IntentSet(es));
      if order[n] in IntentSet(es) {
        assert (front + [order[n]])[..|front|] == front;
      } else {
        assert front + [] == front && PerIntent(order[..n], es) + [] == PerIntent(order[..n], es);
      }
    }
  }

  /** `_claim_coverage`. */
  method ComputeClaim(claimId: string, es: seq<Executed>) returns (c: ClaimCoverage)
    ensures c == CoverageOfClaim(claimId, es)
  {
    hide PerIntent, Total, Union, Among, Missing, DuplicateRate, AllSelected, PapersOfHits;
    var executed := Among(INTENTS, IntentSet(es));
    var perIntent := BuildPerIntent(executed, es);
    ExecutedSuffice(INTENTS, es);
    var selected := AllSelected(es);
    c := ClaimCoverage(claimId, executed, Missing(executed), |es|, |selected|, |PapersOfHits(selected)|, |Union(es, TermsOf)|,
                       perIntent, DuplicateRate(selected), Total(es, InvalidOf), Total(es, TruncatedOf));
  }

  ghost predicate GroupsClaims(m: map<string, seq<Executed>>, es: seq<Executed>) {
    forall id :: Group(m, id) == Where(es, ClaimOf, id)
  }

  lemma NoneGrouped()
    ensures GroupsClaims(map[], [])
  {
  }

  lemma GroupedSnoc(m: map<string, seq<Executed>>, es: seq<Executed>, e: Executed)
    requires GroupsClaims(m, es)
    ensures GroupsClaims(Append(m, ClaimOf(e), e), es + [e])
  {
    hide ClaimOf, Where;
    forall id ensures Group(Append(m, ClaimOf(e), e), id) == Where(es + [e], ClaimOf, id) {
      assert Group(m, id) == Where(es, ClaimOf, id);
      WhereSnoc(es, e, ClaimOf, id);
    }
  }

  lemma GroupedFind(m: map<string, seq<Executed>>, es: seq<Executed>)
    requires GroupsClaims(m, es)
    ensures forall id :: Group(m, id) == Where(es, ClaimOf, id)
  {
  }

  /** `by_claim`: its keys in insertion order and the queries of each claim. */
  method GroupByClaim(entries: seq<Executed>) returns (ids: seq<string>, byClaim: map<string, seq<Executed>>)
    ensures ids == ClaimsSeen(entries)
    ensures forall id :: id in ids ==> Group(byClaim, id) == Where(entries, ClaimOf, id)
  {
    hide ClaimOf, Where, GroupsClaims, Append;
    NoneGrouped();
    ids, byClaim := [], map[];
    var i := 0;
    while i < |entries|
      invariant 0 <= i <= |entries| && ids == ClaimsSeen(entries[..i])
      invariant GroupsClaims(byClaim, entries[..i])
    {
      assert entries[..i + 1] == entries[..i] + [entries[i]] && entries[..i + 1][..i] == entries[..i];
      GroupedSnoc(byClaim, entries[..i], entries[i]);
      var id := ClaimOf(entries[i]);
      if id !in ids {
        ids := ids + [id];
      }
      byClaim := Append(byClaim, id, entries[i]);
      i := i + 1;
    }
    assert entries[..i] == entries;
    GroupedFind(byClaim, entries);
  }

  /** `compute_retrieval_coverage`: what it returns is consistent for every accepted list. */
  method ComputeCoverage(entries: seq<Executed>) returns (r: Result<Report, CoverageError>)
    ensures r.Ok? <==> EntriesAccepted(entries)
    ensures r.Ok? ==> entries != [] && r.value == CoverageOf(entries)
    ensures r.Ok? ==> ReportOk(r.value) && forall c :: c in r.value.claims ==> ClaimCoverageOk(c)
  {
    hide ClaimOf, ClaimCoverageOk, ReportOk, CoverageOfClaim, ClaimsSeen, AggregateOf, PerIntent, StableSort, LexLeq, Total, Union,
      AllSelected, PapersOfHits, DuplicateRate, MissingClaims, Where;
    if entries == [] {
      return Err(NoEntries);
    }
    if |entries| > MAX_COVERAGE_ENTRIES {
      return Err(TooManyEntries);
    }
    if !NoRepeats(QueryIds(entries)) {
      return Err(RepeatedQuery);
    }
    if exists e :: e in entries && e.ledger.corpusLockHash != entries[0].ledger.corpusLockHash {
      return Err(SeveralLocks);
    }
    if exists e :: e in entries && e.ledger.sourceGeneration != entries[0].ledger.sourceGeneration {
      return Err(SeveralGenerations);
    }
    var claims := ComputeClaims(entries);
    var aggregate := ComputeAggregate(claims, entries);
    ReportAlwaysOk(entries);
    r := Ok(Report(entries[0].ledger.corpusLockHash, entries[0].ledger.sourceGeneration, claims, aggregate));
  }

  method ComputeClaims(entries: seq<Executed>) returns (claims: seq<ClaimCoverage>)
    ensures claims == CoverageOfClaims(StableSort(LexLeq, ClaimsSeen(entries)), entries)
  {
    hide CoverageOfClaim, ClaimsSeen, StableSort, LexLeq, Where;
    var ids, byClaim := GroupByClaim(entries);
    SortSame(LexLeq, ids);
    var order := StableSort(LexLeq, ids);
    claims := [];
    var i := 0;
    while i < |order|
      invariant 0 <= i <= |order| && claims == CoverageOfClaims(order[..i], entries)
    {
      assert order[i] in ids;
      var c := ComputeClaim(order[i], Group(byClaim, order[i]));
      claims := claims + [c];
      i := i + 1;
    }
    assert order[..i] == order;
  }

  method ComputeAggregate(claims: seq<ClaimCoverage>, entries: seq<Executed>) returns (a: Aggregate)
    ensures a == AggregateOf(claims, entries)
  {
    hide PerIntent, Total, Union, DuplicateRate, AllSelected, PapersOfHits, MissingClaims;
    var selected := AllSelected(entries);
    var perIntent := BuildPerIntent(INTENTS, entries);
    a := Aggregate(|claims|, |entries|, |selected|, |PapersOfHits(selected)|, |Union(entries, TermsOf)|, perIntent,
                   DuplicateRate(selected), Total(entries, InvalidOf), Total(entries, TruncatedOf), MissingClaims(claims));
  }
}
