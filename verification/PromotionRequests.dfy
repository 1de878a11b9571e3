/** Promotion requests and the checks that decide whether one is accepted (library/retrieval_promotion.py). */
module PromotionRequests {
  import opened Basics
  import opened Lookup
  import opened Ordering
  import opened RetrievalBackends
  import opened RetrievalHits
  import opened RetrievalLedger
  import opened Snapshots
  import opened SourceText

  datatype Proposal = Proposal(relation: Relation, summary: string, quality: Quality, note: string)

  datatype PromotionDecision = PromotionDecision(
    key: string, status: DispositionStatus, reason: Option<string>, canonicalSpanId: Option<string>,
    evidence: Option<Proposal>)

  /** `RetrievalPromotionDecision._coupled_cardinality`. */
  predicate DecisionModelOk(d: PromotionDecision) {
    match d.status
    case Assessed => d.canonicalSpanId.None? && d.evidence.Some?
    case Duplicate => d.canonicalSpanId.Some? && d.evidence.None?
    case Redundant => (d.canonicalSpanId.Some? || d.reason.GetOr("") != "") && d.evidence.None?
    case ExcludedByBudget => false
    case InvalidLocator => false
  }

  datatype Request = Request(ledger: Ledger, decisions: seq<PromotionDecision>)

  function HitKeyOf(h: Hit): string { h.key }
  function DecisionKeyOf(d: PromotionDecision): string { d.key }

  /** What the request model guarantees before any snapshot is looked at. */
  ghost predicate RequestModelOk(digest: Digest, r: Request) {
    && LedgerOk(r.ledger) && (forall h :: h in r.ledger.rawHits ==> HitOk(digest, h))
    && (forall d :: d in r.decisions ==> DecisionModelOk(d))
    && UniqueIds(r.decisions, DecisionKeyOf)
    && (forall k :: k in r.ledger.selectedKeys <==> k in ById(r.decisions, DecisionKeyOf))
  }

  datatype PromotionError =
    | LockStale | QueryNotUnique | QueryTextDiffers | NoUsableTerms
    | IntentDiffers | OutsideCorpus | PathDiffers | KeyDiffers | ScoreDiffers | NotUtf8 | NotExactSlice
    | SpanDigestChanged | ContextDiffers | ContextDigestChanged | SectionDiffers | ReplayDiffers
    | SourceOccupied | TargetMissing | TargetOfOtherPaper | TargetOfOtherSource
    | AggregateExists | DownstreamExists | PropositionExists

  // ---------------------------------------------------------------- authenticating the ledger

  /** A raw document of the corpus lock whose bytes have been verified; absent text is not UTF-8. */
  datatype LockedPaper = LockedPaper(rawMdPath: string, text: Option<string>)

  datatype LockedCorpus = LockedCorpus(lockHash: string, papers: map<string, LockedPaper>)

  /** The generation's corpus and graph as a retrieval reads them. */
  datatype Replay = Replay(corpus: Corpus, graph: Option<seq<GraphItem>>)

  function ExpectedScore(s: Setting, terms: seq<string>, h: Hit): real
    requires terms != []
  {
    var textScore := TextScore(s.casefold(h.sourceText), terms);
    match h.origin
    case TextBaseline => textScore
    case Graph => GRAPH_SCORE
    case Both => if textScore >= GRAPH_SCORE then textScore else GRAPH_SCORE
  }

  predicate InCorpus(s: Setting, l: Ledger, h: Hit, papers: map<string, Paper>, c: LockedCorpus) {
    && h.paperId in papers && h.paperId in c.papers
    && h.rawMdPath == papers[h.paperId].rawMdPath == c.papers[h.paperId].rawMdPath
    && h.key == s.digest(CandidateIdentity(h.paperId, papers[h.paperId].rawMdHash, h.queryId, l.queryTextHash, h.sourceText,
                                           h.start, h.end, h.origin))
  }

  /** A valid candidate repeats its source text, window and section exactly, under the expected score. */
  predicate ExactIn(s: Setting, terms: seq<string>, h: Hit, text: string)
    requires h.start.Some? && h.end.Some? && terms != []
  {
    && h.score == ExpectedScore(s, terms, h)
    && h.start.value < h.end.value <= |text| && h.end.value - h.start.value <= MAX_CONTEXT_CHARS
    && text[h.start.value..h.end.value] == h.sourceText && h.spanHash == Some(s.digest(TextBytes(h.sourceText)))
    && h.context == Some(WindowContext(s, text, Range(h.start.value, h.end.value)))
    && h.section == s.sectionAt(text, h.start.value)
  }

  predicate HitAuthentic(s: Setting, l: Ledger, q: RetrievalQuery, terms: seq<string>, h: Hit, papers: map<string, Paper>,
                         c: LockedCorpus)
    requires h.isValid ==> h.start.Some? && h.end.Some? && terms != []
  {
    && h.intent == q.intent && InCorpus(s, l, h, papers, c)
    && (h.isValid ==> c.papers[h.paperId].text.Some? && ExactIn(s, terms, h, c.papers[h.paperId].text.value))
  }

  lemma ValidShape(digest: Digest, h: Hit)
    requires HitOk(digest, h) && h.isValid
    ensures h.start.Some? && h.end.Some? && h.spanHash.Some? && h.context.Some?
    ensures h.start.value < h.end.value && h.end.value - h.start.value == |h.sourceText| <= MAX_CONTEXT_CHARS
  {
  }

  /** The part of the loop over raw hits that looks at the source text. */
  method CheckSource(s: Setting, terms: seq<string>, h: Hit, text: string) returns (fault: Option<PromotionError>)
    requires HitOk(s.digest, h) && h.isValid && terms != []
    ensures h.start.Some? && h.end.Some?
    ensures fault.None? <==> ExactIn(s, terms, h, text)
  {
    ValidShape(s.digest, h);
    hide HitOk, TextScore, WindowOf;
    if h.score != ExpectedScore(s, terms, h) {
      return Some(ScoreDiffers);
    }
    var start, end := h.start.value, h.end.value;
    if !(end <= |text|) || text[start..end] != h.sourceText {
      return Some(NotExactSlice);
    }
    if s.digest(TextBytes(h.sourceText)) != h.spanHash.value {
      return Some(SpanDigestChanged);
    }
    var window := BoundedContextSlice(text, start, end);
    var w := window.value;
    WindowExact(|text|, Range(start, end));
    var context := h.context.value;
    if (w.start, w.end, text[w.start..w.end]) != (context.start, context.end, context.text) {
      return Some(ContextDiffers);
    }
    if s.digest(TextBytes(context.text)) != context.utf8Hash {
      return Some(ContextDigestChanged);
    }
    if s.sectionAt(text, start) != h.section {
      return Some(SectionDiffers);
    }
    return None;
  }

  method CheckHit(s: Setting, l: Ledger, q: RetrievalQuery, terms: seq<string>, h: Hit, papers: map<string, Paper>,
                  c: LockedCorpus)
    returns (fault: Option<PromotionError>)
    requires HitOk(s.digest, h) && (h.isValid ==> terms != [])
    ensures h.isValid ==> h.start.Some? && h.end.Some?
    ensures fault.None? <==> HitAuthentic(s, l, q, terms, h, papers, c)
  {
    if h.isValid {
      ValidShape(s.digest, h);
    }
    hide HitOk, ExactIn;
    if h.intent != q.intent {
      return Some(IntentDiffers);
    }
    if h.paperId !in papers || h.paperId !in c.papers {
      return Some(OutsideCorpus);
    }
    if h.rawMdPath != papers[h.paperId].rawMdPath || h.rawMdPath != c.papers[h.paperId].rawMdPath {
      return Some(PathDiffers);
    }
    if s.digest(CandidateIdentity(h.paperId, papers[h.paperId].rawMdHash, h.queryId, l.queryTextHash, h.sourceText,
                                  h.start, h.end, h.origin)) != h.key {
      return Some(KeyDiffers);
    }
    if !h.isValid {
      return None;
    }
    if c.papers[h.paperId].text.None? {
      return Some(NotUtf8);
    }
    fault := CheckSource(s, terms, h, c.papers[h.paperId].text.value);
  }

  /** The ledger that a fresh retrieval of the canonical query over the same generation comes to, if it succeeds. */
  function Replayed(s: Setting, l: Ledger, q: RetrievalQuery, terms: seq<string>, x: Replay, c: LockedCorpus): Option<Ledger> {
    match Retrieval(s, Query(q.text, q.queryId, q.intent), terms, x.corpus, x.graph, l.sourceGeneration, c.lockHash,
                    l.requestedTopK, l.maxQueryTerms)
    case Err(_) => None
    case Ok(r) => Some(r.ledger)
  }

  ghost predicate LedgerAuthentic(s: Setting, l: Ledger, x: Replay, q: RetrievalQuery, terms: seq<string>,
                                  snapshot: Snapshot, c: LockedCorpus)
    requires LedgerOk(l) && forall h :: h in l.rawHits ==> HitOk(s.digest, h)
  {
    && c.lockHash == l.corpusLockHash
    && Matching(snapshot.queries, QueryIdOf, l.queryId) == [q]
    && l.queryTextHash == s.digest(TextBytes(q.text))
    && (l.validCandidates > 0 ==> terms != [])
    && (forall h :: h in l.rawHits ==> (h.isValid ==> h.start.Some? && h.end.Some? && terms != [])
                                       && HitAuthentic(s, l, q, terms, h, ById(snapshot.papers, PaperIdOf), c))
    && Replayed(s, l, q, terms, x, c) == Some(l)
  }

  lemma SomeValid(l: Ledger, h: Hit)
    requires LedgerOk(l) && h in l.rawHits && h.isValid
    ensures l.validCandidates > 0
  {
    hide LedgerOk;
    CountsOfLedger(l);
    HitsOfMembers(l.rawHits, true);
  }

  lemma CountsOfLedger(l: Ledger)
    requires LedgerOk(l)
    ensures l.validCandidates == |HitsOf(l.rawHits, true)|
  {
    hide ClassificationOk, OrderOk, FieldBounds, HitsOf;
  }

  /** `_validate_locked_request` up to the decisions; `terms` are the usable terms of the canonical query. */
  method AuthenticateLedger(s: Setting, l: Ledger, x: Replay, terms: seq<string>, snapshot: Snapshot,
                            papers: map<string, Paper>, c: LockedCorpus)
    returns (r: Result<RetrievalQuery, PromotionError>)
    requires LedgerOk(l) && forall h :: h in l.rawHits ==> HitOk(s.digest, h)
    requires papers == ById(snapshot.papers, PaperIdOf)
    ensures r.Ok? ==> LedgerAuthentic(s, l, x, r.value, terms, snapshot, c)
    ensures (exists q :: LedgerAuthentic(s, l, x, q, terms, snapshot, c)) ==> r.Ok?
  {
    hide LedgerOk, HitOk, HitAuthentic, ById, Matching, Replayed;
    if c.lockHash != l.corpusLockHash {
      return Err(LockStale);
    }
    var queries := Matching(snapshot.queries, QueryIdOf, l.queryId);
    if |queries| != 1 {
      return Err(QueryNotUnique);
    }
    var q := queries[0];
    if l.queryTextHash != s.digest(TextBytes(q.text)) {
      return Err(QueryTextDiffers);
    }
    if terms == [] && l.validCandidates != 0 {
      return Err(NoUsableTerms);
    }
    var i := 0;
    while i < |l.rawHits|
      invariant 0 <= i <= |l.rawHits|
      invariant forall h :: h in l.rawHits[..i] ==> (h.isValid ==> h.start.Some? && h.end.Some? && terms != [])
                                                    && HitAuthentic(s, l, q, terms, h, papers, c)
    {
      var h := l.rawHits[i];
      assert l.rawHits[..i + 1] == l.rawHits[..i] + [h];
      if h.isValid {
        SomeValid(l, h);
      }
      var fault := CheckHit(s, l, q, terms, h, papers, c);
      if fault.Some? {
        return Err(fault.value);
      }
      i := i + 1;
    }
    if Replayed(s, l, q, terms, x, c) != Some(l) {
      return Err(ReplayDiffers);
    }
    return Ok(q);
  }

  // ---------------------------------------------------------------- deciding on the selected candidates

  /** What makes two passages the same passage. */
  datatype SourceIdentity = SourceIdentity(
    paperId: string, rawMdPath: string, start: nat, end: nat, spanHash: string, text: string)

  function IdentityOfSpan(x: RetrievedSpan): SourceIdentity {
    SourceIdentity(x.paperId, x.locator.rawMdPath, x.locator.start, x.locator.end, x.locator.spanHash, x.sourceText)
  }

  predicate Located(h: Hit) {
    h.start.Some? && h.end.Some? && h.spanHash.Some?
  }

  function IdentityOfHit(h: Hit): SourceIdentity
    requires Located(h)
  {
    SourceIdentity(h.paperId, h.rawMdPath, h.start.value, h.end.value, h.spanHash.value, h.sourceText)
  }

  predicate SamePassage(x: RetrievedSpan, y: RetrievedSpan) {
    && x.paperId == y.paperId && x.locator.rawMdPath == y.locator.rawMdPath && x.locator.start == y.locator.start
    && x.locator.end == y.locator.end && x.locator.spanHash == y.locator.spanHash && x.sourceText == y.sourceText
  }

  predicate LiesAt(h: Hit, x: RetrievedSpan) {
    && h.paperId == x.paperId && h.rawMdPath == x.locator.rawMdPath && h.start == Some(x.locator.start)
    && h.end == Some(x.locator.end) && h.spanHash == Some(x.locator.spanHash) && h.sourceText == x.sourceText
  }

  /** A source is occupied by the spans of the same passage and by no others. */
  lemma SourceIdentityExactly(h: Hit, x: RetrievedSpan, y: RetrievedSpan)
    requires Located(h)
    ensures IdentityOfSpan(x) == IdentityOfSpan(y) <==> SamePassage(x, y)
    ensures IdentityOfHit(h) == IdentityOfSpan(x) <==> LiesAt(h, x)
  {
  }

  lemma OccupiedExactly(h: Hit, spans: seq<RetrievedSpan>)
    requires Located(h)
    ensures IdentityOfHit(h) in Occupied(spans) <==> exists i :: 0 <= i < |spans| && LiesAt(h, spans[i])
  {
    hide IdentityOfHit, IdentityOfSpan, LiesAt;
    forall x: RetrievedSpan ensures IdentityOfHit(h) == IdentityOfSpan(x) <==> LiesAt(h, x) {
      SourceIdentityExactly(h, x, x);
    }
  }

  /** A selected candidate with the decision about it. */
  datatype Chosen = Chosen(hit: Hit, decision: PromotionDecision)

  function Identities(chosen: seq<Chosen>): (r: set<SourceIdentity>)
    requires forall p :: p in chosen ==> Located(p.hit)
  {
    set p | p in chosen :: IdentityOfHit(p.hit)
  }

  function Occupied(spans: seq<RetrievedSpan>): set<SourceIdentity> {
    set x | x in spans :: IdentityOfSpan(x)
  }

  predicate SourceAllowed(p: Chosen, occupied: set<SourceIdentity>)
    requires Located(p.hit)
  {
    IdentityOfHit(p.hit) in occupied ==> p.decision.status.Duplicate?
  }

  predicate TargetAllowed(p: Chosen, spans: map<string, RetrievedSpan>)
    requires Located(p.hit)
  {
    p.decision.canonicalSpanId.Some? ==>
      && p.decision.canonicalSpanId.value in spans
      && var target := spans[p.decision.canonicalSpanId.value];
         && target.paperId == p.hit.paperId
         && (p.decision.status.Duplicate? ==> IdentityOfSpan(target) == IdentityOfHit(p.hit))
  }

  /** Nothing downstream of evidence exists for the claim yet. */
  ghost predicate ClaimOpen(s: Snapshot, claimId: string) {
    && (forall x :: x in s.cpes ==> x.claimId != claimId)
    && (forall x :: x in s.assessments ==> x.claimId != claimId) && (forall x :: x in s.finals ==> x.claimId != claimId)
    && (forall x :: x in s.packets ==> x.claimId != claimId)
    && (forall x :: x in s.propositions ==> claimId !in x.claimIds)
  }

  ghost predicate PairAllowed(chosen: seq<Chosen>, i: nat, s: Snapshot)
    requires i < |chosen| && forall p :: p in chosen ==> Located(p.hit)
  {
    && SourceAllowed(chosen[i], Occupied(s.spans) + Identities(chosen[..i]))
    && TargetAllowed(chosen[i], ById(s.spans, SpanIdOf))
  }

  ghost predicate AnyAssessed(chosen: seq<Chosen>) {
    exists p :: p in chosen && p.decision.status.Assessed?
  }

  ghost predicate DecisionsAllowed(chosen: seq<Chosen>, s: Snapshot, claimId: string)
    requires forall p :: p in chosen ==> Located(p.hit)
  {
    && (forall i :: 0 <= i < |chosen| ==> PairAllowed(chosen, i, s))
    && (AnyAssessed(chosen) ==> ClaimOpen(s, claimId))
  }

  predicate KeysKnown(keys: seq<string>, hits: map<string, Hit>, decisions: map<string, PromotionDecision>) {
    forall k :: k in keys ==> k in hits && k in decisions
  }

  /** The selected candidates in order, each with its decision. */
  function ChosenOf(keys: seq<string>, hits: map<string, Hit>, decisions: map<string, PromotionDecision>): (r: seq<Chosen>)
    requires KeysKnown(keys, hits, decisions)
    ensures |r| == |keys| && forall i :: 0 <= i < |r| ==> r[i] == Chosen(hits[keys[i]], decisions[keys[i]])
  {
    seq(|keys|, i requires 0 <= i < |keys| => Chosen(hits[keys[i]], decisions[keys[i]]))
  }

  function ValidHits(l: Ledger): map<string, Hit> {
    ById(HitsOf(l.rawHits, true), HitKeyOf)
  }

  /** The pairs a request asks to promote; every selected key has a candidate and a decision (`SelectedKnown`). */
  function RequestPairs(r: Request): seq<Chosen> {
    var hits, decisions := ValidHits(r.ledger), ById(r.decisions, DecisionKeyOf);
    if KeysKnown(r.ledger.selectedKeys, hits, decisions) then ChosenOf(r.ledger.selectedKeys, hits, decisions) else []
  }

  /** Looking up a selected key never fails: the request and ledger models see to that. */
  lemma SelectedKnown(digest: Digest, r: Request)
    requires RequestModelOk(digest, r)
    ensures KeysKnown(r.ledger.selectedKeys, ValidHits(r.ledger), ById(r.decisions, DecisionKeyOf))
    ensures forall p :: p in RequestPairs(r) ==>
              p.hit in r.ledger.rawHits && p.hit.isValid && Located(p.hit) && DecisionModelOk(p.decision)
  {
    hide LedgerOk, HitOk, HitsOf, ById, DecisionModelOk;
    var hits, decisions := ValidHits(r.ledger), ById(r.decisions, DecisionKeyOf);
    forall k | k in r.ledger.selectedKeys
      ensures k in hits && k in decisions && hits[k] in r.ledger.rawHits && hits[k].isValid && Located(hits[k])
      ensures DecisionModelOk(decisions[k])
    {
      SelectedIsValid(r.ledger, k);
      ByIdMember(HitsOf(r.ledger.rawHits, true), HitKeyOf, k);
      HitsOfMembers(r.ledger.rawHits, true);
      ValidShape(digest, hits[k]);
      ByIdMember(r.decisions, DecisionKeyOf, k);
    }
  }

  lemma SelectedIsValid(l: Ledger, k: string)
    requires LedgerOk(l) && k in l.selectedKeys
    ensures k in ValidHits(l)
  {
    hide CountsOk, OrderOk, FieldBounds, HitsOf, NoRepeats;
    var valid := HitsOf(l.rawHits, true);
    assert k in ToSet(l.selectedKeys);
    assert k in ToSet(Keys(valid));
    var i :| 0 <= i < |valid| && Keys(valid)[i] == k;
    ByIdHas(valid, HitKeyOf, valid[i]);
  }

  method CheckChosen(p: Chosen, spans: map<string, RetrievedSpan>, occupied: set<SourceIdentity>)
    returns (fault: Option<PromotionError>)
    requires Located(p.hit)
    ensures fault.None? <==> SourceAllowed(p, occupied) && TargetAllowed(p, spans)
  {
    var identity := IdentityOfHit(p.hit);
    if identity in occupied && !p.decision.status.Duplicate? {
      return Some(SourceOccupied);
    }
    if p.decision.canonicalSpanId.Some? {
      if p.decision.canonicalSpanId.value !in spans {
        return Some(TargetMissing);
      }
      var target := spans[p.decision.canonicalSpanId.value];
      if target.paperId != p.hit.paperId {
        return Some(TargetOfOtherPaper);
      }
      if p.decision.status.Duplicate? && IdentityOfSpan(target) != identity {
        return Some(TargetOfOtherSource);
      }
    }
    return None;
  }

  method CheckClaimOpen(s: Snapshot, claimId: string) returns (fault: Option<PromotionError>)
    ensures fault.None? <==> ClaimOpen(s, claimId)
  {
    if exists x :: x in s.cpes && x.claimId == claimId {
      return Some(AggregateExists);
    }
    if (exists x :: x in s.assessments && x.claimId == claimId) || (exists x :: x in s.finals && x.claimId == claimId)
       || (exists x :: x in s.packets && x.claimId == claimId) {
      return Some(DownstreamExists);
    }
    if exists x :: x in s.propositions && claimId in x.claimIds {
      return Some(PropositionExists);
    }
    return None;
  }

  /** The loop over the selected candidates; `assessed` lists those that become evidence. */
  method CheckSelected(keys: seq<string>, hits: map<string, Hit>, decisions: map<string, PromotionDecision>, s: Snapshot)
    returns (done: seq<Chosen>, assessed: seq<Hit>, fault: Option<PromotionError>)
    requires KeysKnown(keys, hits, decisions) && forall p :: p in ChosenOf(keys, hits, decisions) ==> Located(p.hit)
    ensures fault.None? <==> forall i :: 0 <= i < |keys| ==> PairAllowed(ChosenOf(keys, hits, decisions), i, s)
    ensures fault.None? ==> done == ChosenOf(keys, hits, decisions) && (assessed != [] <==> AnyAssessed(done))
  {
    hide SourceAllowed, TargetAllowed, Occupied, Identities, ById, PairAllowed, AnyAssessed, Located;
    var spans := ById(s.spans, SpanIdOf);
    var occupied := Occupied(s.spans);
    ghost var all := ChosenOf(keys, hits, decisions);
    done, assessed, fault := [], [], None;
    NothingChosen(all);
    var i := 0;
    while i < |keys|
      invariant 0 <= i <= |keys|
      invariant done == all[..i] && occupied == Occupied(s.spans) + Identities(all[..i])
      invariant forall k :: 0 <= k < i ==> PairAllowed(all, k, s)
      invariant assessed != [] <==> AnyAssessed(all[..i])
      invariant fault.None?
    {
      var p := Chosen(hits[keys[i]], decisions[keys[i]]);
      assert p == all[i] && p in all;
      fault := CheckChosen(p, spans, occupied);
      PairAllowedNow(all, i, s);
      if fault.Some? {
        return;
      }
      if p.decision.status.Assessed? {
        assessed := assessed + [p.hit];
      }
      ChosenSnoc(all, i);
      occupied := occupied + {IdentityOfHit(p.hit)};
      done := done + [p];
      i := i + 1;
    }
    assert all[..i] == all;
  }

  /** `_validate_decisions_against_snapshot`. */
  method ValidateDecisions(digest: Digest, r: Request, s: Snapshot, q: RetrievalQuery)
    returns (validated: Result<seq<Chosen>, PromotionError>)
    requires RequestModelOk(digest, r)
    ensures KeysKnown(r.ledger.selectedKeys, ValidHits(r.ledger), ById(r.decisions, DecisionKeyOf))
    ensures forall p :: p in RequestPairs(r) ==> Located(p.hit)
    ensures validated.Ok? <==> DecisionsAllowed(RequestPairs(r), s, q.claimId)
    ensures validated.Ok? ==> validated.value == RequestPairs(r)
  {
    SelectedKnown(digest, r);
    hide RequestModelOk, ById, ValidHits, ClaimOpen, PairAllowed, AnyAssessed, Located, DecisionModelOk;
    var done, assessed, fault := CheckSelected(r.ledger.selectedKeys, ValidHits(r.ledger),
                                               ById(r.decisions, DecisionKeyOf), s);
    if fault.Some? {
      return Err(fault.value);
    }
    if assessed != [] {
      var downstream := CheckClaimOpen(s, q.claimId);
      if downstream.Some? {
        return Err(downstream.value);
      }
    }
    return Ok(done);
  }

  lemma NothingChosen(all: seq<Chosen>)
    requires forall p :: p in all ==> Located(p.hit)
    ensures Identities(all[..0]) == {} && !AnyAssessed(all[..0])
  {
  }

  lemma PairAllowedNow(all: seq<Chosen>, i: nat, s: Snapshot)
    requires i < |all| && forall p :: p in all ==> Located(p.hit)
    ensures PairAllowed(all, i, s) <==> SourceAllowed(all[i], Occupied(s.spans) + Identities(all[..i]))
                                        && TargetAllowed(all[i], ById(s.spans, SpanIdOf))
  {
    hide SourceAllowed, TargetAllowed, Occupied, Identities, ById;
  }

  lemma ChosenSnoc(all: seq<Chosen>, i: nat)
    requires i < |all| && forall p :: p in all ==> Located(p.hit)
    ensures Identities(all[..i + 1]) == Identities(all[..i]) + {IdentityOfHit(all[i].hit)}
    ensures AnyAssessed(all[..i + 1]) <==> AnyAssessed(all[..i]) || all[i].decision.status.Assessed?
    ensures all[..i + 1] == all[..i] + [all[i]]
  {
    assert all[..i + 1] == all[..i] + [all[i]];
  }
}
