/** The two bounded searchers: what they emit, and that keeping only the best hits as they go
    equals sorting everything and cutting (library/retrieval.py). */
module RetrievalBackends {
  import opened Basics
  import opened Ids
  import opened Ordering
  import opened SourceText
  import opened RetrievalHits
  import Utf8

  // ---------------------------------------------------------------- keeping the best

  /** What `_retain_best` leaves in its list. */
  function Retained<T>(leq: (T, T) -> bool, values: seq<T>, value: T, limit: nat): seq<T> {
    var s := StableSort(leq, values + [value]);
    if |s| > limit then s[..|s| - 1] else s
  }

  /** `_retain_best` called on one value of a stream after the other. */
  function RetainAll<T>(leq: (T, T) -> bool, stream: seq<T>, limit: nat): seq<T> {
    if stream == [] then []
    else Retained(leq, RetainAll(leq, stream[..|stream| - 1], limit), stream[|stream| - 1], limit)
  }

  /** A list cut at `limit`, with `x` put in at `p` before or after the cut. */
  lemma CutInserted<T>(s: seq<T>, x: T, p: nat, limit: nat)
    requires p <= limit < |s|
    ensures (s[..limit][..p] + [x] + s[..limit][p..])[..limit] == (s[..p] + [x] + s[p..])[..limit]
  {
    assert s[..limit][..p] == s[..p] && s[..limit][p..] == s[p..limit];
    assert s[..p] + [x] + s[p..] == (s[..p] + [x] + s[p..limit]) + s[limit..];
  }

  lemma CutPosition<T(!new)>(leq: (T, T) -> bool, s: seq<T>, x: T, p: nat, q: nat, limit: nat)
    requires p <= |s| && q <= limit < |s|
    requires forall i :: 0 <= i < p ==> leq(s[i], x)
    requires forall i :: p <= i < |s| ==> !leq(s[i], x)
    requires forall i :: 0 <= i < q ==> leq(s[..limit][i], x)
    requires forall i :: q <= i < limit ==> !leq(s[..limit][i], x)
    ensures q == if p < limit then p else limit
  {
    assert q < limit ==> !leq(s[..limit][q], x) && s[..limit][q] == s[q];
    assert q > 0 ==> leq(s[..limit][q - 1], x) && s[..limit][q - 1] == s[q - 1];
  }

  /** Cutting before an insertion and cutting after it leave the same list. */
  lemma CutCommutes<T(!new)>(leq: (T, T) -> bool, s: seq<T>, x: T, limit: nat)
    requires IsTotalPreorder(leq) && IsSorted(leq, s)
    ensures Take(Insert(leq, Take(s, limit), x), limit) == Take(Insert(leq, s, x), limit)
  {
    if limit < |s| {
      SortedFront(leq, s, limit);
      var p := InsertPosition(leq, s, x);
      var q := InsertPosition(leq, s[..limit], x);
      CutPosition(leq, s, x, p, q, limit);
      CutInserted(s, x, q, limit);
      if p > limit {
        CutInsertedBehind(s, x, p, limit);
      }
    }
  }

  lemma CutInsertedBehind<T>(s: seq<T>, x: T, p: nat, limit: nat)
    requires limit < p <= |s|
    ensures (s[..limit] + [x] + s[limit..])[..limit] == (s[..p] + [x] + s[p..])[..limit]
  {
    assert s[..p] + [x] + s[p..] == s[..limit] + (s[limit..p] + [x] + s[p..]);
    assert s[..limit] + [x] + s[limit..] == s[..limit] + ([x] + s[limit..]);
  }

  lemma RetainedOfCut<T(!new)>(leq: (T, T) -> bool, s: seq<T>, x: T, limit: nat)
    requires IsTotalPreorder(leq) && IsSorted(leq, s)
    ensures Retained(leq, Take(s, limit), x, limit) == Take(Insert(leq, s, x), limit)
  {
    var kept := Take(s, limit);
    SortedFront(leq, s, |kept|);
    SortOfSorted(leq, kept);
    CutCommutes(leq, s, x, limit);
    hide Insert, StableSort;
  }

  lemma RetainedNext<T(!new)>(leq: (T, T) -> bool, stream: seq<T>, x: T, limit: nat)
    requires IsTotalPreorder(leq)
    ensures Retained(leq, Take(StableSort(leq, stream), limit), x, limit) == Take(StableSort(leq, stream + [x]), limit)
  {
    SortSorted(leq, stream);
    RetainedOfCut(leq, StableSort(leq, stream), x, limit);
    hide Retained;
    assert (stream + [x])[..|stream|] == stream;
  }

  /** Folding `_retain_best` over any stream gives the first `limit` values of its stable sort. */
  lemma {:induction false} RetainAllIsSortedPrefix<T(!new)>(leq: (T, T) -> bool, stream: seq<T>, limit: nat)
    requires IsTotalPreorder(leq)
    ensures RetainAll(leq, stream, limit) == Take(StableSort(leq, stream), limit)
  {
    hide Retained, StableSort, IsTotalPreorder;
    if stream != [] {
      var n := |stream| - 1;
      RetainAllIsSortedPrefix(leq, stream[..n], limit);
      RetainedNext(leq, stream[..n], stream[n], limit);
      assert stream == stream[..n] + [stream[n]];
    }
  }

  /** The list a search keeps its candidates of one class in. */
  class RetainedHits {
    var values: seq<Hit>

    constructor ()
      ensures values == []
    {
      values := [];
    }

    /** `_retain_best`: a list that holds the best `limit` hits of what went through it before holds
        the best of that and the new hit. */
    method RetainBest(value: Hit, limit: nat, leq: (Hit, Hit) -> bool, ghost stream: seq<Hit>)
      requires IsTotalPreorder(leq) && values == Take(StableSort(leq, stream), limit)
      modifies this
      ensures values == Take(StableSort(leq, stream + [value]), limit)
      ensures values == Retained(leq, old(values), value, limit)
    {
      RetainedNext(leq, stream, value, limit);
      values := values + [value];
      values := StableSort(leq, values);
      if |values| > limit {
        values := values[..|values| - 1];
      }
    }
  }

  // ---------------------------------------------------------------- batches

  /** The parts of Python and Unicode that the searches rely on, as parameters. */
  datatype Setting = Setting(digest: Digest, casefold: string -> string, isSpace: char -> bool,
                             sectionAt: (string, nat) -> Option<string>)

  datatype Query = Query(text: string, id: string, intent: RetrievalIntent)

  datatype PaperText = PaperText(paperId: string, rawMdPath: string, rawMdHash: string, text: string)

  datatype Batch = Batch(hits: seq<Hit>, truncatedValid: nat, truncatedInvalid: nat)

  datatype SearchError = LimitOutOfRange | IntentMismatch | QueryTooLong | InvalidCandidate

  /** The best of everything a backend came across, and how much of each class that leaves out. */
  function Batched(stream: seq<Hit>, validLimit: nat): Batch {
    var valid, invalid := HitsOf(stream, true), HitsOf(stream, false);
    var keptValid := Take(StableSort(RankLeq, valid), validLimit);
    var keptInvalid := Take(StableSort(DiagnosticLeq, invalid), MAX_INVALID_DIAGNOSTICS);
    Batch(keptValid + keptInvalid, |valid| - |keptValid|, |invalid| - |keptInvalid|)
  }

  /** The local variables of a search after `stream` has gone through it. */
  ghost predicate Tracks(stream: seq<Hit>, validLimit: nat, valid: RetainedHits, invalid: RetainedHits,
                         validSeen: nat, invalidSeen: nat)
    reads valid, invalid
  {
    && valid.values == Take(StableSort(RankLeq, HitsOf(stream, true)), validLimit)
    && invalid.values == Take(StableSort(DiagnosticLeq, HitsOf(stream, false)), MAX_INVALID_DIAGNOSTICS)
    && validSeen == |HitsOf(stream, true)| && invalidSeen == |HitsOf(stream, false)|
  }

  /** The branch of a search's loop that counts and keeps one candidate. */
  method Record(hit: Hit, validLimit: nat, valid: RetainedHits, invalid: RetainedHits,
                validBefore: nat, invalidBefore: nat, ghost stream: seq<Hit>)
      returns (validSeen: nat, invalidSeen: nat)
    requires valid != invalid && Tracks(stream, validLimit, valid, invalid, validBefore, invalidBefore)
    modifies valid, invalid
    ensures Tracks(stream + [hit], validLimit, valid, invalid, validSeen, invalidSeen)
  {
    RankIsTotal();
    DiagnosticIsTotal();
    hide Retained, StableSort, RankLeq, DiagnosticLeq;
    validSeen, invalidSeen := validBefore, invalidBefore;
    assert (stream + [hit])[..|stream|] == stream;
    ghost var before := HitsOf(stream, hit.isValid);
    assert (before + [hit])[..|before|] == before;
    assert HitsOf(stream, !hit.isValid) + [] == HitsOf(stream, !hit.isValid);
    if hit.isValid {
      validSeen := validSeen + 1;
      valid.RetainBest(hit, validLimit, RankLeq, before);
    } else {
      invalidSeen := invalidSeen + 1;
      invalid.RetainBest(hit, MAX_INVALID_DIAGNOSTICS, DiagnosticLeq, before);
    }
  }

  method Finish(valid: RetainedHits, invalid: RetainedHits, validSeen: nat, invalidSeen: nat,
                ghost stream: seq<Hit>, validLimit: nat) returns (r: Batch)
    requires Tracks(stream, validLimit, valid, invalid, validSeen, invalidSeen)
    ensures r == Batched(stream, validLimit)
  {
    hide RankLeq, DiagnosticLeq, StableSort, HitsOf;
    r := Batch(valid.values + invalid.values, validSeen - |valid.values|, invalidSeen - |invalid.values|);
  }

  // ---------------------------------------------------------------- diagnostics

  function ParagraphTooLong(): (message: string)
    ensures message != ""
  {
    "matching paragraph exceeds the runtime candidate size limit"
  }

  function EvidenceTooLong(): (message: string)
    ensures message != ""
  {
    "graph evidence exceeds the runtime candidate size limit"
  }

  function EvidenceAbsent(): (message: string)
    ensures message != ""
  {
    "graph evidence text is not an exact raw Markdown slice"
  }

  function EvidenceRepeated(): (message: string)
    ensures message != ""
  {
    "graph evidence text occurs multiple times in raw Markdown"
  }

  // ---------------------------------------------------------------- candidates

  function QueryTextHash(s: Setting, q: Query): string {
    s.digest(TextBytes(q.text))
  }

  /** `_candidate_key`. */
  function CandidateKey(s: Setting, q: Query, paper: PaperText, sourceText: string,
                        start: Option<nat>, end: Option<nat>, origin: Origin): string {
    s.digest(CandidateIdentity(paper.paperId, paper.rawMdHash, q.id, QueryTextHash(s, q), sourceText, start, end, origin))
  }

  function WindowContext(s: Setting, text: string, span: Range): Context
    requires span.start < span.end <= |text| && span.end - span.start <= MAX_CONTEXT_CHARS
  {
    WindowExact(|text|, span);
    var w := WindowOf(|text|, span);
    Context(text[w.start..w.end], w.start, w.end, s.digest(TextBytes(text[w.start..w.end])))
  }

  /** A candidate that is an exact slice of its paper. */
  function ValidCandidate(s: Setting, q: Query, paper: PaperText, span: Range, origin: Origin,
                          nodeId: Option<string>, relation: Option<string>, score: real): Hit
    requires span.start < span.end <= |paper.text| && span.end - span.start <= MAX_CONTEXT_CHARS
  {
    var clean := paper.text[span.start..span.end];
    Hit(CandidateKey(s, q, paper, clean, Some(span.start), Some(span.end), origin),
        paper.paperId, paper.rawMdPath, q.id, QueryTextHash(s, q), q.intent, origin, clean,
        Some(span.start), Some(span.end), Some(s.digest(TextBytes(clean))),
        Some(WindowContext(s, paper.text, span)), s.sectionAt(paper.text, span.start),
        nodeId, relation, score, true, None)
  }

  function InvalidCandidateHit(s: Setting, q: Query, paper: PaperText, sourceText: string, origin: Origin,
                               nodeId: Option<string>, relation: Option<string>, score: real, error: string): Hit {
    Hit(CandidateKey(s, q, paper, sourceText, None, None, origin),
        paper.paperId, paper.rawMdPath, q.id, QueryTextHash(s, q), q.intent, origin, sourceText,
        None, None, None, None, None, nodeId, relation, score, false, Some(error))
  }

  /** Candidates that a backend of `origin` builds pass every check on a candidate, if only their
      fields from the corpus and the graph are short enough. */
  lemma ValidCandidateOk(s: Setting, q: Query, paper: PaperText, span: Range, origin: Origin,
                         nodeId: Option<string>, relation: Option<string>, score: real)
    requires span.start < span.end <= |paper.text| && span.end - span.start <= MAX_CONTEXT_CHARS
    requires ParseQueryId(q.id).Some? && ParseQueryId(q.id).value.intent == q.intent
    requires 0.0 <= score <= 1.0
    requires if origin.TextBaseline? then nodeId.None? && relation.None? else nodeId.Some? && relation.Some?
    ensures var h := ValidCandidate(s, q, paper, span, origin, nodeId, relation, score);
            HitOk(s.digest, h) <==> MetadataOk(h)
  {
    hide ParseQueryId;
    WindowExact(|paper.text|, span);
    var w := WindowOf(|paper.text|, span);
    SliceOfSlice(paper.text, w.start, w.end, span.start, span.end);
  }

  lemma SliceOfSlice(text: string, a: nat, b: nat, c: nat, d: nat)
    requires a <= c <= d <= b <= |text|
    ensures text[a..b][c - a..d - a] == text[c..d]
  {
    var x, y := text[a..b][c - a..d - a], text[c..d];
    assert |x| == |y|;
    assert forall k :: 0 <= k < |x| ==> x[k] == text[c + k] == y[k];
  }

  // ---------------------------------------------------------------- the text search

  /** The first place at or after `from` where `needle` occurs, as `str.find`. */
  function Find(text: string, needle: string, from: nat): (r: Option<nat>)
    requires from <= |text|
    ensures r.Some? ==> from <= r.value <= |text| && needle <= text[r.value..]
    ensures forall k :: from <= k < (if r.Some? then r.value else |text|) ==> !(needle <= text[k..])
    decreases |text| - from
  {
    if needle <= text[from..] then Some(from)
    else if from == |text| then None
    else Find(text, needle, from + 1)
  }

  /** `sum(term in lowered for term in terms)`. */
  function MatchedTerms(lowered: string, terms: seq<string>): (n: nat)
    ensures n <= |terms|
  {
    if terms == [] then 0
    else MatchedTerms(lowered, terms[..|terms| - 1]) + (if Find(lowered, terms[|terms| - 1], 0).Some? then 1 else 0)
  }

  function TextScore(lowered: string, terms: seq<string>): real
    requires terms != []
  {
    (MatchedTerms(lowered, terms) as real) / (|terms| as real)
  }

  /** What the text search makes of one paragraph. */
  function TextHit(s: Setting, q: Query, terms: seq<string>, paper: PaperText, r: Range): Option<Hit>
    requires terms != [] && r.start < r.end <= |paper.text|
  {
    var clean := paper.text[r.start..r.end];
    var score := TextScore(s.casefold(clean), terms);
    if MatchedTerms(s.casefold(clean), terms) == 0 then None
    else if |clean| > MAX_CANDIDATE_CHARS then
      Some(InvalidCandidateHit(s, q, paper, clean[..MAX_CANDIDATE_CHARS], TextBaseline, None, None, score,
                               ParagraphTooLong()))
    else Some(ValidCandidate(s, q, paper, r, TextBaseline, None, None, score))
  }

  function FromOption<T>(o: Option<T>): seq<T> {
    if o.Some? then [o.value] else []
  }

  ghost predicate InPaper(paper: PaperText, slices: seq<Range>) {
    forall i :: 0 <= i < |slices| ==> slices[i].start < slices[i].end <= |paper.text|
  }

  lemma ParagraphsInPaper(s: Setting, paper: PaperText)
    ensures InPaper(paper, Paragraphs(paper.text, s.isSpace))
  {
    ParagraphsExact(paper.text, s.isSpace);
  }

  function TextHitsIn(s: Setting, q: Query, terms: seq<string>, paper: PaperText, slices: seq<Range>): seq<Hit>
    requires terms != [] && InPaper(paper, slices)
  {
    if slices == [] then []
    else TextHitsIn(s, q, terms, paper, slices[..|slices| - 1])
         + FromOption(TextHit(s, q, terms, paper, slices[|slices| - 1]))
  }

  /** Everything the text search comes across, in order. */
  function TextStream(s: Setting, q: Query, terms: seq<string>, papers: seq<PaperText>): seq<Hit>
    requires terms != []
  {
    if papers == [] then []
    else
      var paper := papers[|papers| - 1];
      ParagraphsInPaper(s, paper);
      TextStream(s, q, terms, papers[..|papers| - 1])
      + TextHitsIn(s, q, terms, paper, Paragraphs(paper.text, s.isSpace))
  }

  predicate IntentAgrees(q: Query) {
    ParseQueryId(q.id).Some? && ParseQueryId(q.id).value.intent == q.intent
  }

  const MAX_QUERY_CHARS: nat := 4_096
  const MAX_QUERY_UTF8_BYTES: nat := 16_384

  predicate QueryFits(q: Query) {
    |q.text| <= MAX_QUERY_CHARS && |Utf8.Encode(q.text)| <= MAX_QUERY_UTF8_BYTES
  }

  /** No candidate of the stream is refused by its own model. */
  predicate AllFit(stream: seq<Hit>) {
    forall i :: 0 <= i < |stream| ==> MetadataOk(stream[i])
  }

  lemma MisfitStays(part: seq<Hit>, stream: seq<Hit>)
    requires !AllFit(part) && forall h :: h in part ==> h in stream
    ensures !AllFit(stream)
  {
    hide MetadataOk;
    var i :| 0 <= i < |part| && !MetadataOk(part[i]);
    assert part[i] in part;
    var k :| 0 <= k < |stream| && stream[k] == part[i];
  }

  /** A paragraph's candidate is in the stream of its paper. */
  lemma {:induction false} TextHitsHave(s: Setting, q: Query, terms: seq<string>, paper: PaperText, slices: seq<Range>, j: nat)
    requires terms != [] && InPaper(paper, slices) && j < |slices|
    ensures forall h :: TextHit(s, q, terms, paper, slices[j]) == Some(h) ==> h in TextHitsIn(s, q, terms, paper, slices)
  {
    hide TextHit;
    var n := |slices| - 1;
    if j < n {
      TextHitsHave(s, q, terms, paper, slices[..n], j);
    }
  }

  lemma MisfitFound(s: Setting, q: Query, terms: seq<string>, paper: PaperText, slices: seq<Range>, j: nat)
    requires terms != [] && InPaper(paper, slices) && j < |slices|
    requires TextHit(s, q, terms, paper, slices[j]).Some? && !MetadataOk(TextHit(s, q, terms, paper, slices[j]).value)
    ensures !AllFit(TextHitsIn(s, q, terms, paper, slices))
  {
    hide TextHit, MetadataOk;
    var hit := TextHit(s, q, terms, paper, slices[j]).value;
    TextHitsHave(s, q, terms, paper, slices, j);
    assert [hit][0] == hit;
    MisfitStays([hit], TextHitsIn(s, q, terms, paper, slices));
  }

  lemma {:induction false} TextStreamHas(s: Setting, q: Query, terms: seq<string>, papers: seq<PaperText>, i: nat)
    requires terms != [] && i < |papers|
    ensures InPaper(papers[i], Paragraphs(papers[i].text, s.isSpace))
    ensures forall h :: h in TextHitsIn(s, q, terms, papers[i], Paragraphs(papers[i].text, s.isSpace)) ==>
              h in TextStream(s, q, terms, papers)
  {
    hide TextHitsIn, Paragraphs;
    var n := |papers| - 1;
    ParagraphsInPaper(s, papers[i]);
    if i < n {
      TextStreamHas(s, q, terms, papers[..n], i);
    }
  }

  /** `DeterministicTextRetriever._search_with_accounting`; `papers` are the corpus texts by paper. */
  method TextSearch(s: Setting, q: Query, terms: seq<string>, papers: seq<PaperText>, validLimit: nat)
      returns (r: Result<Batch, SearchError>)
    ensures r == (if !(1 <= validLimit <= MAX_TOP_K) then Err(LimitOutOfRange)
                  else if !IntentAgrees(q) then Err(IntentMismatch)
                  else if !QueryFits(q) then Err(QueryTooLong)
                  else if terms == [] then Ok(Batch([], 0, 0))
                  else if !AllFit(TextStream(s, q, terms, papers)) then Err(InvalidCandidate)
                  else Ok(Batched(TextStream(s, q, terms, papers), validLimit)))
  {
    hide ParseQueryId, Batched, TextHit, Paragraphs, Tracks, MetadataOk;
    if !(1 <= validLimit <= MAX_TOP_K) {
      return Err(LimitOutOfRange);
    }
    if ParseQueryId(q.id).None? || ParseQueryId(q.id).value.intent != q.intent {
      return Err(IntentMismatch);
    }
    if |q.text| > MAX_QUERY_CHARS || |Utf8.Encode(q.text)| > MAX_QUERY_UTF8_BYTES {
      return Err(QueryTooLong);
    }
    if terms == [] {
      return Ok(Batch([], 0, 0));
    }
    var valid := new RetainedHits();
    var invalid := new RetainedHits();
    var validSeen, invalidSeen := 0, 0;
    NothingTracked(validLimit, valid, invalid);
    for i := 0 to |papers|
      invariant AllFit(TextStream(s, q, terms, papers[..i]))
      invariant Tracks(TextStream(s, q, terms, papers[..i]), validLimit, valid, invalid, validSeen, invalidSeen)
    {
      assert papers[..i + 1][..i] == papers[..i];
      var fit: bool;
      fit, validSeen, invalidSeen := SearchPaper(s, q, terms, papers[i], validLimit, valid, invalid, validSeen,
                                                 invalidSeen, TextStream(s, q, terms, papers[..i]));
      if !fit {
        TextStreamHas(s, q, terms, papers, i);
        MisfitStays(TextHitsIn(s, q, terms, papers[i], Paragraphs(papers[i].text, s.isSpace)),
                    TextStream(s, q, terms, papers));
        return Err(InvalidCandidate);
      }
    }
    assert papers[..|papers|] == papers;
    var batch := Finish(valid, invalid, validSeen, invalidSeen, TextStream(s, q, terms, papers), validLimit);
    r := Ok(batch);
  }

  lemma NextHit(hit: Option<Hit>, stream: seq<Hit>)
    ensures stream + FromOption(hit) == if hit.Some? then stream + [hit.value] else stream
  {
  }

  lemma NextFits(front: seq<Hit>, hit: Option<Hit>)
    requires AllFit(front) && (hit.Some? ==> MetadataOk(hit.value))
    ensures AllFit(front + FromOption(hit))
  {
    hide MetadataOk;
  }

  /** The search's inner loop over one paper's paragraphs; it ends when a candidate is refused. */
  method SearchPaper(s: Setting, q: Query, terms: seq<string>, paper: PaperText, validLimit: nat,
                     valid: RetainedHits, invalid: RetainedHits, validBefore: nat, invalidBefore: nat,
                     ghost before: seq<Hit>)
      returns (fit: bool, validSeen: nat, invalidSeen: nat)
    requires terms != [] && valid != invalid
    requires Tracks(before, validLimit, valid, invalid, validBefore, invalidBefore)
    modifies valid, invalid
    ensures InPaper(paper, Paragraphs(paper.text, s.isSpace))
    ensures fit == AllFit(TextHitsIn(s, q, terms, paper, Paragraphs(paper.text, s.isSpace)))
    ensures fit ==> Tracks(before + TextHitsIn(s, q, terms, paper, Paragraphs(paper.text, s.isSpace)),
                           validLimit, valid, invalid, validSeen, invalidSeen)
  {
    hide TextHit, Paragraphs, Tracks, MetadataOk, FromOption;
    ParagraphsInPaper(s, paper);
    validSeen, invalidSeen := validBefore, invalidBefore;
    var slices := ParagraphSlices(paper.text, s.isSpace);
    assert before + TextHitsIn(s, q, terms, paper, slices[..0]) == before;
    for j := 0 to |slices|
      invariant AllFit(TextHitsIn(s, q, terms, paper, slices[..j]))
      invariant Tracks(before + TextHitsIn(s, q, terms, paper, slices[..j]), validLimit, valid, invalid,
                       validSeen, invalidSeen)
    {
      assert slices[..j + 1][..j] == slices[..j];
      ghost var stream := before + TextHitsIn(s, q, terms, paper, slices[..j]);
      var hit := TextHit(s, q, terms, paper, slices[j]);
      if hit.Some? {
        if !MetadataOk(hit.value) {
          MisfitFound(s, q, terms, paper, slices, j);
          fit := false;
          return;
        }
        validSeen, invalidSeen := Record(hit.value, validLimit, valid, invalid, validSeen, invalidSeen, stream);
      }
      NextHit(hit, stream);
      NextFits(TextHitsIn(s, q, terms, paper, slices[..j]), hit);
      assert stream + FromOption(hit) == before + TextHitsIn(s, q, terms, paper, slices[..j + 1]);
    }
    assert slices[..|slices|] == slices;
    fit := true;
  }

  lemma NothingTracked(validLimit: nat, valid: RetainedHits, invalid: RetainedHits)
    requires valid.values == invalid.values == []
    ensures Tracks([], validLimit, valid, invalid, 0, 0)
  {
  }

  // ---------------------------------------------------------------- the graph search

  /** One evidence text of a matching graph node, in the order the graph lists them. */
  datatype GraphItem = GraphItem(citekey: string, nodeId: string, relation: string, evidence: string)

  /** The locked papers' texts, and the papers' citation keys in casefolded form. */
  datatype Corpus = Corpus(papers: seq<PaperText>, citekeys: map<string, string>)

  ghost predicate CorpusOk(c: Corpus) {
    && (forall i, j :: 0 <= i < j < |c.papers| ==> c.papers[i].paperId != c.papers[j].paperId)
    && (forall k :: k in c.citekeys ==> PaperIndex(c.papers, c.citekeys[k]) < |c.papers|)
  }

  function PaperIndex(papers: seq<PaperText>, paperId: string): (i: nat)
    ensures i <= |papers|
    ensures i < |papers| ==> papers[i].paperId == paperId
    ensures i == |papers| ==> forall k :: 0 <= k < |papers| ==> papers[k].paperId != paperId
  {
    if papers == [] then 0
    else if papers[0].paperId == paperId then 0
    else 1 + PaperIndex(papers[1..], paperId)
  }

  /** `str.strip`. */
  function Strip(text: string, isSpace: char -> bool): string {
    var r := Segment(text, isSpace, 0, |text|);
    if r == [] then "" else text[r[0].start..r[0].end]
  }

  const GRAPH_SCORE: real := 0.9

  /** Where the text holds `evidence`: nowhere, exactly once, or more often. */
  datatype Occurrence = Absent | Unique(start: nat) | Repeated

  function Occurs(text: string, evidence: string): Occurrence
    requires evidence != ""
  {
    match Find(text, evidence, 0)
    case None => Absent
    case Some(start) => if Find(text, evidence, start + 1).Some? then Repeated else Unique(start)
  }

  /** Building a candidate runs its own checks; one that fails them ends the search. */
  function Built(h: Hit): Result<Hit, SearchError> {
    if MetadataOk(h) then Ok(h) else Err(InvalidCandidate)
  }

  /** What the graph search makes of one evidence text of a known paper. */
  function EvidenceCandidate(s: Setting, q: Query, paper: PaperText, item: GraphItem, evidence: string): Hit
    requires evidence != ""
  {
    var node, relation := Some(item.nodeId), Some(item.relation);
    if |evidence| > MAX_CANDIDATE_CHARS then
      InvalidCandidateHit(s, q, paper, evidence[..MAX_CANDIDATE_CHARS], Graph, node, relation, GRAPH_SCORE, EvidenceTooLong())
    else
      match Occurs(paper.text, evidence)
      case Absent => InvalidCandidateHit(s, q, paper, evidence, Graph, node, relation, GRAPH_SCORE, EvidenceAbsent())
      case Repeated => InvalidCandidateHit(s, q, paper, evidence, Graph, node, relation, GRAPH_SCORE, EvidenceRepeated())
      case Unique(start) =>
        ValidCandidate(s, q, paper, Range(start, start + |evidence|), Graph, node, relation, GRAPH_SCORE)
  }

  /** A node without an identifier makes the candidate's own check fail as well. */
  function GraphHit(s: Setting, q: Query, paper: PaperText, item: GraphItem, evidence: string): Result<Hit, SearchError>
    requires evidence != ""
  {
    if item.nodeId == "" then Err(InvalidCandidate) else Built(EvidenceCandidate(s, q, paper, item, evidence))
  }

  function GraphHits(s: Setting, q: Query, c: Corpus, item: GraphItem): Result<seq<Hit>, SearchError> {
    var citekey := s.casefold(item.citekey);
    if citekey !in c.citekeys then Ok([])
    else
      var i := PaperIndex(c.papers, c.citekeys[citekey]);
      var evidence := Strip(item.evidence, s.isSpace);
      if i == |c.papers| || evidence == "" then Ok([])
      else
        match GraphHit(s, q, c.papers[i], item, evidence)
        case Err(e) => Err(e)
        case Ok(h) => Ok([h])
  }

  /** Everything the graph search comes across, in order. */
  function GraphStream(s: Setting, q: Query, c: Corpus, items: seq<GraphItem>): Result<seq<Hit>, SearchError> {
    if items == [] then Ok([])
    else
      match GraphStream(s, q, c, items[..|items| - 1])
      case Err(e) => Err(e)
      case Ok(front) =>
        match GraphHits(s, q, c, items[|items| - 1])
        case Err(e) => Err(e)
        case Ok(hits) => Ok(front + hits)
  }

  lemma {:induction false} GraphStreamFailsEarly(s: Setting, q: Query, c: Corpus, items: seq<GraphItem>, i: nat)
    requires i <= |items| && GraphStream(s, q, c, items[..i]).Err?
    ensures GraphStream(s, q, c, items) == GraphStream(s, q, c, items[..i])
  {
    hide GraphHits;
    if i == |items| {
      assert items[..i] == items;
    } else {
      assert items[..|items| - 1][..i] == items[..i];
      GraphStreamFailsEarly(s, q, c, items[..|items| - 1], i);
    }
  }

  /** `GraphAssistedRetriever._search_with_accounting`; `items` are the evidence texts of the nodes
      that match every query term. */
  method GraphSearch(s: Setting, q: Query, terms: seq<string>, c: Corpus, items: seq<GraphItem>, validLimit: nat)
      returns (r: Result<Batch, SearchError>)
    ensures r == (if !(1 <= validLimit <= MAX_TOP_K) then Err(LimitOutOfRange)
                  else if !IntentAgrees(q) then Err(IntentMismatch)
                  else if !QueryFits(q) then Err(QueryTooLong)
                  else if terms == [] then Ok(Batch([], 0, 0))
                  else
                    match GraphStream(s, q, c, items)
                    case Err(e) => Err(e)
                    case Ok(stream) => Ok(Batched(stream, validLimit)))
  {
    hide ParseQueryId, Batched, GraphHits, Tracks, HitsOf;
    if !(1 <= validLimit <= MAX_TOP_K) {
      return Err(LimitOutOfRange);
    }
    if ParseQueryId(q.id).None? || ParseQueryId(q.id).value.intent != q.intent {
      return Err(IntentMismatch);
    }
    if |q.text| > MAX_QUERY_CHARS || |Utf8.Encode(q.text)| > MAX_QUERY_UTF8_BYTES {
      return Err(QueryTooLong);
    }
    if terms == [] {
      return Ok(Batch([], 0, 0));
    }
    var valid := new RetainedHits();
    var invalid := new RetainedHits();
    var validSeen, invalidSeen := 0, 0;
    NothingTracked(validLimit, valid, invalid);
    ghost var stream := [];
    for i := 0 to |items|
      invariant GraphStream(s, q, c, items[..i]) == Ok(stream)
      invariant Tracks(stream, validLimit, valid, invalid, validSeen, invalidSeen)
    {
      assert items[..i + 1][..i] == items[..i];
      var hits := GraphHits(s, q, c, items[i]);
      if hits.Err? {
        GraphStreamFailsEarly(s, q, c, items, i + 1);
        return Err(hits.error);
      }
      GraphHitsAtMostOne(s, q, c, items[i]);
      if hits.value != [] {
        validSeen, invalidSeen := Record(hits.value[0], validLimit, valid, invalid, validSeen, invalidSeen, stream);
      }
      assert hits.value == [] ==> stream + hits.value == stream;
      stream := stream + hits.value;
    }
    assert items[..|items|] == items;
    var batch := Finish(valid, invalid, validSeen, invalidSeen, stream, validLimit);
    r := Ok(batch);
  }

  lemma GraphHitsAtMostOne(s: Setting, q: Query, c: Corpus, item: GraphItem)
    ensures GraphHits(s, q, c, item).Ok? ==>
              var h := GraphHits(s, q, c, item).value; h == [] || h == [h[0]]
  {
  }

  // ---------------------------------------------------------------- what the backends emit

  /** A candidate as a backend builds it from one paper of the corpus: every field that identifies
      it agrees with that paper and the query, and a valid one is an exact slice. */
  ghost predicate Emitted(s: Setting, q: Query, papers: seq<PaperText>, origin: Origin, h: Hit) {
    var i := PaperIndex(papers, h.paperId);
    && i < |papers| && h.origin == origin
    && h.key == CandidateKey(s, q, papers[i], h.sourceText, h.start, h.end, origin)
    && h.rawMdPath == papers[i].rawMdPath
    && h.queryId == q.id && h.queryTextHash == QueryTextHash(s, q) && h.intent == q.intent
    && (if h.isValid then
          && h.start.Some? && h.end.Some? && h.start.value < h.end.value <= |papers[i].text|
          && h.sourceText == papers[i].text[h.start.value..h.end.value]
          && h.spanHash == Some(s.digest(TextBytes(h.sourceText)))
        else h.start.None? && h.end.None?)
    && HitOk(s.digest, h)
  }

  ghost predicate AllEmitted(s: Setting, q: Query, papers: seq<PaperText>, origin: Origin, stream: seq<Hit>) {
    forall i :: 0 <= i < |stream| ==> Emitted(s, q, papers, origin, stream[i])
  }

  /** Provenance fields that a candidate of this origin must have. */
  predicate ProvenanceFields(origin: Origin, nodeId: Option<string>, relation: Option<string>) {
    if origin.TextBaseline? then nodeId.None? && relation.None? else nodeId.Some? && relation.Some?
  }

  lemma ValidCandidateEmitted(s: Setting, q: Query, papers: seq<PaperText>, i: nat, span: Range, origin: Origin,
                              nodeId: Option<string>, relation: Option<string>, score: real)
    requires i < |papers| && PaperIndex(papers, papers[i].paperId) == i && IntentAgrees(q)
    requires span.start < span.end <= |papers[i].text| && span.end - span.start <= MAX_CONTEXT_CHARS
    requires 0.0 <= score <= 1.0 && ProvenanceFields(origin, nodeId, relation)
    requires MetadataOk(ValidCandidate(s, q, papers[i], span, origin, nodeId, relation, score))
    ensures Emitted(s, q, papers, origin, ValidCandidate(s, q, papers[i], span, origin, nodeId, relation, score))
  {
    ValidCandidateOk(s, q, papers[i], span, origin, nodeId, relation, score);
    hide ParseQueryId, WindowContext, HitOk, PaperIndex, MetadataOk;
  }

  lemma InvalidCandidateEmitted(s: Setting, q: Query, papers: seq<PaperText>, i: nat, text: string, origin: Origin,
                                nodeId: Option<string>, relation: Option<string>, score: real, error: string)
    requires i < |papers| && PaperIndex(papers, papers[i].paperId) == i && IntentAgrees(q)
    requires 1 <= |text| <= MAX_CANDIDATE_CHARS && error != ""
    requires 0.0 <= score <= 1.0 && ProvenanceFields(origin, nodeId, relation)
    requires MetadataOk(InvalidCandidateHit(s, q, papers[i], text, origin, nodeId, relation, score, error))
    ensures Emitted(s, q, papers, origin, InvalidCandidateHit(s, q, papers[i], text, origin, nodeId, relation, score, error))
  {
    hide ParseQueryId, PaperIndex, CandidateKey, QueryTextHash, MetadataOk;
  }

  lemma TextHitEmitted(s: Setting, q: Query, terms: seq<string>, papers: seq<PaperText>, i: nat, r: Range)
    requires terms != [] && i < |papers| && PaperIndex(papers, papers[i].paperId) == i && IntentAgrees(q)
    requires r.start < r.end <= |papers[i].text| && TextHit(s, q, terms, papers[i], r).Some?
    requires MetadataOk(TextHit(s, q, terms, papers[i], r).value)
    ensures Emitted(s, q, papers, TextBaseline, TextHit(s, q, terms, papers[i], r).value)
  {
    hide Emitted, ValidCandidate, InvalidCandidateHit, IntentAgrees, MatchedTerms, ParagraphTooLong, PaperIndex, MetadataOk;
    var clean := papers[i].text[r.start..r.end];
    var score := TextScore(s.casefold(clean), terms);
    if |clean| <= MAX_CANDIDATE_CHARS {
      ValidCandidateEmitted(s, q, papers, i, r, TextBaseline, None, None, score);
    } else {
      InvalidCandidateEmitted(s, q, papers, i, clean[..MAX_CANDIDATE_CHARS], TextBaseline, None, None, score,
                              ParagraphTooLong());
    }
  }

  lemma GraphHitEmitted(s: Setting, q: Query, papers: seq<PaperText>, i: nat, item: GraphItem, evidence: string)
    requires evidence != "" && i < |papers| && PaperIndex(papers, papers[i].paperId) == i && IntentAgrees(q)
    requires GraphHit(s, q, papers[i], item, evidence).Ok?
    ensures Emitted(s, q, papers, Graph, GraphHit(s, q, papers[i], item, evidence).value)
  {
    hide Emitted, ValidCandidate, InvalidCandidateHit, IntentAgrees, EvidenceTooLong, EvidenceAbsent, EvidenceRepeated,
      PaperIndex, Find, MetadataOk;
    var node, relation := Some(item.nodeId), Some(item.relation);
    if |evidence| > MAX_CANDIDATE_CHARS {
      InvalidCandidateEmitted(s, q, papers, i, evidence[..MAX_CANDIDATE_CHARS], Graph, node, relation, GRAPH_SCORE,
                              EvidenceTooLong());
    } else {
      var at := Occurs(papers[i].text, evidence);
      match at {
        case Absent => InvalidCandidateEmitted(s, q, papers, i, evidence, Graph, node, relation, GRAPH_SCORE, EvidenceAbsent());
        case Repeated => InvalidCandidateEmitted(s, q, papers, i, evidence, Graph, node, relation, GRAPH_SCORE, EvidenceRepeated());
        case Unique(start) =>
          ValidCandidateEmitted(s, q, papers, i, Range(start, start + |evidence|), Graph, node, relation, GRAPH_SCORE);
      }
    }
  }

  lemma {:induction false} TextHitsEmitted(s: Setting, q: Query, terms: seq<string>, papers: seq<PaperText>, i: nat, slices: seq<Range>)
    requires terms != [] && i < |papers| && PaperIndex(papers, papers[i].paperId) == i && IntentAgrees(q)
    requires InPaper(papers[i], slices) && AllFit(TextHitsIn(s, q, terms, papers[i], slices))
    ensures AllEmitted(s, q, papers, TextBaseline, TextHitsIn(s, q, terms, papers[i], slices))
  {
    hide TextHit, Emitted, IntentAgrees, PaperIndex, MetadataOk;
    if slices != [] {
      var n := |slices| - 1;
      FrontFits(TextHitsIn(s, q, terms, papers[i], slices[..n]), FromOption(TextHit(s, q, terms, papers[i], slices[n])));
      TextHitsEmitted(s, q, terms, papers, i, slices[..n]);
      var hit := TextHit(s, q, terms, papers[i], slices[n]);
      if hit.Some? {
        assert MetadataOk(FromOption(hit)[0]);
        TextHitEmitted(s, q, terms, papers, i, slices[n]);
      }
    }
  }

  lemma FrontFits(front: seq<Hit>, back: seq<Hit>)
    requires AllFit(front + back)
    ensures AllFit(front) && AllFit(back)
  {
    hide MetadataOk;
    forall i | 0 <= i < |front| ensures MetadataOk(front[i]) {
      assert (front + back)[i] == front[i];
    }
    forall i | 0 <= i < |back| ensures MetadataOk(back[i]) {
      assert (front + back)[|front| + i] == back[i];
    }
  }

  lemma {:induction false} TextStreamEmitted(s: Setting, q: Query, terms: seq<string>, papers: seq<PaperText>, n: nat)
    requires terms != [] && IntentAgrees(q) && n <= |papers| && AllFit(TextStream(s, q, terms, papers[..n]))
    requires forall i, j :: 0 <= i < j < |papers| ==> papers[i].paperId != papers[j].paperId
    ensures AllEmitted(s, q, papers, TextBaseline, TextStream(s, q, terms, papers[..n]))
  {
    hide IntentAgrees, Emitted, TextHitsIn, Paragraphs, PaperIndex, AllFit;
    if n > 0 {
      assert papers[..n][..n - 1] == papers[..n - 1];
      var paper := papers[n - 1];
      ParagraphsInPaper(s, paper);
      FrontFits(TextStream(s, q, terms, papers[..n - 1]), TextHitsIn(s, q, terms, paper, Paragraphs(paper.text, s.isSpace)));
      TextStreamEmitted(s, q, terms, papers, n - 1);
      TextHitsEmitted(s, q, terms, papers, n - 1, Paragraphs(paper.text, s.isSpace));
    }
  }

  lemma GraphHitsEmitted(s: Setting, q: Query, c: Corpus, item: GraphItem)
    requires IntentAgrees(q) && CorpusOk(c)
    ensures GraphHits(s, q, c, item).Ok? ==> AllEmitted(s, q, c.papers, Graph, GraphHits(s, q, c, item).value)
  {
    hide Emitted, IntentAgrees, GraphHit, Strip, PaperIndex;
    if GraphHits(s, q, c, item).Ok? && GraphHits(s, q, c, item).value != [] {
      var i := PaperIndex(c.papers, c.citekeys[s.casefold(item.citekey)]);
      GraphHitEmitted(s, q, c.papers, i, item, Strip(item.evidence, s.isSpace));
    }
  }

  lemma {:induction false} GraphStreamEmitted(s: Setting, q: Query, c: Corpus, items: seq<GraphItem>)
    requires IntentAgrees(q) && CorpusOk(c) && GraphStream(s, q, c, items).Ok?
    ensures AllEmitted(s, q, c.papers, Graph, GraphStream(s, q, c, items).value)
  {
    hide Emitted, IntentAgrees, GraphHits, CorpusOk;
    if items != [] {
      var n := |items| - 1;
      GraphHitsEmitted(s, q, c, items[n]);
      GraphStreamEmitted(s, q, c, items[..n]);
    }
  }
}
