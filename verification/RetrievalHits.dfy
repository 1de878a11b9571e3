/** Runtime retrieval candidates, the checks on them and the orders they are ranked by
    (library/retrieval.py). */
module RetrievalHits {
  import opened Basics
  import opened Ids
  import opened Ordering
  import SourceText

  const MAX_TOP_K: nat := 100
  const MAX_CANDIDATE_CHARS: nat := 16_384
  const MAX_INVALID_DIAGNOSTICS: nat := 100
  const MAX_LEDGER_METADATA_CHARS: nat := 4_096

  datatype Origin = Graph | TextBaseline | Both

  /** What is hashed: a text's UTF-8 bytes, or the identity of a candidate. */
  datatype Preimage =
    | TextBytes(text: string)
    | CandidateIdentity(paperId: string, rawMdHash: string, queryId: string, queryTextHash: string,
                        sourceText: string, start: Option<nat>, end: Option<nat>, origin: Origin)

  /** SHA-256 as a lower-case identifier. */
  type Digest = Preimage -> string

  ghost predicate CollisionFree(digest: Digest) {
    forall x, y :: digest(x) == digest(y) ==> x == y
  }

  datatype Context = Context(text: string, start: nat, end: nat, utf8Hash: string)

  datatype Hit = Hit(
    key: string, paperId: string, rawMdPath: string, queryId: string, queryTextHash: string,
    intent: RetrievalIntent, origin: Origin, sourceText: string, start: Option<nat>, end: Option<nat>,
    spanHash: Option<string>, context: Option<Context>, section: Option<string>,
    nodeId: Option<string>, relation: Option<string>, score: real, isValid: bool, error: Option<string>)

  // ---------------------------------------------------------------- model checks

  predicate OffsetsOk(h: Hit) {
    && (h.start.Some? <==> h.end.Some?)
    && (h.start.Some? ==> h.start.value < h.end.value)
  }

  predicate ContextOk(digest: Digest, h: Hit)
    requires h.start.Some? && h.end.Some?
  {
    && h.context.Some?
    && var c := h.context.value;
       && c.start <= h.start.value < h.end.value <= c.end
       && c.end - c.start == |c.text| <= SourceText.MAX_CONTEXT_CHARS
       && c.text[h.start.value - c.start..h.end.value - c.start] == h.sourceText
       && c.utf8Hash == digest(TextBytes(c.text))
  }

  predicate ProvenanceOk(h: Hit) {
    if h.origin.TextBaseline? then h.nodeId.None? && h.relation.None? else h.nodeId.Some? && h.relation.Some?
  }

  predicate Fits(field: Option<string>) {
    field.Some? ==> |field.value| <= MAX_LEDGER_METADATA_CHARS
  }

  /** The length bounds on the fields that a candidate takes from the corpus and the graph. */
  predicate MetadataOk(h: Hit) {
    && 1 <= |h.rawMdPath| <= MAX_LEDGER_METADATA_CHARS
    && Fits(h.section) && Fits(h.nodeId) && Fits(h.relation) && Fits(h.error)
  }

  /** `RawCandidateHit._validate_runtime_candidate` and the bounds on its fields. */
  predicate HitOk(digest: Digest, h: Hit) {
    && MetadataOk(h)
    && 1 <= |h.sourceText| <= MAX_CANDIDATE_CHARS && 0.0 <= h.score <= 1.0
    && ParseQueryId(h.queryId).Some? && ParseQueryId(h.queryId).value.intent == h.intent
    && OffsetsOk(h)
    && (if h.isValid then
          && h.start.Some? && h.error.None?
          && h.end.value - h.start.value == |h.sourceText|
          && h.spanHash == Some(digest(TextBytes(h.sourceText)))
          && ContextOk(digest, h)
        else h.error.Some? && h.error.value != "" && h.context.None?)
    && ProvenanceOk(h)
  }

  // ---------------------------------------------------------------- ranking

  /** `_valid_hit_order_key`: score descending, then paper, start offset and candidate key. */
  predicate RankLeq(a: Hit, b: Hit) {
    a.score > b.score || (a.score == b.score &&
      LexThen(a.paperId, b.paperId, StartOf(a) < StartOf(b) || (StartOf(a) == StartOf(b) && LexLeq(a.key, b.key))))
  }

  function StartOf(h: Hit): nat {
    h.start.GetOr(0)
  }

  /** The order the backends keep invalid candidates in. */
  predicate DiagnosticLeq(a: Hit, b: Hit) {
    a.score > b.score || (a.score == b.score && LexThen(a.paperId, b.paperId, LexLeq(a.key, b.key)))
  }

  /** `_invalid_hit_order_key`. */
  predicate InvalidLeq(a: Hit, b: Hit) {
    a.score > b.score || (a.score == b.score &&
      LexThen(a.paperId, b.paperId, LexThen(a.key, b.key,
        LexThen(a.nodeId.GetOr(""), b.nodeId.GetOr(""), LexThen(a.relation.GetOr(""), b.relation.GetOr(""),
          LexLeq(a.error.GetOr(""), b.error.GetOr("")))))))
  }

  lemma RankIsTotal()
    ensures IsTotalPreorder(RankLeq)
  {
    forall a: Hit, b: Hit ensures RankLeq(a, b) || RankLeq(b, a) {
      LexTrichotomy(a.paperId, b.paperId);
      LexTotal(a.key, b.key);
    }
    forall a: Hit, b: Hit, c: Hit | RankLeq(a, b) && RankLeq(b, c) ensures RankLeq(a, c) {
      LexLessTransitive(a.paperId, b.paperId, c.paperId);
      if LexLeq(a.key, b.key) && LexLeq(b.key, c.key) {
        LexTransitive(a.key, b.key, c.key);
      }
    }
  }

  lemma DiagnosticIsTotal()
    ensures IsTotalPreorder(DiagnosticLeq)
  {
    forall a: Hit, b: Hit ensures DiagnosticLeq(a, b) || DiagnosticLeq(b, a) {
      LexTrichotomy(a.paperId, b.paperId);
      LexTotal(a.key, b.key);
    }
    forall a: Hit, b: Hit, c: Hit | DiagnosticLeq(a, b) && DiagnosticLeq(b, c) ensures DiagnosticLeq(a, c) {
      LexLessTransitive(a.paperId, b.paperId, c.paperId);
      if LexLeq(a.key, b.key) && LexLeq(b.key, c.key) {
        LexTransitive(a.key, b.key, c.key);
      }
    }
  }

  lemma InvalidIsTotal()
    ensures IsTotalPreorder(InvalidLeq)
  {
    forall a: Hit, b: Hit ensures InvalidLeq(a, b) || InvalidLeq(b, a) {
      LexTrichotomy(a.paperId, b.paperId);
      LexTrichotomy(a.key, b.key);
      LexTrichotomy(a.nodeId.GetOr(""), b.nodeId.GetOr(""));
      LexTrichotomy(a.relation.GetOr(""), b.relation.GetOr(""));
      LexTotal(a.error.GetOr(""), b.error.GetOr(""));
    }
    forall a: Hit, b: Hit, c: Hit | InvalidLeq(a, b) && InvalidLeq(b, c) ensures InvalidLeq(a, c) {
      LexLessTransitive(a.paperId, b.paperId, c.paperId);
      LexLessTransitive(a.key, b.key, c.key);
      LexLessTransitive(a.nodeId.GetOr(""), b.nodeId.GetOr(""), c.nodeId.GetOr(""));
      LexLessTransitive(a.relation.GetOr(""), b.relation.GetOr(""), c.relation.GetOr(""));
      var x, y, z := a.error.GetOr(""), b.error.GetOr(""), c.error.GetOr("");
      if LexLeq(x, y) && LexLeq(y, z) {
        LexTransitive(x, y, z);
      }
    }
  }

  // ---------------------------------------------------------------- validity classes

  /** The hits whose validity flag is `valid`, in order. */
  function HitsOf(s: seq<Hit>, valid: bool): seq<Hit> {
    if s == [] then []
    else HitsOf(s[..|s| - 1], valid) + (if s[|s| - 1].isValid == valid then [s[|s| - 1]] else [])
  }

  lemma {:induction false} HitsOfMembers(s: seq<Hit>, valid: bool)
    ensures forall h :: h in HitsOf(s, valid) <==> h in s && h.isValid == valid
  {
    if s != [] {
      HitsOfMembers(s[..|s| - 1], valid);
      assert s == s[..|s| - 1] + [s[|s| - 1]];
    }
  }

  lemma {:induction false} HitsOfConcat(a: seq<Hit>, b: seq<Hit>, valid: bool)
    ensures HitsOf(a + b, valid) == HitsOf(a, valid) + HitsOf(b, valid)
  {
    if b == [] {
      assert a + b == a;
    } else {
      assert (a + b)[..|a + b| - 1] == a + b[..|b| - 1];
      HitsOfConcat(a, b[..|b| - 1], valid);
    }
  }

  lemma {:induction false} HitsOfUniform(s: seq<Hit>, valid: bool)
    requires forall h :: h in s ==> h.isValid == valid
    ensures HitsOf(s, valid) == s && HitsOf(s, !valid) == []
  {
    if s != [] {
      HitsOfUniform(s[..|s| - 1], valid);
      assert s == s[..|s| - 1] + [s[|s| - 1]];
    }
  }

  lemma {:induction false} HitsOfCount(s: seq<Hit>)
    ensures |HitsOf(s, true)| + |HitsOf(s, false)| == |s|
  {
    if s != [] {
      HitsOfCount(s[..|s| - 1]);
    }
  }
}
