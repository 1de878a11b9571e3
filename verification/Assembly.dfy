/** Exact assembly of the audited sentences and its verification (runtime/artifacts.py). */
module Assembly {
  import opened AssemblyLayout
  import opened Basics
  import opened Ids
  import opened Lookup
  import opened Ordering
  import opened ProseChecks
  import opened RetrievalChecks
  import opened Snapshots
  import opened Tallies
  import opened Utf8
  import opened Validators

  datatype Budget = Budget(maxSentences: nat, maxCitations: nat, maxBytes: nat)

  datatype SentenceRecord = SentenceRecord(sentenceId: string, textHash: string, propositionIds: seq<string>, extent: Extent)

  datatype CitationRecord = CitationRecord(
    sentenceId: string, propositionId: string, paperId: string, claimId: string, cpeId: string)

  datatype AssemblyRecord = AssemblyRecord(
    sourceGeneration: nat, repositoryHash: string, budget: Budget, sentences: seq<SentenceRecord>,
    citations: seq<CitationRecord>, bodyHash: string, bodySize: nat)

  datatype AssemblyError =
    | RepositoryInvalid | NoSentences | TooManySentences | InvalidSentenceId | ForbiddenMarker | RepeatedProposition
    | DuplicateCitation | TooManyCitations | EmptyRange | BodyTooLarge
    | SentenceAuditMissing | UnknownProposition | PropositionAuditMissing
    | BodyDiffers | RecordDiffers

  /** The digests the record holds: of a claim's text, of bytes, and of the whole snapshot. */
  datatype Hashes = Hashes(claim: ClaimHash, bytes: Bytes -> string, snapshot: Snapshot -> string)

  // ---------------------------------------------------------------- sentences in order

  /** `_sentence_number`, for identifiers that have one. */
  function NumberOf(id: string): nat {
    SentenceNumber(id).GetOr(0)
  }

  predicate NumberLeq(a: string, b: string) {
    NumberOf(a) <= NumberOf(b)
  }

  function SentenceIds(xs: seq<Sentence>): (r: seq<string>)
    ensures |r| == |xs| && forall i :: 0 <= i < |r| ==> r[i] == xs[i].sentenceId
  {
    seq(|xs|, i requires 0 <= i < |xs| => xs[i].sentenceId)
  }

  /** The sentences under their identifiers, in the given order. */
  function SentencesOf(ids: seq<string>, byId: map<string, Sentence>): (r: seq<Sentence>)
    requires forall id :: id in ids ==> id in byId
    ensures |r| == |ids| && forall i :: 0 <= i < |r| ==> r[i] == byId[ids[i]]
  {
    seq(|ids|, i requires 0 <= i < |ids| => byId[ids[i]])
  }

  /** All current sentences by ascending number. */
  ghost function Ordered(s: Snapshot): seq<Sentence> {
    var ids := StableSort(NumberLeq, SentenceIds(s.sentences));
    if forall id :: id in ids ==> id in ById(s.sentences, SentenceIdOf)
    then SentencesOf(ids, ById(s.sentences, SentenceIdOf)) else []
  }

  lemma IdsKnown(s: Snapshot)
    ensures forall id :: id in StableSort(NumberLeq, SentenceIds(s.sentences)) ==> id in ById(s.sentences, SentenceIdOf)
  {
    hide NumberLeq, ById;
    var ids := SentenceIds(s.sentences);
    SortSame(NumberLeq, ids);
    forall id | id in ids ensures id in ById(s.sentences, SentenceIdOf) {
      var i :| 0 <= i < |ids| && ids[i] == id;
      ByIdHas(s.sentences, SentenceIdOf, s.sentences[i]);
    }
  }

  /** The order is a permutation of the sentences, ascending in their numbers. */
  lemma OrderedIsSorted(s: Snapshot)
    requires UniqueIds(s.sentences, SentenceIdOf)
    ensures multiset(SentenceIds(Ordered(s))) == multiset(SentenceIds(s.sentences))
    ensures |Ordered(s)| == |s.sentences|
    ensures forall x :: x in Ordered(s) <==> x in s.sentences
    ensures forall i, j :: 0 <= i < j < |Ordered(s)| ==> NumberOf(Ordered(s)[i].sentenceId) <= NumberOf(Ordered(s)[j].sentenceId)
  {
    hide ById, NumberOf;
    IdsKnown(s);
    var ids := StableSort(NumberLeq, SentenceIds(s.sentences));
    SortSorted(NumberLeq, SentenceIds(s.sentences));
    var ordered := Ordered(s);
    forall i | 0 <= i < |ordered| ensures ordered[i].sentenceId == ids[i] && ordered[i] in s.sentences {
      ByIdMember(s.sentences, SentenceIdOf, ids[i]);
    }
    assert SentenceIds(ordered) == ids;
    SortSame(NumberLeq, SentenceIds(s.sentences));
    forall x | x in s.sentences ensures x in ordered {
      SentenceListed(s, x);
      var i :| 0 <= i < |ids| && ids[i] == x.sentenceId;
      ByIdFinds(s.sentences, SentenceIdOf, x);
      assert ordered[i] == x;
    }
  }

  lemma SentenceListed(s: Snapshot, x: Sentence)
    requires x in s.sentences
    ensures x.sentenceId in StableSort(NumberLeq, SentenceIds(s.sentences))
  {
    hide NumberLeq;
    SortSame(NumberLeq, SentenceIds(s.sentences));
    var i :| 0 <= i < |s.sentences| && s.sentences[i] == x;
    assert SentenceIds(s.sentences)[i] == x.sentenceId;
  }

  // ---------------------------------------------------------------- citations

  function CitationsFrom(sentenceId: string, propositionId: string, citations: seq<Citation>): (r: seq<CitationRecord>)
    ensures |r| == |citations|
    ensures forall i :: 0 <= i < |r| ==>
              r[i] == CitationRecord(sentenceId, propositionId, citations[i].paperId, citations[i].claimId, citations[i].cpeId)
  {
    seq(|citations|, i requires 0 <= i < |citations| =>
      CitationRecord(sentenceId, propositionId, citations[i].paperId, citations[i].claimId, citations[i].cpeId))
  }

  /** The citations behind one sentence: those of its propositions, in order. */
  function SentenceCitations(sentenceId: string, ids: seq<string>, propositions: map<string, Proposition>): seq<CitationRecord> {
    if ids == [] then []
    else
      var n := |ids| - 1;
      SentenceCitations(sentenceId, ids[..n], propositions)
      + if ids[n] in propositions then CitationsFrom(sentenceId, ids[n], propositions[ids[n]].citations) else []
  }

  function AllCitations(xs: seq<Sentence>, propositions: map<string, Proposition>): seq<CitationRecord> {
    if xs == [] then []
    else
      var n := |xs| - 1;
      AllCitations(xs[..n], propositions) + SentenceCitations(xs[n].sentenceId, xs[n].propositionIds, propositions)
  }

  /** The order of the record: by sentence number, then by the identifiers. */
  predicate CitationLeq(a: CitationRecord, b: CitationRecord) {
    NumberOf(a.sentenceId) < NumberOf(b.sentenceId)
    || (NumberOf(a.sentenceId) == NumberOf(b.sentenceId)
        && LexThen(a.propositionId, b.propositionId,
                   LexThen(a.paperId, b.paperId, LexThen(a.claimId, b.claimId, LexLeq(a.cpeId, b.cpeId)))))
  }

  lemma ThenTotal(a: string, b: string, ab: bool, ba: bool)
    requires ab || ba
    ensures LexThen(a, b, ab) || LexThen(b, a, ba)
  {
    LexTrichotomy(a, b);
  }

  lemma ThenTransitive(a: string, b: string, c: string, ab: bool, bc: bool, ac: bool)
    requires ab && bc ==> ac
    ensures LexThen(a, b, ab) && LexThen(b, c, bc) ==> LexThen(a, c, ac)
  {
    LexLessTransitive(a, b, c);
  }

  lemma CitationIsTotal()
    ensures IsTotalPreorder(CitationLeq)
  {
    forall a: CitationRecord, b: CitationRecord ensures CitationLeq(a, b) || CitationLeq(b, a) {
      CitationTotal(a, b);
    }
    forall a: CitationRecord, b: CitationRecord, c: CitationRecord | CitationLeq(a, b) && CitationLeq(b, c)
      ensures CitationLeq(a, c)
    {
      CitationTransitive(a, b, c);
    }
  }

  lemma CitationTotal(a: CitationRecord, b: CitationRecord)
    ensures CitationLeq(a, b) || CitationLeq(b, a)
  {
    hide LexLeq, LexThen, NumberOf;
    LexTotal(a.cpeId, b.cpeId);
    var r1, r2 := LexLeq(a.cpeId, b.cpeId), LexLeq(b.cpeId, a.cpeId);
    ThenTotal(a.claimId, b.claimId, r1, r2);
    ThenTotal(a.paperId, b.paperId, LexThen(a.claimId, b.claimId, r1), LexThen(b.claimId, a.claimId, r2));
    ThenTotal(a.propositionId, b.propositionId, LexThen(a.paperId, b.paperId, LexThen(a.claimId, b.claimId, r1)),
              LexThen(b.paperId, a.paperId, LexThen(b.claimId, a.claimId, r2)));
  }

  lemma CitationTransitive(a: CitationRecord, b: CitationRecord, c: CitationRecord)
    requires CitationLeq(a, b) && CitationLeq(b, c)
    ensures CitationLeq(a, c)
  {
    hide LexLeq, LexThen, NumberOf;
    var r1, r2, r3 := LexLeq(a.cpeId, b.cpeId), LexLeq(b.cpeId, c.cpeId), LexLeq(a.cpeId, c.cpeId);
    if r1 && r2 {
      LexTransitive(a.cpeId, b.cpeId, c.cpeId);
    }
    ThenTransitive(a.claimId, b.claimId, c.claimId, r1, r2, r3);
    var s1, s2, s3 := LexThen(a.claimId, b.claimId, r1), LexThen(b.claimId, c.claimId, r2), LexThen(a.claimId, c.claimId, r3);
    ThenTransitive(a.paperId, b.paperId, c.paperId, s1, s2, s3);
    ThenTransitive(a.propositionId, b.propositionId, c.propositionId, LexThen(a.paperId, b.paperId, s1),
                   LexThen(b.paperId, c.paperId, s2), LexThen(a.paperId, c.paperId, s3));
  }

  // ---------------------------------------------------------------- what assembly accepts and produces

  function Texts(xs: seq<Sentence>): (r: seq<string>)
    ensures |r| == |xs| && forall i :: 0 <= i < |r| ==> r[i] == xs[i].text
  {
    seq(|xs|, i requires 0 <= i < |xs| => xs[i].text)
  }

  /** A carriage return, a line feed or a zero occurs. */
  predicate Marked(text: string)
    ensures Marked(text) <==> exists i :: 0 <= i < |text| && (text[i] as int == 13 || text[i] as int == 10 || text[i] as int == 0)
  {
    '\r' in text || '\n' in text || '\0' in text
  }

  predicate SentenceFits(x: Sentence) {
    !Marked(x.text) && NoRepeats(x.propositionIds) && x.text != ""
  }

  function RecordOf(x: Sentence, extent: Extent, h: Hashes): SentenceRecord {
    SentenceRecord(x.sentenceId, h.bytes(Encode(x.text)), x.propositionIds, extent)
  }

  function Records(xs: seq<Sentence>, h: Hashes): (r: seq<SentenceRecord>)
    ensures |r| == |xs| && forall i :: 0 <= i < |r| ==> r[i] == RecordOf(xs[i], ExtentOf(Texts(xs), i), h)
  {
    seq(|xs|, i requires 0 <= i < |xs| => RecordOf(xs[i], ExtentOf(Texts(xs), i), h))
  }

  ghost predicate CitationsFit(all: seq<CitationRecord>, b: Budget) {
    Distinct(all) && |all| <= b.maxCitations
  }

  /** The snapshots that can be assembled within a budget. */
  ghost predicate Assemblable(s: Snapshot, b: Budget, h: Hashes) {
    && RepositoryClean(s, h.claim)
    && 0 < |Ordered(s)| <= b.maxSentences
    && (forall x :: x in s.sentences ==> SentenceNumber(x.sentenceId).Some?)
    && (forall x :: x in Ordered(s) ==> SentenceFits(x))
    && CitationsFit(AllCitations(Ordered(s), ById(s.propositions, PropositionIdOf)), b)
    && |Body(Texts(Ordered(s)))| <= b.maxBytes
  }

  ghost function Assembled(s: Snapshot, generation: nat, b: Budget, h: Hashes): (Bytes, AssemblyRecord) {
    var body := Body(Texts(Ordered(s)));
    (body, AssemblyRecord(generation, h.snapshot(s), b, Records(Ordered(s), h),
                          StableSort(CitationLeq, AllCitations(Ordered(s), ById(s.propositions, PropositionIdOf))),
                          h.bytes(body), |body|))
  }

  // ---------------------------------------------------------------- the loops

  /** The innermost loop: the citations of one proposition. */
  method CollectProposition(sentenceId: string, propositionId: string, citations: seq<Citation>, before: seq<CitationRecord>,
                            b: Budget)
    returns (records: seq<CitationRecord>, fault: Option<AssemblyError>)
    requires CitationsFit(before, b)
    ensures fault.None? <==> CitationsFit(before + CitationsFrom(sentenceId, propositionId, citations), b)
    ensures fault.None? ==> records == before + CitationsFrom(sentenceId, propositionId, citations)
    ensures fault.Some? ==> fault.value.DuplicateCitation? || fault.value.TooManyCitations?
  {
    hide Distinct;
    var added := CitationsFrom(sentenceId, propositionId, citations);
    var seen := ToSet(before);
    records, fault := before, None;
    var i := 0;
    while i < |citations|
      invariant 0 <= i <= |citations| && records == before + added[..i] && seen == ToSet(records)
      invariant CitationsFit(records, b) && fault.None?
    {
      var k := citations[i];
      var key := CitationRecord(sentenceId, propositionId, k.paperId, k.claimId, k.cpeId);
      assert key == added[i];
      assert before + added[..i + 1] == records + [key];
      DistinctSnoc(records, key);
      LongerStaysUnfit(records + [key], before + added, b);
      if key in seen {
        fault := Some(DuplicateCitation);
        return;
      }
      seen := seen + {key};
      records := records + [key];
      if |records| > b.maxCitations {
        fault := Some(TooManyCitations);
        return;
      }
      i := i + 1;
    }
    assert added[..i] == added;
  }

  lemma DistinctSnoc<T(!new)>(xs: seq<T>, x: T)
    requires Distinct(xs)
    ensures Distinct(xs + [x]) <==> x !in xs
    ensures ToSet(xs + [x]) == ToSet(xs) + {x}
  {
    var all := xs + [x];
    if x in xs {
      var i :| 0 <= i < |xs| && xs[i] == x;
      assert all[i] == all[|xs|];
    }
  }

  /** Once a list of citations does not fit, no longer one does. */
  lemma LongerStaysUnfit(xs: seq<CitationRecord>, all: seq<CitationRecord>, b: Budget)
    requires xs <= all
    ensures CitationsFit(all, b) ==> CitationsFit(xs, b)
  {
    if Distinct(all) {
      forall i, j | 0 <= i < j < |xs| ensures xs[i] != xs[j] {
        assert all[i] == xs[i] && all[j] == xs[j];
      }
    }
  }

  /** The audits behind a sentence or proposition, as the validated repository has them. */
  ghost predicate SourcesKnown(x: Sentence, propositions: map<string, Proposition>, audits: seq<Audit>) {
    forall id :: id in x.propositionIds ==> SourceOk(id, propositions, audits)
  }

  /** The loop over the propositions of one sentence. */
  method CollectSentence(x: Sentence, propositions: map<string, Proposition>, byTarget: map<string, seq<Audit>>,
                         ghost audits: seq<Audit>, before: seq<CitationRecord>, b: Budget)
    returns (records: seq<CitationRecord>, fault: Option<AssemblyError>)
    requires CitationsFit(before, b) && Groups(byTarget, audits, AuditTargetOf) && SourcesKnown(x, propositions, audits)
    ensures fault.None? <==> CitationsFit(before + SentenceCitations(x.sentenceId, x.propositionIds, propositions), b)
    ensures fault.None? ==> records == before + SentenceCitations(x.sentenceId, x.propositionIds, propositions)
    ensures fault.Some? ==> fault.value.DuplicateCitation? || fault.value.TooManyCitations?
  {
    hide CitationsFit, Groups, CitationsFrom, Matching;
    var ids := x.propositionIds;
    records, fault := before, None;
    assert before + SentenceCitations(x.sentenceId, ids[..0], propositions) == before;
    var i := 0;
    while i < |ids|
      invariant 0 <= i <= |ids| && records == before + SentenceCitations(x.sentenceId, ids[..i], propositions)
      invariant CitationsFit(records, b) && fault.None?
    {
      var id := ids[i];
      assert SourceOk(id, propositions, audits);
      assert ids[..i + 1][..i] == ids[..i];
      SourceAudited(id, byTarget, audits);
      if id !in propositions {
        fault := Some(UnknownProposition);
        return;
      }
      var found := Group(byTarget, id);
      if |found| != 1 || DeriveDisposition(found[0]) != Pass {
        fault := Some(PropositionAuditMissing);
        return;
      }
      ghost var soFar := records;
      records, fault := CollectProposition(x.sentenceId, id, propositions[id].citations, records, b);
      SentencePrefix(x.sentenceId, ids, propositions, i + 1);
      CitationPrefix(before, soFar, SentenceCitations(x.sentenceId, ids[..i], propositions),
                     CitationsFrom(x.sentenceId, id, propositions[id].citations));
      LongerStaysUnfit(before + SentenceCitations(x.sentenceId, ids[..i + 1], propositions),
                       before + SentenceCitations(x.sentenceId, ids, propositions), b);
      if fault.Some? {
        return;
      }
      i := i + 1;
    }
    assert ids[..i] == ids;
  }

  lemma CitationPrefix(before: seq<CitationRecord>, soFar: seq<CitationRecord>, part: seq<CitationRecord>, more: seq<CitationRecord>)
    requires soFar == before + part
    ensures soFar + more == before + (part + more)
  {
  }

  lemma SourceAudited(id: string, byTarget: map<string, seq<Audit>>, audits: seq<Audit>)
    requires Groups(byTarget, audits, AuditTargetOf) && SolelyPassing(audits, id)
    ensures |Group(byTarget, id)| == 1 && DeriveDisposition(Group(byTarget, id)[0]) == Pass
  {
    hide Matching;
    assert Group(byTarget, id) == Matching(audits, AuditTargetOf, id);
  }

  lemma {:induction false} SentencePrefix(sentenceId: string, ids: seq<string>, propositions: map<string, Proposition>, i: nat)
    requires i <= |ids|
    ensures SentenceCitations(sentenceId, ids[..i], propositions) <= SentenceCitations(sentenceId, ids, propositions)
    decreases |ids| - i
  {
    if i < |ids| {
      assert ids[..i + 1][..i] == ids[..i];
      SentencePrefix(sentenceId, ids, propositions, i + 1);
    } else {
      assert ids[..i] == ids;
    }
  }

  lemma {:induction false} CitationsPrefix(xs: seq<Sentence>, propositions: map<string, Proposition>, i: nat)
    requires i <= |xs|
    ensures AllCitations(xs[..i], propositions) <= AllCitations(xs, propositions)
    decreases |xs| - i
  {
    if i < |xs| {
      assert xs[..i + 1][..i] == xs[..i];
      CitationsPrefix(xs, propositions, i + 1);
    } else {
      assert xs[..i] == xs;
    }
  }

  ghost predicate SentenceAudited(x: Sentence, audits: seq<SentenceAudit>) {
    var found := Matching(audits, AuditedSentenceOf, x.sentenceId);
    |found| == 1 && found[0].verdict.Entailed?
  }

  /** What the outer loop requires of the ordered sentences. */
  ghost predicate SentencesFit(xs: seq<Sentence>, propositions: map<string, Proposition>, b: Budget) {
    && (forall x :: x in xs ==> SentenceFits(x)) && CitationsFit(AllCitations(xs, propositions), b)
  }

  /** The record of the next sentence, from where the body and the code points stand. */
  lemma NextExtent(xs: seq<Sentence>, i: nat, body: Bytes, cursor: nat)
    requires i < |xs| && body == Body(Texts(xs[..i])) && cursor == |BodyText(Texts(xs[..i]))|
    ensures ExtentOf(Texts(xs), i) == Extent(cursor, cursor + |xs[i].text|, |body|, |body| + |Encode(xs[i].text)|)
    ensures ExtentOf(Texts(xs[..i + 1]), i) == ExtentOf(Texts(xs), i)
    ensures Body(Texts(xs[..i + 1])) == body + Encode(xs[i].text) + [LF_BYTE]
    ensures |BodyText(Texts(xs[..i + 1]))| == cursor + |xs[i].text| + 1
  {
    hide Body, BodyText, Encode;
    assert Texts(xs[..i]) == Texts(xs)[..i];
    assert Texts(xs[..i + 1]) == Texts(xs)[..i + 1];
    assert Texts(xs)[..i + 1][..i] == Texts(xs)[..i];
    BodyStep(Texts(xs), i);
  }

  lemma NextRecord(xs: seq<Sentence>, i: nat, h: Hashes)
    requires i < |xs|
    ensures Records(xs[..i + 1], h) == Records(xs[..i], h) + [RecordOf(xs[i], ExtentOf(Texts(xs), i), h)]
  {
    hide Body, BodyText, Encode;
    assert Texts(xs[..i]) == Texts(xs)[..i];
    assert Texts(xs[..i + 1]) == Texts(xs)[..i + 1];
    forall k | 0 <= k < i
      ensures ExtentOf(Texts(xs[..i + 1]), k) == ExtentOf(Texts(xs[..i]), k)
    {
      assert Texts(xs)[..i + 1][..k] == Texts(xs)[..i][..k];
    }
    assert Texts(xs)[..i + 1][..i] == Texts(xs)[..i];
  }

  lemma NextFits(xs: seq<Sentence>, propositions: map<string, Proposition>, b: Budget, i: nat)
    requires i < |xs|
    ensures SentencesFit(xs[..i + 1], propositions, b) <==>
              SentencesFit(xs[..i], propositions, b) && SentenceFits(xs[i]) && CitationsFit(AllCitations(xs[..i + 1], propositions), b)
    ensures AllCitations(xs[..i + 1], propositions)
         == AllCitations(xs[..i], propositions) + SentenceCitations(xs[i].sentenceId, xs[i].propositionIds, propositions)
    ensures SentencesFit(xs, propositions, b) ==> SentencesFit(xs[..i + 1], propositions, b)
  {
    hide CitationsFit, SentenceFits, SentenceCitations;
    var front, all := xs[..i], xs[..i + 1];
    assert all[..i] == front;
    assert all == front + [xs[i]];
    CitationsPrefix(all, propositions, i);
    CitationsPrefix(xs, propositions, i + 1);
    LongerStaysUnfit(AllCitations(front, propositions), AllCitations(all, propositions), b);
    LongerStaysUnfit(AllCitations(all, propositions), AllCitations(xs, propositions), b);
  }

  /** The checks on one sentence before its bytes are appended. */
  method CheckSentenceText(x: Sentence, found: seq<SentenceAudit>) returns (fault: Option<AssemblyError>)
    requires |found| == 1 && found[0].verdict.Entailed?
    ensures fault.None? <==> !Marked(x.text)
    ensures fault.Some? ==> fault.value.ForbiddenMarker?
  {
    if Marked(x.text) {
      return Some(ForbiddenMarker);
    }
    if |found| != 1 || !found[0].verdict.Entailed? {
      return Some(SentenceAuditMissing);
    }
    return None;
  }

  predicate ExpectedFault(e: AssemblyError) {
    !e.SentenceAuditMissing? && !e.UnknownProposition? && !e.PropositionAuditMissing?
  }

  /** The outer loop of `assemble_exact_section`. */
  method AssembleSentences(xs: seq<Sentence>, propositions: map<string, Proposition>, bySentence: map<string, seq<SentenceAudit>>,
                           ghost sentenceAudits: seq<SentenceAudit>, byTarget: map<string, seq<Audit>>, ghost audits: seq<Audit>,
                           b: Budget, h: Hashes)
    returns (body: Bytes, records: seq<SentenceRecord>, citations: seq<CitationRecord>, fault: Option<AssemblyError>)
    requires Groups(bySentence, sentenceAudits, AuditedSentenceOf) && Groups(byTarget, audits, AuditTargetOf)
    requires forall x :: x in xs ==> SentenceAudited(x, sentenceAudits) && SourcesKnown(x, propositions, audits)
    ensures fault.None? <==> SentencesFit(xs, propositions, b)
    ensures fault.None? ==> body == Body(Texts(xs)) && records == Records(xs, h) && citations == AllCitations(xs, propositions)
    ensures fault.Some? ==> ExpectedFault(fault.value)
  {
    hide Body, BodyText, Encode, CitationsFit, SourcesKnown, SentencesFit, AllCitations, SentenceCitations, Records, RecordOf,
      ExtentOf, Matching, NoRepeats, Marked;
    body, records, citations, fault := [], [], [], None;
    NothingAssembled(xs, propositions, b, h);
    var cursor := 0;
    var i := 0;
    while i < |xs|
      invariant 0 <= i <= |xs| && fault.None?
      invariant body == Body(Texts(xs[..i])) && cursor == |BodyText(Texts(xs[..i]))|
      invariant records == Records(xs[..i], h) && citations == AllCitations(xs[..i], propositions)
      invariant SentencesFit(xs[..i], propositions, b) && CitationsFit(citations, b)
    {
      var x := xs[i];
      assert x in xs;
      NextFits(xs, propositions, b, i);
      NextExtent(xs, i, body, cursor);
      NextRecord(xs, i, h);
      assert Group(bySentence, x.sentenceId) == Matching(sentenceAudits, AuditedSentenceOf, x.sentenceId);
      fault := CheckSentenceText(x, Group(bySentence, x.sentenceId));
      if fault.Some? {
        return;
      }
      var encoded := Encode(x.text);
      var startByte, startCodepoint := |body|, cursor;
      body := body + encoded;
      var endByte, endCodepoint := |body|, startCodepoint + |x.text|;
      body := body + [LF_BYTE];
      cursor := endCodepoint + 1;
      if !NoRepeats(x.propositionIds) {
        fault := Some(RepeatedProposition);
        return;
      }
      citations, fault := CollectSentence(x, propositions, byTarget, audits, citations, b);
      if fault.Some? {
        return;
      }
      TextHasBytes(x.text);
      if endCodepoint <= startCodepoint || endByte <= startByte {
        fault := Some(EmptyRange);
        return;
      }
      ghost var extent := Extent(startCodepoint, endCodepoint, startByte, endByte);
      assert RecordOf(x, extent, h) == SentenceRecord(x.sentenceId, h.bytes(encoded), x.propositionIds, extent) by {
        RecordFields(x, extent, h);
      }
      records := records + [SentenceRecord(x.sentenceId, h.bytes(encoded), x.propositionIds,
                                           Extent(startCodepoint, endCodepoint, startByte, endByte))];
      i := i + 1;
    }
    assert xs[..i] == xs;
  }

  lemma TextHasBytes(text: string)
    ensures text != "" <==> |Encode(text)| > 0
  {
  }

  lemma RecordFields(x: Sentence, extent: Extent, h: Hashes)
    ensures RecordOf(x, extent, h) == SentenceRecord(x.sentenceId, h.bytes(Encode(x.text)), x.propositionIds, extent)
  {
  }

  lemma NothingAssembled(xs: seq<Sentence>, propositions: map<string, Proposition>, b: Budget, h: Hashes)
    ensures Body(Texts(xs[..0])) == [] && BodyText(Texts(xs[..0])) == "" && Records(xs[..0], h) == []
    ensures AllCitations(xs[..0], propositions) == [] && SentencesFit(xs[..0], propositions, b) && CitationsFit([], b)
  {
    assert xs[..0] == [];
    assert Texts(xs[..0]) == [];
  }

  // ---------------------------------------------------------------- assembling and verifying

  /** In a valid repository every sentence has one audit, which entails it, and every source has passed. */
  lemma ValidSources(s: Snapshot, hash: ClaimHash, x: Sentence)
    requires ProseClean(s) && x in s.sentences
    ensures SentenceAudited(x, s.sentenceAudits)
    ensures SourcesKnown(x, ById(s.propositions, PropositionIdOf), s.audits)
  {
    hide ById, Matching, UniqueIds, SolelyPassing;
    assert SentenceOk(x, ById(s.propositions, PropositionIdOf), s.audits);
    assert OneSentenceAudit(x, s.sentenceAudits);
    var found := Matching(s.sentenceAudits, AuditedSentenceOf, x.sentenceId);
    MatchingMember(s.sentenceAudits, AuditedSentenceOf, x.sentenceId, found[0]);
    assert SentenceAuditOk(found[0], ById(s.sentences, SentenceIdOf));
  }

  lemma ValidProse(s: Snapshot, hash: ClaimHash)
    requires RepositoryClean(s, hash)
    ensures ProseClean(s) && UniqueIds(s.sentences, SentenceIdOf)
  {
    hide SentenceOk, SentenceAuditOk, OneSentenceAudit;
  }

  lemma OrderedMembers(s: Snapshot, hash: ClaimHash)
    requires RepositoryClean(s, hash)
    ensures forall x :: x in Ordered(s) <==> x in s.sentences
    ensures forall x :: x in s.sentences ==>
              SentenceAudited(x, s.sentenceAudits) && SourcesKnown(x, ById(s.propositions, PropositionIdOf), s.audits)
  {
    hide RepositoryClean, Ordered, ProseClean, SentenceAudited, SourcesKnown, ById;
    ValidProse(s, hash);
    OrderedIsSorted(s);
    forall x | x in s.sentences
      ensures SentenceAudited(x, s.sentenceAudits) && SourcesKnown(x, ById(s.propositions, PropositionIdOf), s.audits)
    {
      ValidSources(s, hash, x);
    }
  }

  /** The sentences by ascending number; fails on an identifier without one. */
  method OrderSentences(s: Snapshot) returns (r: Result<seq<Sentence>, AssemblyError>)
    ensures r.Ok? <==> forall x :: x in s.sentences ==> SentenceNumber(x.sentenceId).Some?
    ensures r.Ok? ==> r.value == Ordered(s)
    ensures r.Err? ==> r.error.InvalidSentenceId?
  {
    hide NumberLeq, ById, SentenceNumber;
    IdsKnown(s);
    if exists x :: x in s.sentences && SentenceNumber(x.sentenceId).None? {
      return Err(InvalidSentenceId);
    }
    var ids := StableSort(NumberLeq, SentenceIds(s.sentences));
    return Ok(SentencesOf(ids, ById(s.sentences, SentenceIdOf)));
  }

  /** `assemble_exact_section`: succeeds on exactly the snapshots that fit, and the checks that repeat the
      repository's validation never fail. */
  method AssembleExact(s: Snapshot, generation: nat, b: Budget, h: Hashes) returns (r: Result<(Bytes, AssemblyRecord), AssemblyError>)
    ensures r.Ok? <==> Assemblable(s, b, h)
    ensures r.Ok? ==> r.value == Assembled(s, generation, b, h)
    ensures r.Err? ==> ExpectedFault(r.error)
  {
    hide RepositoryClean, Ordered, SentenceNumber, Groups, SentenceAudited, SourcesKnown, CitationsFit, SentenceFits, Body, Records,
      AllCitations, Texts, ById, CitationLeq, StableSort;
    var report := ValidateRepository(s, h.claim);
    if report.Err? {
      return Err(RepositoryInvalid);
    }
    OrderedMembers(s, h.claim);
    var ordered := OrderSentences(s);
    if ordered.Err? {
      return Err(ordered.error);
    }
    var xs := ordered.value;
    if xs == [] {
      return Err(NoSentences);
    }
    if |xs| > b.maxSentences {
      return Err(TooManySentences);
    }
    var bySentence := GroupBy(s.sentenceAudits, AuditedSentenceOf);
    var byTarget := GroupBy(s.audits, AuditTargetOf);
    var propositions := ById(s.propositions, PropositionIdOf);
    var body, records, citations, fault := AssembleSentences(xs, propositions, bySentence, s.sentenceAudits, byTarget, s.audits, b, h);
    if fault.Some? {
      return Err(fault.value);
    }
    if |body| > b.maxBytes {
      return Err(BodyTooLarge);
    }
    var sorted := StableSort(CitationLeq, citations);
    return Ok((body, AssemblyRecord(generation, h.snapshot(s), b, records, sorted, h.bytes(body), |body|)));
  }

  /** `verify_exact_assembly` accepts exactly what `assemble_exact_section` produces. */
  method VerifyExact(s: Snapshot, body: Bytes, record: AssemblyRecord, h: Hashes) returns (fault: Option<AssemblyError>)
    ensures fault.None? <==>
              Assemblable(s, record.budget, h) && (body, record) == Assembled(s, record.sourceGeneration, record.budget, h)
  {
    hide Assemblable, Assembled;
    var rebuilt := AssembleExact(s, record.sourceGeneration, record.budget, h);
    if rebuilt.Err? {
      return Some(rebuilt.error);
    }
    if body != rebuilt.value.0 {
      return Some(BodyDiffers);
    }
    if record != rebuilt.value.1 {
      return Some(RecordDiffers);
    }
    return None;
  }

  // ---------------------------------------------------------------- what the assembly means

  /** The body is the encoding of a text that splits at line feeds into the sentences, by ascending number. */
  lemma AssemblySplits(s: Snapshot, generation: nat, b: Budget, h: Hashes)
    requires Assemblable(s, b, h)
    ensures var (body, _) := Assembled(s, generation, b, h);
            Decode(body).Some? && Split(Decode(body).value, LF) == Texts(Ordered(s)) + [""]
  {
    hide RepositoryClean, Ordered, Decode, Split, Body, CitationsFit, AllCitations, ById, StableSort, CitationLeq, Records, NoRepeats;
    var xs := Ordered(s);
    forall t | t in Texts(xs) ensures LF !in t {
      var i :| 0 <= i < |xs| && Texts(xs)[i] == t;
      assert SentenceFits(xs[i]);
    }
    BodyDecodes(Texts(xs));
    SplitRecovers(Texts(xs));
  }

  /** Each record's ranges slice back exactly its text and its encoding; the ranges tile the body with exactly one
      line feed behind each. */
  lemma AssemblyTiles(s: Snapshot, generation: nat, b: Budget, h: Hashes, i: nat)
    requires i < |Ordered(s)|
    ensures var (body, record) := Assembled(s, generation, b, h);
            var x, e, text := Ordered(s)[i], record.sentences[i].extent, BodyText(Texts(Ordered(s)));
            && body == Encode(text) && |record.sentences| == |Ordered(s)|
            && record.sentences[i].sentenceId == x.sentenceId && record.sentences[i].propositionIds == x.propositionIds
            && record.sentences[i].textHash == h.bytes(Encode(x.text))
            && e.startCodepoint <= e.endCodepoint < |text| && text[e.startCodepoint..e.endCodepoint] == x.text
            && e.startByte <= e.endByte < |body| && body[e.startByte..e.endByte] == Encode(x.text)
            && body[e.endByte] == LF_BYTE
            && (i == 0 ==> e.startCodepoint == e.startByte == 0)
            && (i + 1 < |record.sentences| ==>
                  var f := record.sentences[i + 1].extent;
                  f.startCodepoint == e.endCodepoint + 1 && f.startByte == e.endByte + 1)
            && (i + 1 == |record.sentences| ==> e.endByte + 1 == |body| == record.bodySize)
  {
    hide Ordered, Body, BodyText, Encode, AllCitations, ById, StableSort, CitationLeq, ExtentOf;
    var texts := Texts(Ordered(s));
    BodyEncodesText(texts);
    ExtentExact(texts, i);
    ExtentsTile(texts, i);
    ExtentOrdered(texts, i);
  }

  lemma ExtentOrdered(texts: seq<string>, i: nat)
    requires i < |texts|
    ensures ExtentOf(texts, i).startCodepoint <= ExtentOf(texts, i).endCodepoint
    ensures ExtentOf(texts, i).startByte <= ExtentOf(texts, i).endByte
  {
  }

  // ---------------------------------------------------------------- what is cited

  /** The record repeats a citation of this proposition behind this sentence. */
  predicate Repeats(k: CitationRecord, sentenceId: string, propositionId: string, c: Citation) {
    && k.sentenceId == sentenceId && k.propositionId == propositionId
    && k.paperId == c.paperId && k.claimId == c.claimId && k.cpeId == c.cpeId
  }

  ghost predicate CitedBehind(propositions: map<string, Proposition>, x: Sentence, id: string, k: CitationRecord) {
    id in propositions && exists c :: c in propositions[id].citations && Repeats(k, x.sentenceId, id, c)
  }

  ghost predicate CitedBy(propositions: map<string, Proposition>, x: Sentence, k: CitationRecord) {
    exists id :: id in x.propositionIds && CitedBehind(propositions, x, id, k)
  }

  lemma FromExactly(x: Sentence, id: string, propositions: map<string, Proposition>, k: CitationRecord)
    requires id in propositions
    ensures k in CitationsFrom(x.sentenceId, id, propositions[id].citations) <==> CitedBehind(propositions, x, id, k)
  {
    var cs := propositions[id].citations;
    var r := CitationsFrom(x.sentenceId, id, cs);
    if k in r {
      var i :| 0 <= i < |r| && r[i] == k;
      assert cs[i] in cs && Repeats(k, x.sentenceId, id, cs[i]);
    }
    if CitedBehind(propositions, x, id, k) {
      var c :| c in cs && Repeats(k, x.sentenceId, id, c);
      var i :| 0 <= i < |cs| && cs[i] == c;
      assert r[i] == k;
    }
  }

  lemma {:induction false} SentenceCites(x: Sentence, n: nat, propositions: map<string, Proposition>, k: CitationRecord)
    requires n <= |x.propositionIds|
    ensures k in SentenceCitations(x.sentenceId, x.propositionIds[..n], propositions) <==>
            exists i :: 0 <= i < n && CitedBehind(propositions, x, x.propositionIds[i], k)
  {
    hide CitedBehind, CitationsFrom;
    if n > 0 {
      SentenceCites(x, n - 1, propositions, k);
      assert x.propositionIds[..n][..n - 1] == x.propositionIds[..n - 1];
      var id := x.propositionIds[n - 1];
      if id in propositions {
        FromExactly(x, id, propositions, k);
      } else {
        UnknownCites(x, id, propositions, k);
      }
    }
  }

  lemma UnknownCites(x: Sentence, id: string, propositions: map<string, Proposition>, k: CitationRecord)
    requires id !in propositions
    ensures !CitedBehind(propositions, x, id, k)
  {
  }

  lemma CitedByExactly(x: Sentence, propositions: map<string, Proposition>, k: CitationRecord)
    ensures k in SentenceCitations(x.sentenceId, x.propositionIds, propositions) <==> CitedBy(propositions, x, k)
  {
    hide CitedBehind, SentenceCitations;
    SentenceCites(x, |x.propositionIds|, propositions, k);
    assert x.propositionIds[..|x.propositionIds|] == x.propositionIds;
  }

  lemma {:induction false} AllCites(xs: seq<Sentence>, n: nat, propositions: map<string, Proposition>, k: CitationRecord)
    requires n <= |xs|
    ensures k in AllCitations(xs[..n], propositions) <==> exists i :: 0 <= i < n && CitedBy(propositions, xs[i], k)
  {
    hide CitedBy, SentenceCitations;
    if n > 0 {
      AllCites(xs, n - 1, propositions, k);
      assert xs[..n][..n - 1] == xs[..n - 1];
      CitedByExactly(xs[n - 1], propositions, k);
    }
  }

  /** How many citations a proposition, a sentence and all sentences have. */
  function CitationCount(propositions: map<string, Proposition>): string -> nat {
    (id: string) => if id in propositions then |propositions[id].citations| else 0
  }

  function SentenceCount(propositions: map<string, Proposition>): Sentence -> nat {
    (x: Sentence) => Total(x.propositionIds, CitationCount(propositions))
  }

  lemma {:induction false} SentenceCounted(sentenceId: string, ids: seq<string>, propositions: map<string, Proposition>)
    ensures |SentenceCitations(sentenceId, ids, propositions)| == Total(ids, CitationCount(propositions))
  {
    hide CitationsFrom;
    if ids != [] {
      SentenceCounted(sentenceId, ids[..|ids| - 1], propositions);
    }
  }

  lemma {:induction false} AllCounted(xs: seq<Sentence>, propositions: map<string, Proposition>)
    ensures |AllCitations(xs, propositions)| == Total(xs, SentenceCount(propositions))
  {
    hide SentenceCitations;
    if xs != [] {
      var x := xs[|xs| - 1];
      AllCounted(xs[..|xs| - 1], propositions);
      SentenceCounted(x.sentenceId, x.propositionIds, propositions);
    }
  }

  /** A citation that some sentence of the snapshot carries, through some proposition of the snapshot. */
  ghost predicate Cites(s: Snapshot, k: CitationRecord) {
    exists x, p, c ::
      x in s.sentences && p in s.propositions && p.propositionId in x.propositionIds && c in p.citations
      && Repeats(k, x.sentenceId, p.propositionId, c)
  }

  lemma CitesExactly(s: Snapshot, k: CitationRecord)
    requires UniqueIds(s.propositions, PropositionIdOf)
    ensures Cites(s, k) <==> exists x :: x in s.sentences && CitedBy(ById(s.propositions, PropositionIdOf), x, k)
  {
    hide ById, UniqueIds, Repeats;
    var m := ById(s.propositions, PropositionIdOf);
    if Cites(s, k) {
      var x, p, c :| x in s.sentences && p in s.propositions && p.propositionId in x.propositionIds && c in p.citations
                     && Repeats(k, x.sentenceId, p.propositionId, c);
      ByIdFinds(s.propositions, PropositionIdOf, p);
      assert CitedBehind(m, x, p.propositionId, k);
      assert CitedBy(m, x, k);
    }
    if x :| x in s.sentences && CitedBy(m, x, k) {
      var id :| id in x.propositionIds && CitedBehind(m, x, id, k);
      var c :| c in m[id].citations && Repeats(k, x.sentenceId, id, c);
      ByIdMember(s.propositions, PropositionIdOf, id);
      assert m[id] in s.propositions && m[id].propositionId == id;
    }
  }

  lemma FromDistinct(sentenceId: string, id: string, cs: seq<Citation>)
    ensures Distinct(CitationsFrom(sentenceId, id, cs)) <==> Distinct(cs)
  {
    var r := CitationsFrom(sentenceId, id, cs);
    forall i, j | 0 <= i < j < |cs| ensures r[i] == r[j] <==> cs[i] == cs[j] {
    }
  }

  /** No proposition among these lists a citation twice. */
  ghost predicate NoneTwice(ids: seq<string>, propositions: map<string, Proposition>) {
    forall id :: id in ids && id in propositions ==> Distinct(propositions[id].citations)
  }

  lemma NoneTwiceSnoc(ids: seq<string>, id: string, propositions: map<string, Proposition>)
    ensures NoneTwice(ids + [id], propositions) <==>
            NoneTwice(ids, propositions) && (id in propositions ==> Distinct(propositions[id].citations))
  {
    hide Distinct;
    assert forall k :: k in ids + [id] <==> k in ids || k == id;
  }

  lemma {:induction false} SentenceDistinct(x: Sentence, n: nat, propositions: map<string, Proposition>)
    requires n <= |x.propositionIds| && NoRepeats(x.propositionIds)
    ensures Distinct(SentenceCitations(x.sentenceId, x.propositionIds[..n], propositions)) <==> NoneTwice(x.propositionIds[..n], propositions)
  {
    hide Distinct, CitationsFrom, SentenceCitations;
    var ids := x.propositionIds;
    if n > 0 {
      SentenceDistinct(x, n - 1, propositions);
      var id := ids[n - 1];
      assert ids[..n] == ids[..n - 1] + [id];
      SentenceSnoc(x.sentenceId, ids[..n - 1], id, propositions);
      var front := SentenceCitations(x.sentenceId, ids[..n - 1], propositions);
      assert front + [] == front;
      NoneTwiceSnoc(ids[..n - 1], id, propositions);
      if id in propositions {
        var back := CitationsFrom(x.sentenceId, id, propositions[id].citations);
        ConcatDistinct(front, back);
        FromDistinct(x.sentenceId, id, propositions[id].citations);
        forall k | k in front ensures k !in back {
          SentenceCites(x, n - 1, propositions, k);
          FromExactly(x, id, propositions, k);
          var i :| 0 <= i < n - 1 && CitedBehind(propositions, x, ids[i], k);
          assert k.propositionId == ids[i] != id;
        }
      }
    } else {
      NothingCited(x.sentenceId, propositions);
      assert ids[..0] == [];
    }
  }

  lemma NothingCited(sentenceId: string, propositions: map<string, Proposition>)
    ensures Distinct(SentenceCitations(sentenceId, [], propositions))
  {
  }

  lemma SentenceSnoc(sentenceId: string, ids: seq<string>, id: string, propositions: map<string, Proposition>)
    ensures SentenceCitations(sentenceId, ids + [id], propositions) == SentenceCitations(sentenceId, ids, propositions)
            + if id in propositions then CitationsFrom(sentenceId, id, propositions[id].citations) else []
  {
    assert (ids + [id])[..|ids|] == ids;
  }

  lemma {:induction false} AllDistinct(xs: seq<Sentence>, n: nat, propositions: map<string, Proposition>)
    requires n <= |xs| && NoRepeats(SentenceIds(xs)) && forall x :: x in xs ==> NoRepeats(x.propositionIds)
    ensures Distinct(AllCitations(xs[..n], propositions)) <==> forall x :: x in xs[..n] ==> NoneTwice(x.propositionIds, propositions)
  {
    hide Distinct, SentenceCitations, NoneTwice;
    if n > 0 {
      AllDistinct(xs, n - 1, propositions);
      var x := xs[n - 1];
      assert xs[..n] == xs[..n - 1] + [x] && xs[..n][..n - 1] == xs[..n - 1] && x in xs;
      var front, back := AllCitations(xs[..n - 1], propositions), SentenceCitations(x.sentenceId, x.propositionIds, propositions);
      ConcatDistinct(front, back);
      SentenceDistinct(x, |x.propositionIds|, propositions);
      assert x.propositionIds[..|x.propositionIds|] == x.propositionIds;
      forall k | k in front ensures k !in back {
        AllCites(xs, n - 1, propositions, k);
        CitedByExactly(x, propositions, k);
        var i :| 0 <= i < n - 1 && CitedBy(propositions, xs[i], k);
        assert k.sentenceId == xs[i].sentenceId == SentenceIds(xs)[i] != SentenceIds(xs)[n - 1];
      }
    } else {
      NothingCited("", propositions);
      NoCitations(propositions, xs);
    }
  }

  lemma NoCitations(propositions: map<string, Proposition>, xs: seq<Sentence>)
    ensures Distinct(AllCitations(xs[..0], propositions))
  {
  }

  /** The citations fit exactly if none of the propositions behind the sentences lists one twice and the sum of their
      numbers of citations, sentence by sentence, is within the budget. */
  lemma CitationsFitExactly(s: Snapshot, b: Budget)
    requires UniqueIds(s.sentences, SentenceIdOf) && forall x :: x in s.sentences ==> NoRepeats(x.propositionIds)
    ensures var m := ById(s.propositions, PropositionIdOf);
            CitationsFit(AllCitations(Ordered(s), m), b) <==>
            (forall x :: x in s.sentences ==> NoneTwice(x.propositionIds, m)) && Total(s.sentences, SentenceCount(m)) <= b.maxCitations
  {
    hide ById, Ordered, Distinct, AllCitations, NoneTwice, SentenceCount, NumberOf;
    var m, xs := ById(s.propositions, PropositionIdOf), Ordered(s);
    OrderedIsSorted(s);
    OrderedPermutes(s);
    AllDistinct(xs, |xs|, m);
    assert xs[..|xs|] == xs;
    AllCounted(xs, m);
    TotalPermuted(xs, s.sentences, SentenceCount(m));
  }

  lemma OrderedPermutes(s: Snapshot)
    requires UniqueIds(s.sentences, SentenceIdOf)
    ensures multiset(Ordered(s)) == multiset(s.sentences) && NoRepeats(SentenceIds(Ordered(s)))
  {
    hide Ordered, NumberOf;
    OrderedIsSorted(s);
    var xs := Ordered(s);
    forall i, j | 0 <= i < j < |s.sentences| ensures SentenceIds(s.sentences)[i] != SentenceIds(s.sentences)[j] {
      assert SentenceIdOf(s.sentences[i]) != SentenceIdOf(s.sentences[j]);
    }
    DistinctMultiset(SentenceIds(s.sentences));
    DistinctMultiset(SentenceIds(xs));
    assert forall i, j :: 0 <= i < j < |xs| ==> SentenceIds(xs)[i] != SentenceIds(xs)[j];
    assert Distinct(xs) && Distinct(s.sentences);
    DistinctMultiset(xs);
    DistinctMultiset(s.sentences);
    forall x ensures multiset(xs)[x] == multiset(s.sentences)[x] {
      assert x in xs <==> x in s.sentences;
      assert multiset(xs)[x] <= 1 && multiset(s.sentences)[x] <= 1;
      assert (x in xs <==> x in multiset(xs)) && (x in s.sentences <==> x in multiset(s.sentences));
    }
  }

  lemma SomeCites(xs: seq<Sentence>, ys: seq<Sentence>, propositions: map<string, Proposition>, k: CitationRecord)
    requires forall x :: x in xs <==> x in ys
    ensures (exists i :: 0 <= i < |xs| && CitedBy(propositions, xs[i], k)) <==> (exists x :: x in ys && CitedBy(propositions, x, k))
  {
    hide CitedBy;
    if i :| 0 <= i < |xs| && CitedBy(propositions, xs[i], k) {
      assert xs[i] in ys;
    }
    if x :| x in ys && CitedBy(propositions, x, k) {
      var i :| 0 <= i < |xs| && xs[i] == x;
    }
  }

  lemma CleanIds(s: Snapshot, hash: ClaimHash)
    requires RepositoryClean(s, hash)
    ensures UniqueIds(s.sentences, SentenceIdOf) && UniqueIds(s.propositions, PropositionIdOf)
  {
    hide RetrievalClean, EvidenceClean, UniqueIds;
  }

  /** The record lists every citation behind the sentences exactly once, in order. */
  lemma AssemblyCites(s: Snapshot, generation: nat, b: Budget, h: Hashes)
    requires Assemblable(s, b, h)
    ensures var (_, record) := Assembled(s, generation, b, h);
            && IsSorted(CitationLeq, record.citations) && Distinct(record.citations)
            && (forall k :: k in record.citations <==> Cites(s, k))
            && |record.citations| == Total(s.sentences, SentenceCount(ById(s.propositions, PropositionIdOf))) <= b.maxCitations
  {
    hide Ordered, Body, AllCitations, ById, CitationLeq, Records, StableSort, Distinct, Cites, SentenceCount, RepositoryClean, NumberOf;
    CleanIds(s, h.claim);
    CitationIsTotal();
    var m, xs := ById(s.propositions, PropositionIdOf), Ordered(s);
    var all := AllCitations(xs, m);
    SortSorted(CitationLeq, all);
    SortDistinct(CitationLeq, all);
    SortSame(CitationLeq, all);
    OrderedIsSorted(s);
    OrderedPermutes(s);
    AllCounted(xs, m);
    TotalPermuted(xs, s.sentences, SentenceCount(m));
    forall k ensures k in all <==> Cites(s, k) {
      AllCites(xs, |xs|, m, k);
      assert xs[..|xs|] == xs;
      CitesExactly(s, k);
      SomeCites(xs, s.sentences, m, k);
    }
  }

  /** The record names the generation, the budget, and the digests and sizes of what it was made from. */
  lemma AssemblyFields(s: Snapshot, generation: nat, b: Budget, h: Hashes)
    ensures var (body, record) := Assembled(s, generation, b, h);
            && record.sourceGeneration == generation && record.repositoryHash == h.snapshot(s) && record.budget == b
            && record.bodyHash == h.bytes(body) && record.bodySize == |body| && |record.sentences| == |Ordered(s)|
  {
    hide Ordered, Body, AllCitations, ById, StableSort;
  }
}
