/** The list of findings that every validator appends to, and the identifier index (validators.py, errors.py). */
module Collecting {
  import opened Basics
  import opened Lookup

  datatype Severity = Error | Warning

  datatype Code =
    | DuplicateObjectId | InvalidReference | DuplicateIdentityConflict | PossibleDuplicateWarning
    | ThemeSelfParent | ThemeCycle(cycle: seq<string>)
    | CandidateClaimMutatedAfterRetrieval | QueryIdMismatch | RetrievalIntentMismatch
    | CanonicalSpanSelfReference | CanonicalSpanCrossPaper | CanonicalSpanCycle | CardinalityViolation
    | EvidenceClaimMismatch | EvidencePaperMismatch | DiscardedSpanHasEvidence | AssessedSpanEvidenceCardinality
    | CpeEvidencePartitionMismatch | CpeClaimMismatch | CpePaperMismatch | CpeRelationMismatch | InvalidMixedCpe
    | CpeSetContinuityMismatch | FinalRelationPaperMismatch | ClaimPacketUpstreamMismatch
    | RejectCannotYieldClaimPacket | ClaimPacketRequiresValidFinalClaim | FinalCpeCoverageMismatch
    | UnaggregatedEvidenceAfterPacket | CitationBindingClaimMismatch | CitationBindingPaperMismatch
    | CitationBindingUnlicensedCpe | ScientificClaimCitationCoverage | SemanticAuditIncompleteProvenance
    | RenderedFromNonpassingProposition | RenderedSentenceNotEntailed

  datatype Collection =
    | Themes | Papers | Claims | Queries | Spans | Dispositions | EvidenceRecords | Cpes | Assessments | Finals
    | Packets | CorpusFacts | ProcessFacts | Propositions | Audits | Sentences | SentenceAudits

  /** Where a finding is: the position of an object in its collection, or its identifier. */
  datatype Place = At(collection: Collection, position: nat) | Of(collection: Collection, id: string)

  datatype Issue = Issue(severity: Severity, code: Code, place: Place)

  predicate Clean(issues: seq<Issue>) {
    forall i :: 0 <= i < |issues| ==> issues[i].severity == Warning
  }

  /** `dict.fromkeys`: every finding once, in order of first occurrence. */
  function Unique(issues: seq<Issue>): (r: seq<Issue>)
    ensures forall x :: x in r <==> x in issues
  {
    if issues == [] then []
    else
      var front := Unique(issues[..|issues| - 1]);
      var last := issues[|issues| - 1];
      assert issues == issues[..|issues| - 1] + [last];
      if last in front then front else front + [last]
  }

  lemma UniqueClean(issues: seq<Issue>)
    ensures Clean(Unique(issues)) <==> Clean(issues)
  {
    var u := Unique(issues);
    forall i | 0 <= i < |issues| && Clean(u) ensures issues[i].severity == Warning {
      assert issues[i] in u;
    }
    forall i | 0 <= i < |u| && Clean(issues) ensures u[i].severity == Warning {
      assert u[i] in issues;
    }
  }

  /** Findings were only appended, and the new ones all have the given code. */
  ghost predicate OnlyAdded(before: seq<Issue>, now: seq<Issue>, code: Code) {
    before <= now && forall i :: |before| <= i < |now| ==> now[i].code == code
  }

  class Collector {
    var issues: seq<Issue>

    constructor ()
      ensures issues == []
    {
      issues := [];
    }

    /** No error has been recorded; warnings do not count. */
    ghost predicate Ok()
      reads this
    {
      Clean(issues)
    }

    method AddError(code: Code, place: Place)
      modifies this
      ensures issues == old(issues) + [Issue(Error, code, place)]
      ensures !Ok()
    {
      issues := issues + [Issue(Error, code, place)];
      assert issues[|old(issues)|].severity == Error;
    }

    method AddWarning(code: Code, place: Place)
      modifies this
      ensures issues == old(issues) + [Issue(Warning, code, place)]
      ensures Ok() <==> old(Ok())
    {
      issues := issues + [Issue(Warning, code, place)];
      assert forall i :: 0 <= i < |old(issues)| ==> issues[i] == old(issues)[i];
    }

    /** `finish`: the report with repetitions removed, or the exception that carries it. */
    method Finish() returns (r: Result<seq<Issue>, seq<Issue>>)
      ensures r.Ok? <==> Ok()
      ensures r.Ok? ==> r.value == Unique(issues)
      ensures r.Err? ==> r.error == Unique(issues)
    {
      var report := Unique(issues);
      UniqueClean(issues);
      if Clean(report) {
        return Result.Ok(report);
      }
      return Result.Err(report);
    }
  }

  /** `_index`: the dictionary by identifier and its keys in insertion order. */
  method Index<T(!new)>(objects: seq<T>, key: T -> string, collection: Collection, c: Collector)
    returns (ids: seq<string>, result: map<string, T>)
    modifies c
    ensures result == ById(objects, key)
    ensures forall id :: id in ids <==> id in result
    ensures c.Ok() <==> old(c.Ok()) && UniqueIds(objects, key)
    ensures OnlyAdded(old(c.issues), c.issues, DuplicateObjectId)
  {
    hide Collector.Ok, UniqueIds;
    ids, result := [], map[];
    var position := 0;
    NothingRepeats(objects, key);
    while position < |objects|
      invariant 0 <= position <= |objects|
      invariant result == ById(objects[..position], key)
      invariant forall id :: id in ids <==> id in result
      invariant c.Ok() <==> old(c.Ok()) && UniqueIds(objects[..position], key)
      invariant OnlyAdded(old(c.issues), c.issues, DuplicateObjectId)
    {
      assert objects[..position + 1][..position] == objects[..position];
      UniqueSnoc(objects, position, key);
      var id := key(objects[position]);
      if id in result {
        c.AddError(DuplicateObjectId, At(collection, position));
      } else {
        ids, result := ids + [id], result[id := objects[position]];
      }
      position := position + 1;
    }
    assert objects[..position] == objects;
  }

  /** Reports every identifier of `ids` whose group is not a single object. */
  method CheckOneEach<T>(ids: seq<string>, groups: map<string, seq<T>>, collection: Collection, c: Collector)
    modifies c
    ensures c.Ok() <==> old(c.Ok()) && forall id :: id in ids ==> |Group(groups, id)| == 1
  {
    hide Collector.Ok, Group;
    var i := 0;
    while i < |ids|
      invariant 0 <= i <= |ids|
      invariant c.Ok() <==> old(c.Ok()) && forall k :: 0 <= k < i ==> |Group(groups, ids[k])| == 1
    {
      if |Group(groups, ids[i])| != 1 {
        c.AddError(CardinalityViolation, Of(collection, ids[i]));
      }
      i := i + 1;
    }
  }

  /** Counting per identifier of the index is counting per object. */
  lemma OneEach<T(!new), U(!new)>(ids: seq<string>, xs: seq<T>, key: T -> string, groups: map<string, seq<U>>, ys: seq<U>,
                                  target: U -> string)
    requires (forall id :: id in ids <==> id in ById(xs, key)) && Groups(groups, ys, target)
    ensures (forall id :: id in ids ==> |Group(groups, id)| == 1)
       <==> (forall x :: x in xs ==> |Matching(ys, target, key(x))| == 1)
  {
    if forall id :: id in ids ==> |Group(groups, id)| == 1 {
      forall x | x in xs ensures |Matching(ys, target, key(x))| == 1 {
        ByIdHas(xs, key, x);
        assert Group(groups, key(x)) == Matching(ys, target, key(x));
      }
    }
    if forall x :: x in xs ==> |Matching(ys, target, key(x))| == 1 {
      forall id | id in ids ensures |Group(groups, id)| == 1 {
        ByIdMember(xs, key, id);
        assert |Matching(ys, target, key(ById(xs, key)[id]))| == 1;
        assert Group(groups, id) == Matching(ys, target, id);
      }
    }
  }
}
