/** Claim-paper aggregates, claim packets and the closure of finished claims (validators.py). */
module ClaimChecks {
  import opened Basics
  import opened Collecting
  import opened Lookup
  import opened Ordering
  import opened Snapshots

  // ---------------------------------------------------------------- claim-paper evidence

  /** A record listed under a relation belongs to the aggregate's claim and paper and has that relation. */
  predicate MemberOk(id: string, r: Relation, x: Cpe, evidence: map<string, Evidence>) {
    && id in evidence && evidence[id].claimId == x.claimId && evidence[id].paperId == x.paperId
    && evidence[id].relation == r
  }

  ghost predicate GroupOk(r: Relation, x: Cpe, evidence: map<string, Evidence>) {
    forall id :: id in x.components.Group(r) ==> MemberOk(id, r, x, evidence)
  }

  ghost predicate PartitionOk(x: Cpe) {
    && NoRepeats(x.evidenceIds) && NoRepeats(x.components.Grouped())
    && ToSet(x.components.Grouped()) == ToSet(x.evidenceIds)
  }

  ghost predicate CpeOk(x: Cpe, claims: map<string, Claim>, papers: map<string, Paper>, evidence: map<string, Evidence>) {
    && x.claimId in claims && x.paperId in papers && PartitionOk(x)
    && (forall r: Relation :: GroupOk(r, x, evidence))
    && (x.aggregate.Mixed? ==> x.components.SubstantiveGroups() >= 2)
  }

  ghost predicate AggregatesClean(s: Snapshot) {
    var claims, papers := ById(s.claims, ClaimIdOf), ById(s.papers, PaperIdOf);
    var evidence := ById(s.evidence, EvidenceIdOf);
    && UniqueIds(s.claims, ClaimIdOf) && UniqueIds(s.papers, PaperIdOf)
    && UniqueIds(s.evidence, EvidenceIdOf) && UniqueIds(s.cpes, CpeIdOf)
    && forall x :: x in s.cpes ==> CpeOk(x, claims, papers, evidence)
  }

  method CheckGroup(r: Relation, x: Cpe, evidence: map<string, Evidence>, position: nat, c: Collector)
    modifies c
    ensures c.Ok() <==> old(c.Ok()) && GroupOk(r, x, evidence)
  {
    hide Collector.Ok;
    var ids, here := x.components.Group(r), At(Cpes, position);
    var i := 0;
    while i < |ids|
      invariant 0 <= i <= |ids|
      invariant c.Ok() <==> old(c.Ok()) && forall k :: 0 <= k < i ==> MemberOk(ids[k], r, x, evidence)
    {
      var id := ids[i];
      i := i + 1;
      if id !in evidence {
        c.AddError(InvalidReference, here);
        continue;
      }
      if evidence[id].claimId != x.claimId {
        c.AddError(CpeClaimMismatch, here);
      }
      if evidence[id].paperId != x.paperId {
        c.AddError(CpePaperMismatch, here);
      }
      if evidence[id].relation != r {
        c.AddError(CpeRelationMismatch, here);
      }
    }
  }

  const RELATIONS: seq<Relation> := [Supports, Contradicts, Qualifies, Contextual, Unclear]

  lemma AllGroups(x: Cpe, evidence: map<string, Evidence>)
    ensures (forall r: Relation :: GroupOk(r, x, evidence))
       <==> (forall k :: 0 <= k < |RELATIONS| ==> GroupOk(RELATIONS[k], x, evidence))
  {
    hide GroupOk;
    if forall k :: 0 <= k < |RELATIONS| ==> GroupOk(RELATIONS[k], x, evidence) {
      forall r: Relation ensures GroupOk(r, x, evidence) {
        var k := match r case Supports => 0 case Contradicts => 1 case Qualifies => 2 case Contextual => 3 case Unclear => 4;
        assert RELATIONS[k] == r;
      }
    }
  }

  method CheckCpe(x: Cpe, claims: map<string, Claim>, papers: map<string, Paper>, evidence: map<string, Evidence>,
                  position: nat, c: Collector)
    modifies c
    ensures c.Ok() <==> old(c.Ok()) && CpeOk(x, claims, papers, evidence)
  {
    hide Collector.Ok, GroupOk, NoRepeats;
    var here := At(Cpes, position);
    if x.claimId !in claims {
      c.AddError(InvalidReference, here);
    }
    if x.paperId !in papers {
      c.AddError(InvalidReference, here);
    }
    var grouped := x.components.Grouped();
    if !NoRepeats(x.evidenceIds) || !NoRepeats(grouped) {
      c.AddError(CpeEvidencePartitionMismatch, here);
    }
    if ToSet(grouped) != ToSet(x.evidenceIds) {
      c.AddError(CpeEvidencePartitionMismatch, here);
    }
    ghost var before := c.Ok();
    var i := 0;
    while i < |RELATIONS|
      invariant 0 <= i <= |RELATIONS|
      invariant c.Ok() <==> before && forall k :: 0 <= k < i ==> GroupOk(RELATIONS[k], x, evidence)
    {
      CheckGroup(RELATIONS[i], x, evidence, position, c);
      i := i + 1;
    }
    AllGroups(x, evidence);
    if x.aggregate.Mixed? && x.components.SubstantiveGroups() < 2 {
      c.AddError(InvalidMixedCpe, here);
    }
  }

  /** `_collect_claim_evidence_bundle`. */
  method CollectAggregates(s: Snapshot, c: Collector)
    modifies c
    ensures c.Ok() <==> old(c.Ok()) && AggregatesClean(s)
  {
    hide Collector.Ok, UniqueIds, ById, CpeOk;
    var _, claims := Index(s.claims, ClaimIdOf, Claims, c);
    var _, papers := Index(s.papers, PaperIdOf, Papers, c);
    var _, evidence := Index(s.evidence, EvidenceIdOf, EvidenceRecords, c);
    var _, _ := Index(s.cpes, CpeIdOf, Cpes, c);
    ghost var before := c.Ok();
    var position := 0;
    while position < |s.cpes|
      invariant 0 <= position <= |s.cpes|
      invariant c.Ok() <==> before && forall k :: 0 <= k < position ==> CpeOk(s.cpes[k], claims, papers, evidence)
    {
      CheckCpe(s.cpes[position], claims, papers, evidence, position, c);
      position := position + 1;
    }
  }

  // ---------------------------------------------------------------- claim bundle

  predicate RelationOk(r: FinalRelation, f: Final, cpes: map<string, Cpe>) {
    r.cpeId in cpes && cpes[r.cpeId].claimId == f.claimId && cpes[r.cpeId].paperId == r.paperId
  }

  ghost predicate FinalOk(f: Final, cpes: map<string, Cpe>) {
    forall r :: r in f.relations ==> RelationOk(r, f, cpes)
  }

  function RelationIds(f: Final): (ids: seq<string>)
    ensures |ids| == |f.relations| && forall i :: 0 <= i < |ids| ==> ids[i] == f.relations[i].cpeId
  {
    seq(|f.relations|, i requires 0 <= i < |f.relations| => f.relations[i].cpeId)
  }

  function CpesOfClaim(cpes: seq<Cpe>, claimId: string): set<string> {
    set x | x in cpes && x.claimId == claimId :: x.cpeId
  }

  ghost predicate PacketClaimOk(p: Packet, claims: map<string, Claim>) {
    p.claimId in claims && p.claimText == claims[p.claimId].text && p.themeId == claims[p.claimId].themeId
  }

  ghost predicate PacketAssessmentOk(p: Packet, assessments: map<string, Assessment>) {
    && p.claimId in assessments && p.strength == assessments[p.claimId].strength
    && !assessments[p.claimId].decision.Reject?
  }

  ghost predicate PacketFinalOk(p: Packet, finals: map<string, Final>, cpes: seq<Cpe>) {
    && p.claimId in finals
    && var f := finals[p.claimId];
       && f.status.Valid? && p.finalText == f.text
       && NoRepeats(p.cpeIds) && NoRepeats(RelationIds(f)) && ToSet(p.cpeIds) == ToSet(RelationIds(f))
       && ToSet(RelationIds(f)) == CpesOfClaim(cpes, p.claimId)
  }

  ghost predicate PacketCpesOk(p: Packet, cpes: map<string, Cpe>) {
    forall id :: id in p.cpeIds ==> id in cpes && cpes[id].claimId == p.claimId
  }

  ghost predicate PacketOk(p: Packet, s: Snapshot) {
    && PacketClaimOk(p, ById(s.claims, ClaimIdOf)) && PacketAssessmentOk(p, ById(s.assessments, AssessedClaimOf))
    && PacketFinalOk(p, ById(s.finals, FinalClaimOf), s.cpes) && PacketCpesOk(p, ById(s.cpes, CpeIdOf))
  }

  ghost predicate ClaimsClean(s: Snapshot) {
    var claims := ById(s.claims, ClaimIdOf);
    && UniqueIds(s.claims, ClaimIdOf) && UniqueIds(s.cpes, CpeIdOf) && UniqueIds(s.assessments, AssessedClaimOf)
    && UniqueIds(s.finals, FinalClaimOf) && UniqueIds(s.packets, PacketClaimOf)
    && (forall x :: x in s.assessments ==> x.claimId in claims)
    && (forall x :: x in s.finals ==> x.claimId in claims)
    && (forall x :: x in s.packets ==> x.claimId in claims)
    && (forall x :: x in s.finals ==> FinalOk(x, ById(s.cpes, CpeIdOf)))
    && (forall x :: x in s.packets ==> PacketOk(x, s))
  }

  method CheckClaimRefs<T(!new)>(xs: seq<T>, claimOf: T -> string, collection: Collection, claims: map<string, Claim>,
                                 c: Collector)
    modifies c
    ensures c.Ok() <==> old(c.Ok()) && forall x :: x in xs ==> claimOf(x) in claims
  {
    hide Collector.Ok;
    var position := 0;
    while position < |xs|
      invariant 0 <= position <= |xs|
      invariant c.Ok() <==> old(c.Ok()) && forall k :: 0 <= k < position ==> claimOf(xs[k]) in claims
    {
      if claimOf(xs[position]) !in claims {
        c.AddError(InvalidReference, At(collection, position));
      }
      position := position + 1;
    }
  }

  method CheckFinal(f: Final, cpes: map<string, Cpe>, position: nat, c: Collector)
    modifies c
    ensures c.Ok() <==> old(c.Ok()) && FinalOk(f, cpes)
  {
    hide Collector.Ok;
    var here := At(Finals, position);
    var i := 0;
    while i < |f.relations|
      invariant 0 <= i <= |f.relations|
      invariant c.Ok() <==> old(c.Ok()) && forall k :: 0 <= k < i ==> RelationOk(f.relations[k], f, cpes)
    {
      var r := f.relations[i];
      i := i + 1;
      if r.cpeId !in cpes {
        c.AddError(InvalidReference, here);
        continue;
      }
      if cpes[r.cpeId].claimId != f.claimId {
        c.AddError(CpeSetContinuityMismatch, here);
      }
      if cpes[r.cpeId].paperId != r.paperId {
        c.AddError(FinalRelationPaperMismatch, here);
      }
    }
  }

  method CheckFinals(finals: seq<Final>, cpes: map<string, Cpe>, c: Collector)
    modifies c
    ensures c.Ok() <==> old(c.Ok()) && forall x :: x in finals ==> FinalOk(x, cpes)
  {
    hide Collector.Ok, FinalOk;
    var position := 0;
    while position < |finals|
      invariant 0 <= position <= |finals|
      invariant c.Ok() <==> old(c.Ok()) && forall k :: 0 <= k < position ==> FinalOk(finals[k], cpes)
    {
      CheckFinal(finals[position], cpes, position, c);
      position := position + 1;
    }
  }

  method CheckPacketFinal(p: Packet, finals: map<string, Final>, cpes: seq<Cpe>, here: Place, c: Collector)
    modifies c
    ensures c.Ok() <==> old(c.Ok()) && PacketFinalOk(p, finals, cpes)
  {
    hide Collector.Ok, NoRepeats, ToSet, CpesOfClaim, RelationIds;
    if p.claimId !in finals {
      c.AddError(InvalidReference, here);
      return;
    }
    var f := finals[p.claimId];
    if !f.status.Valid? {
      c.AddError(ClaimPacketRequiresValidFinalClaim, here);
    }
    if p.finalText != f.text {
      c.AddError(ClaimPacketUpstreamMismatch, here);
    }
    var relationIds := RelationIds(f);
    if !NoRepeats(p.cpeIds) || !NoRepeats(relationIds) || ToSet(p.cpeIds) != ToSet(relationIds) {
      c.AddError(CpeSetContinuityMismatch, here);
    }
    if ToSet(relationIds) != CpesOfClaim(cpes, p.claimId) {
      c.AddError(FinalCpeCoverageMismatch, here);
    }
  }

  method CheckPacketCpes(p: Packet, cpes: map<string, Cpe>, here: Place, c: Collector)
    modifies c
    ensures c.Ok() <==> old(c.Ok()) && PacketCpesOk(p, cpes)
  {
    hide Collector.Ok;
    var i := 0;
    while i < |p.cpeIds|
      invariant 0 <= i <= |p.cpeIds|
      invariant c.Ok() <==> old(c.Ok())
                            && forall k :: 0 <= k < i ==> p.cpeIds[k] in cpes && cpes[p.cpeIds[k]].claimId == p.claimId
    {
      var id := p.cpeIds[i];
      if id !in cpes {
        c.AddError(InvalidReference, here);
      } else if cpes[id].claimId != p.claimId {
        c.AddError(CpeSetContinuityMismatch, here);
      }
      i := i + 1;
    }
  }

  /** One packet; whether its claim exists at all has been checked before. */
  method CheckPacket(p: Packet, s: Snapshot, claims: map<string, Claim>, assessments: map<string, Assessment>,
                     finals: map<string, Final>, cpes: map<string, Cpe>, position: nat, c: Collector)
    requires claims == ById(s.claims, ClaimIdOf) && assessments == ById(s.assessments, AssessedClaimOf)
    requires finals == ById(s.finals, FinalClaimOf) && cpes == ById(s.cpes, CpeIdOf)
    modifies c
    ensures p.claimId in claims ==> (c.Ok() <==> old(c.Ok()) && PacketOk(p, s))
    ensures c.Ok() ==> old(c.Ok())
  {
    hide Collector.Ok, ById, PacketFinalOk, PacketCpesOk;
    var here := At(Packets, position);
    if p.claimId in claims {
      if p.claimText != claims[p.claimId].text {
        c.AddError(ClaimPacketUpstreamMismatch, here);
      }
      if p.themeId != claims[p.claimId].themeId {
        c.AddError(ClaimPacketUpstreamMismatch, here);
      }
    }
    if p.claimId !in assessments {
      c.AddError(InvalidReference, here);
    } else if p.strength != assessments[p.claimId].strength {
      c.AddError(ClaimPacketUpstreamMismatch, here);
    }
    if p.claimId in assessments && assessments[p.claimId].decision.Reject? {
      c.AddError(RejectCannotYieldClaimPacket, here);
    }
    CheckPacketFinal(p, finals, s.cpes, here, c);
    CheckPacketCpes(p, cpes, here, c);
  }

  method CheckPackets(s: Snapshot, claims: map<string, Claim>, assessments: map<string, Assessment>,
                      finals: map<string, Final>, cpes: map<string, Cpe>, c: Collector)
    requires claims == ById(s.claims, ClaimIdOf) && assessments == ById(s.assessments, AssessedClaimOf)
    requires finals == ById(s.finals, FinalClaimOf) && cpes == ById(s.cpes, CpeIdOf)
    modifies c
    ensures (forall x :: x in s.packets ==> x.claimId in claims) ==>
              (c.Ok() <==> old(c.Ok()) && forall x :: x in s.packets ==> PacketOk(x, s))
    ensures c.Ok() ==> old(c.Ok())
  {
    hide Collector.Ok, ById, PacketOk;
    ghost var known := forall x :: x in s.packets ==> x.claimId in claims;
    var position := 0;
    while position < |s.packets|
      invariant 0 <= position <= |s.packets|
      invariant known ==> (c.Ok() <==> old(c.Ok()) && forall k :: 0 <= k < position ==> PacketOk(s.packets[k], s))
      invariant c.Ok() ==> old(c.Ok())
    {
      CheckPacket(s.packets[position], s, claims, assessments, finals, cpes, position, c);
      position := position + 1;
    }
  }

  /** `_collect_claim_bundle`. */
  method CollectClaims(s: Snapshot, c: Collector)
    modifies c
    ensures c.Ok() <==> old(c.Ok()) && ClaimsClean(s)
  {
    hide Collector.Ok, UniqueIds, ById, FinalOk, PacketOk;
    var _, claims := Index(s.claims, ClaimIdOf, Claims, c);
    var _, cpes := Index(s.cpes, CpeIdOf, Cpes, c);
    var _, assessments := Index(s.assessments, AssessedClaimOf, Assessments, c);
    var _, finals := Index(s.finals, FinalClaimOf, Finals, c);
    var _, _ := Index(s.packets, PacketClaimOf, Packets, c);
    CheckClaimRefs(s.assessments, AssessedClaimOf, Assessments, claims, c);
    CheckClaimRefs(s.finals, FinalClaimOf, Finals, claims, c);
    CheckClaimRefs(s.packets, PacketClaimOf, Packets, claims, c);
    CheckFinals(s.finals, cpes, c);
    CheckPackets(s, claims, assessments, finals, cpes, c);
  }

  // ---------------------------------------------------------------- closure of finished claims

  function PacketClaims(packets: seq<Packet>): set<string> {
    set p | p in packets :: p.claimId
  }

  function AggregatedIds(cpes: seq<Cpe>): set<string> {
    set x, id | x in cpes && id in x.evidenceIds :: id
  }

  ghost predicate ClosureClean(s: Snapshot) {
    forall e :: e in s.evidence && e.claimId in PacketClaims(s.packets) ==> e.evidenceId in AggregatedIds(s.cpes)
  }

  /** `_collect_packet_evidence_closure`. */
  method CollectClosure(s: Snapshot, c: Collector)
    modifies c
    ensures c.Ok() <==> old(c.Ok()) && ClosureClean(s)
  {
    hide Collector.Ok, PacketClaims, AggregatedIds;
    var packetClaims := PacketClaims(s.packets);
    if packetClaims == {} {
      return;
    }
    var aggregated := AggregatedIds(s.cpes);
    var position := 0;
    while position < |s.evidence|
      invariant 0 <= position <= |s.evidence|
      invariant c.Ok() <==> old(c.Ok()) && forall k :: 0 <= k < position ==>
                              s.evidence[k].claimId in packetClaims ==> s.evidence[k].evidenceId in aggregated
    {
      var e := s.evidence[position];
      if e.claimId in packetClaims && e.evidenceId !in aggregated {
        c.AddError(UnaggregatedEvidenceAfterPacket, At(EvidenceRecords, position));
      }
      position := position + 1;
    }
  }
}
