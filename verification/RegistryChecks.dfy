/** The identity registry, the theme hierarchy and cross-repository references (validators.py). */
module RegistryChecks {
  import opened Basics
  import opened Collecting
  import opened Cycles
  import opened Lookup
  import opened Ordering
  import opened Snapshots

  // ---------------------------------------------------------------- identity registry

  predicate HasPrefix(s: string, prefix: string) {
    |prefix| <= |s| && s[..|prefix|] == prefix
  }

  function KeysWith(keys: seq<string>, prefix: string): (r: seq<string>)
    ensures forall k :: k in r <==> k in keys && HasPrefix(k, prefix)
  {
    if keys == [] then []
    else if HasPrefix(keys[0], prefix) then [keys[0]] + KeysWith(keys[1..], prefix)
    else KeysWith(keys[1..], prefix)
  }

  /** The DOI keys of a Paper: identity keys `doi:…` and the DOI field. */
  function DoiKeyList(p: Paper): seq<string> {
    var keys := KeysWith(p.identityKeys, "doi:");
    if p.doi.Some? && p.doi.value !in keys then keys + [p.doi.value] else keys
  }

  function DoiKeys(p: Paper): set<string> {
    ToSet(DoiKeyList(p))
  }

  function SourceKeys(p: Paper): set<string> {
    {p.sourceHash}
  }

  /** No two Papers with different identifiers share a key. */
  ghost predicate SoleOwners(papers: seq<Paper>, keysOf: Paper -> set<string>) {
    forall p, q, k :: p in papers && q in papers && k in keysOf(p) && k in keysOf(q) ==> p.paperId == q.paperId
  }

  ghost predicate RelatedExist(p: Paper, byId: map<string, Paper>) {
    forall r :: r in p.relatedPublications ==> r in byId
  }

  ghost predicate IdentityClean(papers: seq<Paper>) {
    && UniqueIds(papers, PaperIdOf)
    && (forall p :: p in papers ==> RelatedExist(p, ById(papers, PaperIdOf)))
    && SoleOwners(papers, DoiKeys) && SoleOwners(papers, SourceKeys)
  }

  /** `owners` names, for every key seen so far, the first Paper that has it. */
  ghost predicate Registered(owners: map<string, string>, papers: seq<Paper>, keysOf: Paper -> set<string>) {
    && (forall p, k :: p in papers && k in keysOf(p) ==> k in owners)
    && (forall k :: k in owners ==> exists p :: p in papers && k in keysOf(p) && owners[k] == p.paperId)
  }

  /** What registering the keys of one more Paper does. */
  ghost predicate KeysClaimed(before: map<string, string>, now: map<string, string>, keys: set<string>, id: string) {
    && now.Keys == before.Keys + keys
    && forall k :: k in now ==> now[k] == if k in before then before[k] else id
  }

  lemma NextRegistered(before: map<string, string>, now: map<string, string>, papers: seq<Paper>, i: nat,
                       keysOf: Paper -> set<string>)
    requires i < |papers| && Registered(before, papers[..i], keysOf)
    requires KeysClaimed(before, now, keysOf(papers[i]), papers[i].paperId)
    ensures Registered(now, papers[..i + 1], keysOf)
  {
    var front, all, p := papers[..i], papers[..i + 1], papers[i];
    assert all == front + [p];
    forall k | k in now ensures exists q :: q in all && k in keysOf(q) && now[k] == q.paperId {
      if k in before {
        var q :| q in front && k in keysOf(q) && before[k] == q.paperId;
        assert q in all;
      } else {
        assert p in all;
      }
    }
  }

  /** A Paper joins without conflict exactly when it owns all its keys. */
  lemma NextSoleOwner(before: map<string, string>, now: map<string, string>, papers: seq<Paper>, i: nat,
                      keysOf: Paper -> set<string>)
    requires i < |papers| && Registered(before, papers[..i], keysOf)
    requires KeysClaimed(before, now, keysOf(papers[i]), papers[i].paperId)
    ensures SoleOwners(papers[..i + 1], keysOf)
       <==> SoleOwners(papers[..i], keysOf) && forall k :: k in keysOf(papers[i]) ==> now[k] == papers[i].paperId
  {
    var front, all, p := papers[..i], papers[..i + 1], papers[i];
    assert all == front + [p];
    if SoleOwners(all, keysOf) {
      forall k | k in keysOf(p) ensures now[k] == p.paperId {
        if k in before {
          var q :| q in front && k in keysOf(q) && before[k] == q.paperId;
          assert q in all && p in all;
        }
      }
    }
    if SoleOwners(front, keysOf) && forall k :: k in keysOf(p) ==> now[k] == p.paperId {
      forall q, k | q in front && k in keysOf(q) && k in keysOf(p) ensures q.paperId == p.paperId {
        var r :| r in front && k in keysOf(r) && before[k] == r.paperId;
      }
    }
  }

  /** `owners.setdefault` for every key of one Paper, recording the keys that others own. */
  method ClaimKeys(owners: map<string, string>, keys: seq<string>, id: string, severity: Severity, code: Code,
                   place: Place, c: Collector)
    returns (now: map<string, string>)
    modifies c
    ensures KeysClaimed(owners, now, ToSet(keys), id)
    ensures severity == Error ==> (c.Ok() <==> old(c.Ok()) && forall k :: k in keys ==> now[k] == id)
    ensures severity == Warning ==> (c.Ok() <==> old(c.Ok()))
  {
    hide Collector.Ok;
    now := owners;
    var i := 0;
    while i < |keys|
      invariant 0 <= i <= |keys|
      invariant KeysClaimed(owners, now, ToSet(keys[..i]), id)
      invariant severity == Error ==> (c.Ok() <==> old(c.Ok()) && forall k :: k in keys[..i] ==> now[k] == id)
      invariant severity == Warning ==> (c.Ok() <==> old(c.Ok()))
    {
      var key := keys[i];
      assert keys[..i + 1] == keys[..i] + [key];
      if key !in now {
        now := now[key := id];
      }
      if now[key] != id {
        match severity
        case Error => c.AddError(code, place);
        case Warning => c.AddWarning(code, place);
      }
      i := i + 1;
    }
    assert keys[..i] == keys;
  }

  method CheckRelated(p: Paper, byId: map<string, Paper>, position: nat, c: Collector)
    modifies c
    ensures c.Ok() <==> old(c.Ok()) && RelatedExist(p, byId)
  {
    hide Collector.Ok;
    var i := 0;
    while i < |p.relatedPublications|
      invariant 0 <= i <= |p.relatedPublications|
      invariant c.Ok() <==> old(c.Ok()) && forall k :: 0 <= k < i ==> p.relatedPublications[k] in byId
    {
      if p.relatedPublications[i] !in byId {
        c.AddError(InvalidReference, At(Papers, position));
      }
      i := i + 1;
    }
  }

  lemma SortedKeysSame(keys: seq<string>)
    ensures ToSet(StableSort(LexLeq, keys)) == ToSet(keys)
    ensures forall k :: k in StableSort(LexLeq, keys) <==> k in keys
  {
    SortSame(LexLeq, keys);
  }

  /** `_collect_identity_registry`. */
  method CollectIdentityRegistry(papers: seq<Paper>, c: Collector)
    modifies c
    ensures c.Ok() <==> old(c.Ok()) && IdentityClean(papers)
  {
    hide Collector.Ok, UniqueIds, ById, RelatedExist, SoleOwners, Registered, KeysClaimed, DoiKeyList, StableSort, KeysWith,
      LexLeq, HasPrefix;
    var _, byId := Index(papers, PaperIdOf, Papers, c);
    ghost var unique := UniqueIds(papers, PaperIdOf);
    var doiOwners, sourceOwners, bibOwners := map[], map[], map[];
    NothingRegistered(papers);
    var position := 0;
    while position < |papers|
      invariant 0 <= position <= |papers|
      invariant Registered(doiOwners, papers[..position], DoiKeys)
      invariant Registered(sourceOwners, papers[..position], SourceKeys)
      invariant c.Ok() <==> old(c.Ok()) && unique && RegistrySoFar(papers, position)
    {
      var p := papers[position];
      CheckRelated(p, byId, position, c);
      var dois := StableSort(LexLeq, DoiKeyList(p));
      SortedKeysSame(DoiKeyList(p));
      ghost var doisBefore, sourcesBefore := doiOwners, sourceOwners;
      doiOwners := ClaimKeys(doiOwners, dois, p.paperId, Error, DuplicateIdentityConflict, At(Papers, position), c);
      sourceOwners := ClaimKeys(sourceOwners, [p.sourceHash], p.paperId, Error, DuplicateIdentityConflict,
                                At(Papers, position), c);
      bibOwners := ClaimKeys(bibOwners, StableSort(LexLeq, KeysWith(p.identityKeys, "bib:")), p.paperId, Warning,
                             PossibleDuplicateWarning, At(Papers, position), c);
      assert ToSet([p.sourceHash]) == SourceKeys(p);
      RegistryStep(papers, position, doisBefore, doiOwners, sourcesBefore, sourceOwners);
      position := position + 1;
    }
    assert papers[..position] == papers;
  }

  ghost predicate RegistrySoFar(papers: seq<Paper>, n: nat)
    requires n <= |papers|
  {
    && (forall p :: p in papers[..n] ==> RelatedExist(p, ById(papers, PaperIdOf)))
    && SoleOwners(papers[..n], DoiKeys) && SoleOwners(papers[..n], SourceKeys)
  }

  lemma NothingRegistered(papers: seq<Paper>)
    ensures Registered(map[], papers[..0], DoiKeys) && Registered(map[], papers[..0], SourceKeys)
    ensures RegistrySoFar(papers, 0)
  {
  }

  lemma RegistryStep(papers: seq<Paper>, i: nat, doisBefore: map<string, string>, dois: map<string, string>,
                     sourcesBefore: map<string, string>, sources: map<string, string>)
    requires i < |papers|
    requires Registered(doisBefore, papers[..i], DoiKeys) && Registered(sourcesBefore, papers[..i], SourceKeys)
    requires KeysClaimed(doisBefore, dois, DoiKeys(papers[i]), papers[i].paperId)
    requires KeysClaimed(sourcesBefore, sources, SourceKeys(papers[i]), papers[i].paperId)
    ensures Registered(dois, papers[..i + 1], DoiKeys) && Registered(sources, papers[..i + 1], SourceKeys)
    ensures RegistrySoFar(papers, i + 1)
       <==> RegistrySoFar(papers, i) && RelatedExist(papers[i], ById(papers, PaperIdOf))
            && (forall k :: k in DoiKeys(papers[i]) ==> dois[k] == papers[i].paperId)
            && (forall k :: k in SourceKeys(papers[i]) ==> sources[k] == papers[i].paperId)
  {
    hide Registered, SoleOwners, RelatedExist, DoiKeys, SourceKeys, ById;
    NextRegistered(doisBefore, dois, papers, i, DoiKeys);
    NextRegistered(sourcesBefore, sources, papers, i, SourceKeys);
    NextSoleOwner(doisBefore, dois, papers, i, DoiKeys);
    NextSoleOwner(sourcesBefore, sources, papers, i, SourceKeys);
    assert papers[..i + 1] == papers[..i] + [papers[i]];
  }

  // ---------------------------------------------------------------- theme hierarchy

  function Parents(byId: map<string, Theme>): map<string, Option<string>> {
    map id | id in byId :: byId[id].parentThemeId
  }

  predicate ParentOk(t: Theme, byId: map<string, Theme>) {
    t.parentThemeId.None? || (t.parentThemeId.value != t.themeId && t.parentThemeId.value in byId)
  }

  ghost predicate ThemesClean(themes: seq<Theme>) {
    var byId := ById(themes, ThemeIdOf);
    && UniqueIds(themes, ThemeIdOf) && (forall t :: t in themes ==> ParentOk(t, byId))
    && forall x :: !OnCycle(ParentLinks(Parents(byId)), x)
  }

  /** One THEME_CYCLE finding for each cycle, at the theme where the walk closed it. */
  function CycleIssues(cycles: seq<seq<string>>): (r: seq<Issue>)
    requires forall i :: 0 <= i < |cycles| ==> cycles[i] != []
    ensures |r| == |cycles|
    ensures forall i :: 0 <= i < |r| ==> r[i] == CycleIssue(cycles[i])
  {
    if cycles == [] then [] else CycleIssues(cycles[..|cycles| - 1]) + [CycleIssue(cycles[|cycles| - 1])]
  }

  function CycleIssue(cycle: seq<string>): Issue
    requires cycle != []
  {
    Issue(Error, ThemeCycle(cycle), Of(Themes, cycle[|cycle| - 1]))
  }

  /** `_collect_theme_hierarchy`: besides other findings it reports exactly the cycles of parents. */
  method CollectThemeHierarchy(themes: seq<Theme>, c: Collector)
    returns (ghost others: seq<Issue>, ghost cycles: seq<seq<string>>)
    modifies c
    ensures c.Ok() <==> old(c.Ok()) && ThemesClean(themes)
    ensures ExactlyTheCycles(ParentLinks(Parents(ById(themes, ThemeIdOf))), cycles)
    ensures forall i :: 0 <= i < |cycles| ==> |cycles[i]| >= 3
    ensures c.issues == old(c.issues) + others + CycleIssues(cycles)
    ensures forall i :: 0 <= i < |others| ==> !others[i].code.ThemeCycle?
  {
    hide Collector.Ok, UniqueIds, ById, ParentLinks, ExactlyTheCycles, OnCycle, CycleIssues;
    var ids, byId := Index(themes, ThemeIdOf, Themes, c);
    CheckParents(themes, byId, c);
    others := c.issues[|old(c.issues)|..];
    var walk := new ThemeWalk(Parents(byId));
    walk.Run(ids);
    cycles := walk.cycles;
    CyclesAreLong(ParentLinks(Parents(byId)), cycles);
    ReportCycles(walk.cycles, c);
  }

  lemma CyclesAreLong(next: map<string, string>, cycles: seq<seq<string>>)
    requires ExactlyTheCycles(next, cycles)
    ensures forall i :: 0 <= i < |cycles| ==> |cycles[i]| >= 3
    ensures cycles == [] <==> forall x :: !OnCycle(next, x)
  {
    assert forall i :: 0 <= i < |cycles| ==> IsCycle(next, cycles[i]);
    if cycles != [] {
      assert cycles[0][0] in cycles[0];
      assert Reported(cycles, cycles[0][0]);
    }
  }

  method CheckParents(themes: seq<Theme>, byId: map<string, Theme>, c: Collector)
    modifies c
    ensures c.Ok() <==> old(c.Ok()) && forall t :: t in themes ==> ParentOk(t, byId)
    ensures old(c.issues) <= c.issues
    ensures forall i :: |old(c.issues)| <= i < |c.issues| ==> !c.issues[i].code.ThemeCycle?
  {
    hide Collector.Ok;
    var position := 0;
    while position < |themes|
      invariant 0 <= position <= |themes|
      invariant c.Ok() <==> old(c.Ok()) && forall k :: 0 <= k < position ==> ParentOk(themes[k], byId)
      invariant old(c.issues) <= c.issues
      invariant forall i :: |old(c.issues)| <= i < |c.issues| ==> !c.issues[i].code.ThemeCycle?
    {
      var t := themes[position];
      if t.parentThemeId.Some? {
        if t.parentThemeId.value == t.themeId {
          c.AddError(ThemeSelfParent, At(Themes, position));
        } else if t.parentThemeId.value !in byId {
          c.AddError(InvalidReference, At(Themes, position));
        }
      }
      position := position + 1;
    }
  }

  method ReportCycles(cycles: seq<seq<string>>, c: Collector)
    requires forall i :: 0 <= i < |cycles| ==> cycles[i] != []
    modifies c
    ensures c.issues == old(c.issues) + CycleIssues(cycles)
    ensures c.Ok() <==> old(c.Ok()) && cycles == []
  {
    hide Collector.Ok;
    var i := 0;
    while i < |cycles|
      invariant 0 <= i <= |cycles|
      invariant c.issues == old(c.issues) + CycleIssues(cycles[..i])
      invariant c.Ok() <==> old(c.Ok()) && i == 0
    {
      assert cycles[..i + 1][..i] == cycles[..i];
      c.AddError(ThemeCycle(cycles[i]), Of(Themes, cycles[i][|cycles[i]| - 1]));
      i := i + 1;
    }
    assert cycles[..i] == cycles;
  }

  // ---------------------------------------------------------------- cross-repository references

  ghost predicate ReferencesClean(s: Snapshot) {
    && (forall x :: x in s.claims ==> x.themeId in ById(s.themes, ThemeIdOf))
    && (forall x, id :: x in s.corpusFacts && id in x.paperIds ==> id in ById(s.papers, PaperIdOf))
  }

  method CheckFactPapers(fact: CorpusFact, papers: map<string, Paper>, position: nat, c: Collector)
    modifies c
    ensures c.Ok() <==> old(c.Ok()) && forall id :: id in fact.paperIds ==> id in papers
  {
    hide Collector.Ok;
    var i := 0;
    while i < |fact.paperIds|
      invariant 0 <= i <= |fact.paperIds|
      invariant c.Ok() <==> old(c.Ok()) && forall k :: 0 <= k < i ==> fact.paperIds[k] in papers
    {
      if fact.paperIds[i] !in papers {
        c.AddError(InvalidReference, At(CorpusFacts, position));
      }
      i := i + 1;
    }
  }

  /** `_collect_cross_repository_references`. */
  method CollectReferences(s: Snapshot, c: Collector)
    modifies c
    ensures c.Ok() <==> old(c.Ok()) && ReferencesClean(s)
  {
    hide Collector.Ok, ById;
    var themes, papers := ById(s.themes, ThemeIdOf), ById(s.papers, PaperIdOf);
    var position := 0;
    while position < |s.claims|
      invariant 0 <= position <= |s.claims|
      invariant c.Ok() <==> old(c.Ok()) && forall k :: 0 <= k < position ==> s.claims[k].themeId in themes
    {
      if s.claims[position].themeId !in themes {
        c.AddError(InvalidReference, At(Claims, position));
      }
      position := position + 1;
    }
    ghost var claimsOk := forall x :: x in s.claims ==> x.themeId in themes;
    position := 0;
    while position < |s.corpusFacts|
      invariant 0 <= position <= |s.corpusFacts|
      invariant c.Ok() <==> (old(c.Ok()) && claimsOk
        && forall k, id :: 0 <= k < position && id in s.corpusFacts[k].paperIds ==> id in papers)
    {
      CheckFactPapers(s.corpusFacts[position], papers, position, c);
      position := position + 1;
    }
  }
}
