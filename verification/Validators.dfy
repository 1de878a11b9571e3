/** `validate_repository` (validators.py): all checks on one snapshot. */
module Validators {
  import opened Basics
  import opened ClaimChecks
  import opened Collecting
  import opened ProseChecks
  import opened RegistryChecks
  import opened RetrievalChecks
  import opened Snapshots

  ghost predicate RepositoryClean(s: Snapshot, hash: ClaimHash) {
    && IdentityClean(s.papers) && ThemesClean(s.themes) && ReferencesClean(s)
    && RetrievalClean(s, hash) && EvidenceClean(s) && AggregatesClean(s) && ClaimsClean(s)
    && ClosureClean(s) && PropositionsClean(s) && ProseClean(s)
  }

  /** The report, or the error that carries it: which of the two depends on the snapshot alone. */
  method ValidateRepository(s: Snapshot, hash: ClaimHash) returns (r: Result<seq<Issue>, seq<Issue>>)
    ensures r.Ok? <==> RepositoryClean(s, hash)
    ensures r.Ok? ==> Clean(r.value)
    ensures r.Err? ==> !Clean(r.error)
  {
    hide IdentityClean, ThemesClean, ReferencesClean, RetrievalClean, EvidenceClean, AggregatesClean, ClaimsClean,
      ClosureClean, PropositionsClean, ProseClean;
    var c := new Collector();
    assert c.Ok();
    CollectIdentityRegistry(s.papers, c);
    var _, _ := CollectThemeHierarchy(s.themes, c);
    CollectReferences(s, c);
    CollectRetrieval(s, hash, c);
    CollectEvidence(s, c);
    CollectAggregates(s, c);
    CollectClaims(s, c);
    CollectClosure(s, c);
    CollectPropositions(s, c);
    CollectProse(s, c);
    r := c.Finish();
    UniqueClean(c.issues);
  }
}
