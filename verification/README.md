# Verification of vibereview

A Dafny model of the parts of vibereview that keep its evidence honest, and proofs about them. `dafny verify dfyconfig.toml`
checks the whole project.

* **Retrieval** (`SourceText`, `Retrieval*`). Two searchers keep only their best hits as they go; a coordinator merges hits
  at one location, ranks and cuts. Which paragraphs and evidence texts are hits, where and with what score is stated in terms
  of the texts (`RetrievalMatches`). The ledger satisfies every ledger check, and no hit disappears from the counts. Bounded
  retrieval selects what unbounded retrieval would whenever no two valid locations share a paper and a start offset. In
  general it does not: merging gives a passage a new key and with it a new rank at its start offset, where one search may
  have dropped something. The exact condition is proved (`Settled`): for whatever collision-free digest, the selection is
  unchanged exactly if, wherever a paragraph that the graph found too meets another graph passage at its start offset
  within reach of the selection, both searches keep what they find there. `RetrievalExample` breaks it with one paragraph
  and 101 evidence texts.
* **Pinned Git trees** (`Utf8`, `Git*`). Parsing and printing tree objects are inverse. The memoised, bounded traversal
  equals plain flattening, and agrees with the component walk wherever that walk is allowed to go: the traversal lists paths
  of up to 129 components, the walk refuses more than 128.
* **Repository validators** (`Snapshots`, `Lookup`, `Collecting`, `*Checks`, `Validators`, `Cycles`). Every pass appends
  findings to one list; each is proved clean exactly when a declarative condition holds. Both cycle detectors are exact.
* **Provenance** (`Provenance`). What the passes imply together: rendered scientific sentences lead back to assessed passages
  of the papers they cite, and a finished claim leaves no assessed passage out.
* **Promotion** (`Registry`, `Promotion*`). An accepted request keeps the whole repository valid, so the commit's own
  validation never fails; over every run no passage is counted twice. The replay of the retrieval subsumes every check on a
  single field of the ledger.
* **Corpus import** (`CorpusImport`, `ImportValidity`). The loop over the identity index keeps the Paper registry free of
  conflicts and loses nothing.
* **Assembly** (`AssemblyLayout`, `Assembly`). The body is tiled exactly by its sentences, the record lists exactly the
  citations behind them, and verification accepts exactly what assembly produces.
* **Coverage** (`Tallies`, `Coverage*`). A coverage report passes its own checks for every accepted list of queries, and each
  of its figures is the number of things it stands for.
* **Synthetic pilot** (`Pilot*`). Journal and attempt directories are durable, engine cursors are not. Over every
  interleaving of steps, crashes and restarts no scripted response is taken twice or skipped, budgets are exact, and the
  journal keeps its fixed order. The controller's methods are proved to take steps of that protocol.

Names follow the program: `ById` is the dictionary of `_index`, `Matching` an entry of a grouping dictionary,
`…Clean` the condition under which a pass records no error, `Retained`/`Journaled`/`Executed` the three counts of attempts.

What the program takes from elsewhere is a parameter: SHA-256 (injective where a theorem needs it), case folding, white
space, section headings, query terms, identifier normalization, the path of a raw document, elapsed time and usage totals.
Scores are rationals. The generation store is a sequence of snapshots that grows by compare-and-append; the object store
of Git is a map; an engine is a script position. Attempt directories are counted rather than named.

## Model

| member | source | states |
|---|---|---|
| SourceText.ParagraphSlices | src/vibereview/library/retrieval.py:372-389 | the generator yields the trimmed ranges between leftmost separators |
| SourceText.SeparatorExactly | src/vibereview/library/retrieval.py:374 | the separator pattern matches exactly two ends of line with only blanks between them |
| SourceText.ParagraphsExact | src/vibereview/library/retrieval.py:372-389 | paragraphs are ordered, disjoint, non-empty, start and end on text, have a blank line between any two and none inside |
| SourceText.ParagraphsPartitionText | src/vibereview/library/retrieval.py:372-389 | every code point that is not white space lies in exactly one paragraph |
| SourceText.BoundedContextSlice | src/vibereview/library/retrieval.py:392-416 | refuses exactly the spans that are outside the text or too long; otherwise returns the window of `WindowExact` |
| SourceText.WindowExact | src/vibereview/library/retrieval.py:392-416 | the window lies in the text, holds the span, and has exactly min(limit, text length) code points |
| RetrievalBackends.ValidCandidateOk | src/vibereview/library/retrieval.py:51-148 | a candidate built from a span and its window passes all checks on a candidate exactly when its fields from corpus and graph are short enough |
| RetrievalHits.RankIsTotal | src/vibereview/library/retrieval.py:161-164 | the ranking key is a total order on scores, papers, offsets and keys |
| RetrievalBackends.RetainedHits.RetainBest | src/vibereview/library/retrieval.py:419-429 | a list that holds the best `limit` hits of what went through it holds the best `limit` of that and the new hit |
| RetrievalBackends.RetainAllIsSortedPrefix | src/vibereview/library/retrieval.py:419-429 | folding `_retain_best` over any stream gives the first `limit` values of its stable sort |
| RetrievalBackends.TextSearch | src/vibereview/library/retrieval.py:479-597 | refuses exactly bad limits, intents, over-long queries and candidates with over-long fields; otherwise keeps the best of the text stream and counts the rest by class |
| RetrievalBackends.GraphSearch | src/vibereview/library/retrieval.py:723-878 | the same for the graph stream, including where it gives up |
| RetrievalBackends.TextStreamEmitted | src/vibereview/library/retrieval.py:505-590 | everything the text search comes across is an exact candidate of some paper that passes its checks |
| RetrievalBackends.GraphStreamEmitted | src/vibereview/library/retrieval.py:745-871 | the same for the graph search |
| RetrievalMatches.TextHitExactly | src/vibereview/library/retrieval.py:505-590 | a paragraph yields a hit exactly when some query term occurs in its casefolded text; the score times the number of terms is how many of them occur; every field is that of the paragraph |
| RetrievalMatches.TextStreamExactly | src/vibereview/library/retrieval.py:505-590 | every matching paragraph of every paper is in the text stream |
| RetrievalMatches.TextStreamOnly | src/vibereview/library/retrieval.py:505-590 | everything in the text stream is a matching paragraph with its score |
| RetrievalMatches.OccursExactly | src/vibereview/library/retrieval.py:783-795 | an evidence text is absent, in exactly one place, or in several |
| RetrievalMatches.GraphHitsExactly | src/vibereview/library/retrieval.py:745-871 | an evidence text yields a hit exactly if its citation key belongs to a Paper and it is not blank; the hit is valid exactly if it lies in one place of that Paper and fits |
| RetrievalMerge.MergeHits | src/vibereview/library/retrieval.py:1007-1037 | the dictionary of locations, filled hit by hit, holds in insertion order what the merge function says |
| RetrievalMerge.MergeIsJoin | src/vibereview/library/retrieval.py:1007-1037 | merging two distinct streams is: every text hit, upgraded where the graph has its location, then the remaining graph hits |
| RetrievalMerge.JoinedHasSource | src/vibereview/library/retrieval.py:1015-1037 | each merged hit has the location and score of some backend hit |
| RetrievalMerge.JoinedCoversSource | src/vibereview/library/retrieval.py:1015-1037 | each backend hit is represented at its location with no smaller score |
| RetrievalMerge.JoinedDistinct | src/vibereview/library/retrieval.py:1013-1014 | no location occurs twice after merging |
| RetrievalTruncation.TruncationKeepsSelection | src/vibereview/library/retrieval.py:419-429 | where no two locations share a paper and a start offset, cutting each backend at `cap` changes neither locations, order nor scores of any selection of at most `cap` |
| RetrievalTruncation.BoundedSelection | src/vibereview/library/retrieval.py:1007-1042 | for any two bounded lists: if nothing is dropped at a tie that merging re-orders, the selection is unchanged |
| RetrievalTruncation.MergeFacts | src/vibereview/library/retrieval.py:1007-1037 | merging holds one hit for each location, made of the first text and graph hits there, however often they are listed |
| RetrievalLedger.Retrieve | src/vibereview/library/retrieval.py:966-1076 | each refusal in exactly its case: top-k, term limit, a backend's error, repeated keys among what the backends hand on; otherwise the assembled result, which passes every ledger check |
| RetrievalLedger.AssembledLedgerOk | src/vibereview/library/retrieval.py:206-258 | past the duplicate-key check the ledger satisfies every ledger check |
| RetrievalLedger.ValidHitsConserved | src/vibereview/library/retrieval.py:1048-1076 | hits seen by both backends equal ledger hits plus merged pairs plus truncated hits, class by class |
| RetrievalLedger.CutClassifies | src/vibereview/library/retrieval.py:225-245 | selected and excluded keys are disjoint, repeat nothing and together are the valid keys |
| RetrievalMatches.MergedSourced | src/vibereview/library/retrieval.py:1015-1037 | each merged hit has the fields of the backend hits it is made of |
| RetrievalMatches.RetrievedExplained | src/vibereview/library/retrieval.py:966-1076 | each valid hit of a successful retrieval is a matching paragraph with its share of terms, an evidence text in its one place, or both at one location |
| RetrievalMatches.FoundOrCrowdedOut | src/vibereview/library/retrieval.py:966-1076 | each valid hit of a stream is in the ledger at its location, or a hundred others of its stream that score no less are |
| RetrievalMatches.ParagraphHeld | src/vibereview/library/retrieval.py:966-1076 | each matching paragraph that is not too long is in the ledger, or a hundred passages that score no less are |
| RetrievalMatches.LedgerFields | src/vibereview/library/retrieval.py:1040-1076 | the ledger names query, lock, generation and limits, counts for each search and class what is beyond a hundred, and selects the first `top_k` valid hits |
| RetrievalTies.SettledSelection | src/vibereview/library/retrieval.py:847-878 | bounded searches select what unbounded ones would, wherever the passages found are settled |
| RetrievalTies.ForemostFirst | src/vibereview/library/retrieval.py:161-164 | how many passages rank before a start offset says where the ranking reaches it |
| RetrievalTies.ParagraphDropped | src/vibereview/library/retrieval.py:1015-1037 | a contested paragraph that the text search drops changes the selection under the digest that sorts its slice first |
| RetrievalTies.SliceDropped | src/vibereview/library/retrieval.py:1015-1037 | a contested slice that the graph search drops changes the selection under the digest that sorts it last |
| RetrievalSelection.StreamsFound | src/vibereview/library/retrieval.py:505-590 | what the searches come across are exact slices; no two paragraphs start at one offset and all graph slices score alike |
| RetrievalSelection.SelectionIsUnbounded | src/vibereview/library/retrieval.py:966-1076 | where passages are settled a successful retrieval selects what unbounded searches would, whatever keys repeat beyond the cut |
| RetrievalSelection.StartsSettle | src/vibereview/library/retrieval.py:161-164 | passages are settled if no two that lie apart share a paper and a start offset |
| RetrievalSelection.SamePassages | src/vibereview/library/retrieval.py:330-352 | the passages that the searches come across do not depend on the digest |
| RetrievalSelection.UnsettledChanges | src/vibereview/library/retrieval.py:847-878 | passages that are not settled: some digest without collisions has the cut change what is selected |
| RetrievalSelection.FaithfulExactly | src/vibereview/library/retrieval.py:847-878 | bounding never changes what is selected, whatever collision-free digest is used, exactly when the passages are settled |
| RetrievalExample.BoundingChangesSelection | src/vibereview/library/retrieval.py:723-878 | a paper of one paragraph and 101 evidence texts for which the retrieval succeeds and selects otherwise, for every top-k |
| GitTree.ParseTree | src/vibereview/library/git_source.py:268-308 | the cursor loop computes the entry-by-entry reading of the payload, with the first fault it meets |
| GitTree.PrintOfParsed | src/vibereview/library/git_source.py:268-308 | printing the entries of an accepted payload gives back the payload, and they are well formed |
| GitTree.ParsedOfPrint | src/vibereview/library/git_source.py:268-308 | parsing the printing of well-formed entries with distinct names gives back the entries |
| GitTree.AcceptedExactly | src/vibereview/library/git_source.py:268-308 | a payload is accepted exactly when it prints some well-formed list |
| Utf8.DecodeOfEncode | src/vibereview/library/git_source.py:286-290 | UTF-8 decoding (section 3 of RFC 3629) gives back every encoded text |
| Utf8.EncodeOfDecode | src/vibereview/library/git_source.py:286-290 | only the shortest encoding of a text decodes to it |
| GitPaths.SplitOfJoin | src/vibereview/library/git_source.py:500 | splitting at slashes recovers slash-free components |
| GitPaths.JoinInjective | src/vibereview/library/git_source.py:365-372 | distinct chains of entry names have distinct paths |
| GitPaths.ChainPathValid | src/vibereview/library/git_source.py:365-372 | the path of a chain of entries is refused exactly for a backslash in a name |
| GitSnapshot.Walk.LoadTree | src/vibereview/library/git_source.py:342-356 | the cache holds exactly what reading the tree gives |
| GitSnapshot.Walk.Visit | src/vibereview/library/git_source.py:358-390 | the memoised, bounded visit adds exactly the plain flattening, or fails exactly when it or a bound does; terminates for any object map |
| GitSnapshot.Walk.Observe | src/vibereview/library/git_source.py:365-373 | the duplicate-path branch is unreachable |
| GitListing.BuildVerifiedSnapshot | src/vibereview/library/git_source.py:324-394 | success is exactly: flattening succeeds within the bounds; the result is its blobs sorted by path |
| GitListing.SnapshotListsExactly | src/vibereview/library/git_source.py:392-394 | a blob is listed exactly when the component walk leads to it at its path |
| GitListing.SnapshotStrictlySorted | src/vibereview/library/git_source.py:392-394 | the listing is strictly ascending, so all paths are distinct |
| GitListing.VerifiedTreeEntryAtPath | src/vibereview/library/git_source.py:493-527 | the component walk computes the entry its path leads to, with each refusal |
| GitListing.WalkAgreesWithListing | src/vibereview/library/git_source.py:493-527 | for a listed path of at most 128 components the walk finds the same mode and id; a longer listed path has 129 and is refused |
| Cycles.WalkFindsCycle | src/vibereview/validators.py:323-335 | the seen-set walk reports a cycle exactly when following references never ends |
| Cycles.ReferencesDescend | src/vibereview/validators.py:323-335 | without a report every reference leads strictly closer to an end |
| Cycles.ThemeWalk.Visit | src/vibereview/validators.py:176-191 | the colouring visit settles a theme: its cycle, if any, has been reported once |
| Cycles.ThemeWalk.Run | src/vibereview/validators.py:193-195 | the reported paths are exactly the cycles of parents, one each, with no theme shared |
| Cycles.CycleIsOnCycle | src/vibereview/validators.py:179-186 | every name of a reported path returns to itself |
| Cycles.WellFoundedWithoutCycles | src/vibereview/validators.py:174-195 | both detectors look for the same fault: some walk is endless exactly when some name lies on a cycle |
| Cycles.ExtensionWellFounded | src/vibereview/validators.py:323-335 | new names that refer to old ones add no endless walk |
| Lookup.ByIdFinds | src/vibereview/validators.py:78-95 | with unique identifiers the index finds every object |
| Collecting.Index | src/vibereview/validators.py:78-95 | builds the first-wins dictionary; clean exactly when identifiers are unique |
| Collecting.Collector.Finish | src/vibereview/validators.py:66-75 | raises exactly when an error is on record; the report repeats nothing |
| RegistryChecks.CollectIdentityRegistry | src/vibereview/validators.py:104-146 | no error exactly when related Papers exist and no two Papers share a DOI key or source hash; weak keys only warn |
| RegistryChecks.CollectThemeHierarchy | src/vibereview/validators.py:153-195 | clean exactly when parents exist, differ from the theme and are acyclic; one THEME_CYCLE for each cycle, with its path |
| RegistryChecks.CollectReferences | src/vibereview/validators.py:1026-1049 | clean exactly when themes of claims and Papers of corpus facts exist |
| RetrievalChecks.CollectRetrieval | src/vibereview/validators.py:202-335 | clean exactly when queries, spans and dispositions agree, every span has one disposition and references are well founded |
| RetrievalChecks.CheckCanonicalCycles | src/vibereview/validators.py:323-335 | CANONICAL_SPAN_CYCLE is reported for a start exactly when following from it never ends |
| RetrievalChecks.CollectEvidence | src/vibereview/validators.py:357-441 | clean exactly when each record matches its solely assessed span and query, and spans have the records their status demands |
| ClaimChecks.CollectAggregates | src/vibereview/validators.py:463-552 | clean exactly when every aggregate partitions existing records of its claim, paper and relations |
| ClaimChecks.CollectClaims | src/vibereview/validators.py:572-725 | clean exactly when finals, assessments and packets agree with each other and cover every aggregate of the claim |
| ClaimChecks.CollectClosure | src/vibereview/validators.py:727-759 | clean exactly when no record of a claim with a packet stays outside the aggregates |
| ProseChecks.CollectPropositions | src/vibereview/validators.py:799-919 | clean exactly when provenance exists, citations are licensed and cover the claims, and each proposition has one complete audit |
| ProseChecks.DeriveDisposition | src/vibereview/validators.py:781-796 | human review exactly for an unclear verdict, PASS exactly for a correct class with entailed provenance, repair exactly for one partially supported, blocking otherwise |
| ProseChecks.CollectProse | src/vibereview/validators.py:943-1006 | clean exactly when sentences come from solely passing propositions and have one entailed audit each |
| Validators.ValidateRepository | src/vibereview/validators.py:1052-1133 | succeeds exactly on snapshots that all ten checks find clean |
| Provenance.EvidenceIsGrounded | src/vibereview/validators.py:375-416 | every record rests on a solely assessed span retrieved by a query for its claim whose hash matches the current text |
| Provenance.CitationIsLicensed | src/vibereview/validators.py:632-686 | every citation of a scientific statement has its aggregate, packet, VALID final text and non-REJECT assessment |
| Provenance.CitationHolds | src/vibereview/validators.py:480-536 | a citation leads to at least one record, and each of them is grounded in the cited paper and claim |
| Provenance.RenderedSentencesAreGrounded | src/vibereview/validators.py:1052-1133 | without errors every rendered sentence leads back, statement by statement and citation by citation, to assessed passages |
| Provenance.PacketHoldsAllEvidence | src/vibereview/validators.py:687-759 | the evidence under a packet is exactly the evidence of its claim |
| Provenance.AssessedPassageIsIncluded | src/vibereview/validators.py:418-435 | each assessed span retrieved for a claim with a packet has exactly one record for it, and the packet carries it |
| Registry.NumberOfName | src/vibereview/runtime/registry.py:84-91 | an allocated identifier parses back to its number |
| Registry.PaddedForm | src/vibereview/runtime/registry.py:66-92 | numbers are written with four digits, from 10000 on with as many as they have |
| Registry.SentenceNumberOfName | src/vibereview/runtime/artifacts.py:137-141 | a sentence identifier has the number that it spells |
| Registry.QueryNameParses | src/vibereview/ids.py:102-111 | a query identifier parses to the claim, intent and ordinal that it spells |
| Registry.NameOfParsedQuery | src/vibereview/ids.py:102-111 | whatever parses is spelled from the claim, intent and ordinal it parses to |
| Registry.AllocatedFresh | src/vibereview/runtime/registry.py:66-92 | allocated identifiers are new and distinct, and the advanced counter covers them |
| PromotionRequests.SelectedKnown | src/vibereview/library/retrieval_promotion.py:515-530 | every selected key has a valid, located candidate and a decision that passed its model |
| PromotionRequests.CheckSource | src/vibereview/library/retrieval_promotion.py:411-451 | accepts exactly the candidates that repeat score, slice, digests, window and section of the locked text |
| PromotionRequests.OccupiedExactly | src/vibereview/library/retrieval_promotion.py:289-318 | a source is occupied exactly by spans with its paper, path, offsets, hash and text |
| PromotionRequests.AuthenticateLedger | src/vibereview/library/retrieval_promotion.py:355-486 | accepts exactly the ledgers of a unique canonical query whose hits are all authentic and that a fresh retrieval reproduces |
| PromotionReplay.ReplayAuthenticates | src/vibereview/library/retrieval_promotion.py:397-451 | every candidate of a ledger that the replay reproduces passes each check on its fields |
| PromotionReplay.AuthenticExactly | src/vibereview/library/retrieval_promotion.py:455-470 | over a verified corpus a ledger is authentic exactly if its query is uniquely canonical and the replay reproduces it |
| PromotionRequests.ValidateDecisions | src/vibereview/library/retrieval_promotion.py:489-576 | accepts exactly the decisions that reuse occupied sources only as duplicates, refer within one paper and assess only open claims |
| PromotionBuild.BuildRecords | src/vibereview/library/retrieval_promotion.py:583-642 | the zipped loop with its evidence iterator builds one span and disposition per pair and uses up every evidence identifier |
| PromotionBuild.BuiltRecorded | src/vibereview/library/retrieval_promotion.py:250-352 | field by field: the span repeats the hit, the disposition the decision, and exactly the assessed pairs have a record, one each, with relation, summary, quality and notes of the decision |
| PromotionBuild.BuiltCoupled | src/vibereview/library/retrieval_promotion.py:583-642 | the records of an accepted request are coupled: fresh, one disposition per span, records exactly for assessed spans, references within one paper |
| PromotionValidity.RetrievalStaysClean | src/vibereview/validators.py:202-335 | coupled records raise no retrieval error |
| PromotionValidity.EvidenceStaysClean | src/vibereview/validators.py:357-441 | coupled records raise no evidence error |
| PromotionValidity.ClosureStaysClean | src/vibereview/validators.py:727-759 | claims with a packet gain no unaggregated evidence |
| PromotionValidity.PromotionKeepsClean | src/vibereview/library/retrieval_promotion.py:355-642 | promotion preserves validity of the whole repository |
| PromotionRuns.OneSpanPerPassage | src/vibereview/library/retrieval_promotion.py:513-547 | each exact source identity has at most one span that is not a duplicate |
| PromotionRuns.OneRecordPerPassage | src/vibereview/library/retrieval_promotion.py:289-318 | hence at most one evidence record |
| PromotionRuns.DuplicateChainEnds | src/vibereview/library/retrieval_promotion.py:533-547 | following duplicate references from any span ends at the one span that counts for its passage |
| PromotionRuns.PromotionCountsOnce | src/vibereview/library/retrieval_promotion.py:513-549 | a promotion keeps passages counted once |
| PromotionRuns.RunCountsOnce | src/vibereview/library/retrieval_promotion.py:583-642 | over every run from an empty store each generation is valid and counts each passage once |
| PromotionRuns.RunChainsEnd | src/vibereview/library/retrieval_promotion.py:533-547 | over every run, following duplicate references from any span of any generation ends at the one span that counts for its passage |
| PromotionStore.PromotedCovered | src/vibereview/runtime/registry.py:66-92 | after a promotion the registry covers every identifier in use |
| PromotionStore.ValidateLocked | src/vibereview/library/retrieval_promotion.py:355-576 | accepts exactly the requests that are authentic and allowed |
| PromotionStore.PairsSelected | src/vibereview/library/retrieval_promotion.py:515-530 | the pairs are, in order, each selected key with the valid hit and the decision that have it |
| PromotionStore.Store.Promote | src/vibereview/library/retrieval_promotion.py:583-642 | the next snapshot is valid, counts once, is covered, and adds exactly the span, disposition and record of each chosen pair, field by field |
| PromotionStore.Store.CommitPromotion | src/vibereview/library/retrieval_promotion.py:777-838 | commits exactly fresh accepted requests, appends one generation that carries out the decision on each selected candidate field by field, and never fails the commit's own validation |
| CorpusImport.UpdatedDois | src/vibereview/library/selection.py:789-815 | an updated Paper has no DOI key beyond its own and the incoming one |
| CorpusImport.MatchedAlone | src/vibereview/library/selection.py:748-757 | the keys an updated Paper takes on are owned by no other Paper |
| CorpusImport.UnmatchedAlone | src/vibereview/library/selection.py:766-788 | the keys of a new Paper are owned by nobody |
| CorpusImport.MergeExactly | src/vibereview/library/selection.py:450-475 | refused exactly if title, authors, year, DOI or journal is present on both sides and differs, but for an inferred title; otherwise present fields stay and absent ones are filled |
| CorpusImport.ImportOne | src/vibereview/library/selection.py:725-820 | each refusal exactly in its case, a metadata conflict field by field; otherwise the one Paper that shares an identity takes the document and its missing fields, or a new Paper has exactly the incoming ones, and every other Paper is unchanged |
| CorpusImport.StartImport | src/vibereview/library/selection.py:715-724 | the identity index leads from every identity to its Paper and nowhere else |
| CorpusImport.ImportDocuments | src/vibereview/library/selection.py:702-841 | refused, and why, exactly as the first document that is refused in the state before it; otherwise each document goes to the Paper that shares an identity with it, whose present fields stay, or to a new one, no Paper is lost or reassigned, and documents get distinct Papers with exactly their bytes |
| ImportValidity.ImportKeepsClean | src/vibereview/library/selection.py:834-841 | an import raises no error in the whole repository |
| AssemblyLayout.ExtentExact | src/vibereview/runtime/artifacts.py:202-211 | each extent slices back exactly its sentence and its encoding, followed by one line feed |
| AssemblyLayout.ExtentsTile | src/vibereview/runtime/artifacts.py:202-211 | extents are adjacent but for one line feed and end with the body |
| AssemblyLayout.SplitRecovers | src/vibereview/runtime/artifacts.py:205-211 | splitting at line feeds recovers the sentences |
| Assembly.OrderedIsSorted | src/vibereview/runtime/artifacts.py:152-154 | the sentences come as a permutation in ascending number |
| Assembly.CollectProposition | src/vibereview/runtime/artifacts.py:230-257 | accepts exactly citations that repeat nothing within the budget |
| Assembly.AssembleSentences | src/vibereview/runtime/artifacts.py:177-259 | accepts exactly sentences that fit; body, records and citations are those of all sentences |
| Assembly.AssembleExact | src/vibereview/runtime/artifacts.py:144-280 | succeeds exactly on assemblable snapshots; the checks that repeat the validators never fail |
| Assembly.AssemblyTiles | src/vibereview/runtime/artifacts.py:202-211 | the ranges of the records tile the body and slice back text and encoding |
| Assembly.AssemblySplits | src/vibereview/runtime/artifacts.py:202-280 | the body decodes and splits at line feeds into the sentences by ascending number |
| Assembly.AssemblyCites | src/vibereview/runtime/artifacts.py:217-273 | a citation is in the record exactly if some sentence refers to a proposition with that citation; as many as the propositions of all sentences have, in order, none twice, within the budget |
| Assembly.CitationsFitExactly | src/vibereview/runtime/artifacts.py:230-257 | citations fit exactly if no proposition of a sentence lists one twice and all together are within the budget |
| Assembly.AssemblyFields | src/vibereview/runtime/artifacts.py:262-280 | generation, hashes, size, budget and number of sentences of the record |
| Assembly.VerifyExact | src/vibereview/runtime/artifacts.py:283-298 | accepts exactly what assembly produces |
| Tallies.GroupsSum | src/vibereview/library/retrieval_coverage.py:297-305 | summing group by group gives the sum |
| Tallies.GroupsBound | src/vibereview/library/retrieval_coverage.py:306-308 | distinct values of a list are at most those of its groups together |
| Coverage.SelectedLocated | src/vibereview/library/retrieval_coverage.py:332-335 | a selected candidate of an accepted ledger has offsets |
| Coverage.ClaimCoverageAlwaysOk | src/vibereview/library/retrieval_coverage.py:282-312 | the coverage computed for a claim passes its own checks |
| Coverage.AggregateIntentAgrees | src/vibereview/library/retrieval_coverage.py:446-499 | per-intent counts regroup over the claims, and paper counts lie between maximum and sum |
| Coverage.ReportAlwaysOk | src/vibereview/library/retrieval_coverage.py:428-519 | every report passes all checks on itself and its claims |
| CoverageCounts.RateExactly | src/vibereview/library/retrieval_coverage.py:339-344 | the duplicate rate times the number of selected candidates is how many of them repeat the paper and range of an earlier one |
| CoverageCounts.ClaimIsExact | src/vibereview/library/retrieval_coverage.py:356-401 | each figure for a claim is the size of the set of positions it stands for: queries, selected and invalid candidates, papers, wordings, each intent, and the required intents that no query has |
| CoverageCounts.ReportExactly | src/vibereview/library/retrieval_coverage.py:522-607 | the same for all claims of a report, which are those of the queries, and for its aggregate |
| Coverage.ComputeClaim | src/vibereview/library/retrieval_coverage.py:356-401 | the loop over the executed intents computes the coverage of the claim |
| Coverage.ComputeCoverage | src/vibereview/library/retrieval_coverage.py:522-607 | accepts exactly non-empty bounded lists of unique queries over one lock and generation, and is consistent for all of them |
| PilotOrder.PositionsExact | src/vibereview/library/pilot_controller.py:1186-1239 | the position checks accept exactly the events that keep the fixed order |
| PilotProtocol.JournalKeepsOrder | src/vibereview/library/pilot_controller.py:1083-1103 | every reachable journal keeps the fixed order and nothing follows a failed or blocked event or the report |
| PilotBudget.CheckBudget | src/vibereview/library/pilot_controller.py:1367-1377 | accepts exactly counters that do not fall and stay within their limits |
| PilotBudget.AcceptedCounter | src/vibereview/library/pilot_controller.py:1379-1448 | the value of each counter after a task is accepted, counter by counter |
| PilotBudget.ControlCounter | src/vibereview/library/pilot_controller.py:1450-1469 | the value of each counter after a control stage |
| PilotBudget.FailedCounter | src/vibereview/library/pilot_controller.py:1471-1511 | the value of each counter that a failed task leads to |
| PilotBudget.AcceptedBudget | src/vibereview/library/pilot_controller.py:1379-1448 | accepts exactly tasks whose accumulated counters fit, and returns for each counter the value of `AcceptedCounter` |
| PilotBudget.ControlBudget | src/vibereview/library/pilot_controller.py:1450-1469 | accepts exactly control stages whose accumulated counters fit, and returns for each counter the value of `ControlCounter` |
| PilotBudget.FailedBudget | src/vibereview/library/pilot_controller.py:1471-1526 | the regression branch is unreachable within limits; consumes up to the limit and records the rest |
| PilotBudget.FailureConserves | src/vibereview/library/pilot_controller.py:1512-1526 | consumed plus overrun equals previous plus usage, and consumed counters are monotone and within limits |
| PilotProtocol.BudgetsStayWithin | src/vibereview/library/pilot_controller.py:1367-1526 | over every run each counter of each event is within its limit and no smaller than before |
| PilotProtocol.InvocationsAreCursors | src/vibereview/library/pilot_controller.py:400-415 | over every run the invocation counter is the sum of all engine cursors whenever a transition may start |
| PilotProtocol.StepInv | src/vibereview/library/pilot_controller.py:386-423 | every step, crash and restart keeps journal, directories, calls and cursors in agreement |
| PilotProtocol.NoReplayNoSkip | src/vibereview/runtime/engine.py:169-179 | over every run the calls of each engine are numbered 0, 1, 2, … in order |
| PilotProtocol.CursorsAreJournaled | src/vibereview/library/pilot_controller.py:1057-1081 | over every run, when the journal reconciles, each cursor is the journaled attempts of its type, which are its attempt directories |
| PilotProtocol.ReconciledExactly | src/vibereview/library/pilot_controller.py:935-1055 | in every reachable world reconciliation fails exactly when some attempts are unjournaled |
| PilotProtocol.RestartExactly | src/vibereview/library/pilot_controller.py:795-827 | a restart succeeds exactly without unjournaled attempts and with restorable cursors; otherwise it refuses |
| PilotController.JournaledTaskAttempts | src/vibereview/library/pilot_controller.py:829-874 | refuses exactly a journal that accounts for a task twice; otherwise finds the one event of every task |
| PilotController.ReconcileTaskAttempts | src/vibereview/library/pilot_controller.py:935-1055 | refuses exactly when some directory disagrees with the journal |
| PilotController.ValidateEngineCursors | src/vibereview/library/pilot_controller.py:1057-1081 | accepts exactly agreeing cursors, or with restoring also pristine ones, and returns agreeing cursors |
| PilotController.SyntheticPilot.RequireLiveHead | src/vibereview/library/pilot_controller.py:1083-1096 | accepts exactly a reconciled, live journal |
| PilotController.SyntheticPilot.BeginTask | src/vibereview/library/pilot_controller.py:386-415 | begins exactly if journal and position allow the task, it is new and its budget covers it; marks first, then examines the budget: takes the begin step of the protocol |
| PilotController.SyntheticPilot.Attempt | src/vibereview/runtime/engine.py:169-179 | directory first, then call: takes the two attempt steps of the protocol |
| PilotController.SyntheticPilot.CommitAccepted | src/vibereview/library/pilot_controller.py:480-575 | journals an accepted event with the value of each counter exactly if the calls agree and its budget fits: takes the accept step of the protocol |
| PilotController.SyntheticPilot.CommitFailed | src/vibereview/library/pilot_controller.py:1809-1852 | journals a failed event, consumed plus overrun for each counter: takes the fail step of the protocol, whose budget never regresses |
| PilotController.SyntheticPilot.RecordControl | src/vibereview/library/pilot_controller.py:1854-1895 | journals the event of its stage with the value of each counter: takes the control step of the protocol |
| PilotController.SyntheticPilot.RunTask | src/vibereview/library/pilot_controller.py:1621-1807 | ends idle; succeeds exactly if the task may begin, and then journals one event: accepted exactly if some attempt is valid and the budget of the first such attempt fits, failed otherwise; attempts stop at that attempt and each call is accounted for; a refused task journals nothing |
| PilotController.StartPilot | src/vibereview/library/pilot_controller.py:636-708 | starts over any durable state exactly when no task is accounted for twice, everything reconciles and cursors can be restored, and then takes the restart step |

## Left out

- RetrievalSelection.FaithfulExactly: the exact condition is for searches that list no candidate twice; `SelectionIsUnbounded` needs no such thing.
- RetrievalLedger.Retrieve: assumes that the ledger's 63-bit counters do not overflow; a backend that is not one of the two built-in searchers is not modelled.
- RetrievalBackends.GraphSearch: graph items arrive parsed and mapped to Papers; reading the graph file is not modelled.
- GitSnapshot.Walk.LoadTree: objects come from a map; re-hashing them, subprocesses and the commit header are not modelled.
- Collecting.Collector.Finish: findings carry severity, code and place; message texts and field suffixes of paths are not modelled.
- RegistryChecks.CollectIdentityRegistry: identity keys of a Paper are taken to repeat nothing, as its model guarantees.
- PromotionRequests.AuthenticateLedger: the locked texts, the graph items and the query terms are inputs; loading and rehashing the corpus lock is not modelled.
- PromotionStore.Store.CommitPromotion: receipts, promotion records, reuse of an exact earlier winner and staging files are not modelled.
- CorpusImport.ImportDocuments: selection checks before the loop, the corpus lock and staged bytes are not modelled; a bibliographic key normalizes to a bibliographic key.
- Assembly.AssembleExact: hashes of bytes and of the snapshot are functions; the packet that is written afterwards is not modelled.
- Coverage.ComputeCoverage: status, assessor and time stamp are passed through and not modelled.
- PilotProtocol.NoReplayNoSkip: call numbers are exact; an engine repeats the last response of a script that is too short.
- PilotController.SyntheticPilot.RunTask: receipt reuse changes nothing durable and is not modelled; the further checks of the prospective event and of proposal contents may refuse more.
- PilotController.SyntheticPilot.CommitFailed: overruns of one task's own limits, recorded beside the cumulative ones, are not modelled.
- Independence status and study groups of evidence take part in no modelled check.
- Query plans, retrieval benchmarks, prompts, the command line, file layout, process confinement and public-repository guards.
