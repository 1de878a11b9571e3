/** Importing selected documents into the Paper registry (library/selection.py). */
module CorpusImport {
  import opened Basics
  import opened Lookup
  import opened Ordering
  import opened Registry
  import opened RegistryChecks
  import opened Snapshots

  const MAX_PAPERS: nat := 9999

  /** What the bibliography and the source mapping say about a selected document. */
  datatype Metadata = Metadata(
    title: Option<string>, authors: Option<seq<string>>, year: Option<int>, doi: Option<string>, journal: Option<string>)

  datatype Selected = Selected(
    path: string, contentHash: string, incoming: Metadata, bibKey: Option<string>, inferredTitle: Option<string>)

  datatype ImportError = AmbiguousIdentity | PaperClaimedTwice | MetadataConflict | PapersExhausted

  /** Text functions the import relies on: case folding and `normalize_identity_key`; the path of a raw document in
      the next generation. */
  datatype Texts = Texts(casefold: string -> string, normalizeKey: string -> string, rawPath: string -> string)

  // ---------------------------------------------------------------- identities

  function BibIdentity(x: Texts, key: string): string {
    "bib:" + x.casefold(key)
  }

  /** `_identity_candidates`. */
  function IdentityCandidates(x: Texts, d: Selected): (r: seq<string>)
    ensures forall k :: k in r <==> k == d.contentHash || (k != "" && d.incoming.doi == Some(k))
                                    || (d.bibKey.Some? && d.bibKey.value != "" && k == "bib:" + x.casefold(d.bibKey.value))
  {
    [d.contentHash]
    + (if d.incoming.doi.GetOr("") != "" then [d.incoming.doi.value] else [])
    + (if d.bibKey.GetOr("") != "" then [BibIdentity(x, d.bibKey.value)] else [])
  }

  /** `_paper_identity_values`. */
  function IdentityValues(p: Paper): set<string> {
    ToSet(p.identityKeys) + {p.sourceHash} + if p.doi.Some? then {p.doi.value} else {}
  }

  /** The shapes that identifiers have by construction: SHA-256 digests, normalized DOIs, and a normalizer that
      leaves both alone and keeps bibliographic keys bibliographic. */
  ghost predicate TextsOk(x: Texts, d: Selected) {
    && HasPrefix(d.contentHash, "sha256:") && x.normalizeKey(d.contentHash) == d.contentHash
    && (d.incoming.doi.Some? ==>
          HasPrefix(d.incoming.doi.value, "doi:") && x.normalizeKey(d.incoming.doi.value) == d.incoming.doi.value)
    && (forall key :: HasPrefix(key, "bib:") ==> HasPrefix(x.normalizeKey(key), "bib:"))
  }

  lemma PrefixesDiffer(s: string)
    ensures !(HasPrefix(s, "doi:") && HasPrefix(s, "sha256:")) && !(HasPrefix(s, "doi:") && HasPrefix(s, "bib:"))
  {
    if HasPrefix(s, "doi:") {
      assert s[..4][0] == 'd' && s[..4] == "doi:";
    }
    if HasPrefix(s, "sha256:") {
      assert s[..7][0] == 's' && s[..7] == "sha256:";
    }
    if HasPrefix(s, "bib:") {
      assert s[..4][0] == 'b' && s[..4] == "bib:";
    }
  }

  function Normalized(x: Texts, keys: seq<string>): (r: seq<string>)
    ensures |r| == |keys| && forall i :: 0 <= i < |r| ==> r[i] == x.normalizeKey(keys[i])
  {
    seq(|keys|, i requires 0 <= i < |keys| => x.normalizeKey(keys[i]))
  }

  /** `list(dict.fromkeys([*keys, *more]))`. */
  function Union(keys: seq<string>, more: seq<string>): (r: seq<string>)
    ensures forall k :: k in r <==> k in keys || k in more
    decreases |more|
  {
    if more == [] then keys
    else
      var front := Union(keys, more[..|more| - 1]);
      assert more == more[..|more| - 1] + [more[|more| - 1]];
      if more[|more| - 1] in front then front else front + [more[|more| - 1]]
  }

  /** Of the candidate identities only the DOI can be a DOI key. */
  lemma CandidateDois(x: Texts, d: Selected, key: string)
    requires TextsOk(x, d) && key in IdentityCandidates(x, d) && HasPrefix(key, "doi:")
    ensures d.incoming.doi == Some(key)
  {
    hide HasPrefix;
    PrefixesDiffer(key);
    if d.bibKey.GetOr("") != "" && key == BibIdentity(x, d.bibKey.value) {
      BibPrefix(x, d.bibKey.value);
    }
  }

  lemma BibPrefix(x: Texts, key: string)
    ensures HasPrefix(BibIdentity(x, key), "bib:")
  {
    var s := BibIdentity(x, key);
    assert s[..4] == "bib:";
  }

  lemma NormalizedDois(x: Texts, d: Selected, key: string)
    requires TextsOk(x, d) && key in Normalized(x, IdentityCandidates(x, d)) && HasPrefix(key, "doi:")
    ensures d.incoming.doi == Some(key)
  {
    hide HasPrefix, IdentityCandidates;
    var keys := IdentityCandidates(x, d);
    var i :| 0 <= i < |keys| && x.normalizeKey(keys[i]) == key;
    PrefixesDiffer(key);
    CandidateKinds(x, d, keys[i]);
  }

  lemma CandidateKinds(x: Texts, d: Selected, key: string)
    requires key in IdentityCandidates(x, d)
    ensures key == d.contentHash || d.incoming.doi == Some(key) || HasPrefix(key, "bib:")
  {
    hide HasPrefix;
    if d.bibKey.GetOr("") != "" && key == BibIdentity(x, d.bibKey.value) {
      BibPrefix(x, d.bibKey.value);
    }
  }

  // ---------------------------------------------------------------- metadata

  /** One turn of the loop of `_merge_paper_metadata`: the value to fill in, if any. */
  function MergeField<T(==)>(current: Option<T>, incoming: Option<T>, mayReplace: bool): Result<Option<T>, ImportError> {
    if incoming.None? then Ok(None)
    else if current.None? || mayReplace then Ok(incoming)
    else if current != incoming then Err(MetadataConflict)
    else Ok(None)
  }

  /** `_merge_paper_metadata`: absent fields are filled, an inferred title may be improved, conflicts are refused. */
  function MergeMetadata(p: Paper, incoming: Metadata, inferredTitle: Option<string>): (r: Result<Metadata, ImportError>)
    ensures r.Ok? && r.value.doi.Some? ==> p.doi.None? && r.value.doi == incoming.doi
    ensures r.Ok? && incoming.doi.Some? ==> p.doi == incoming.doi || r.value.doi == incoming.doi
    ensures r.Err? ==> r.error == MetadataConflict
  {
    var title := MergeField(p.title, incoming.title, p.title == inferredTitle && incoming.title != inferredTitle);
    var authors := MergeField(p.authors, incoming.authors, false);
    var year := MergeField(p.year, incoming.year, false);
    var doi := MergeField(p.doi, incoming.doi, false);
    var journal := MergeField(p.journal, incoming.journal, false);
    if title.Err? || authors.Err? || year.Err? || doi.Err? || journal.Err? then Err(MetadataConflict)
    else Ok(Metadata(title.value, authors.value, year.value, doi.value, journal.value))
  }

  function OrElse<T>(update: Option<T>, current: Option<T>): Option<T> {
    if update.Some? then update else current
  }

  function WithMetadata(p: Paper, u: Metadata): Paper {
    p.(title := OrElse(u.title, p.title), authors := OrElse(u.authors, p.authors), year := OrElse(u.year, p.year),
       doi := OrElse(u.doi, p.doi), journal := OrElse(u.journal, p.journal))
  }

  /** Both sides say something, and not the same. */
  predicate Clash<T(==)>(current: Option<T>, incoming: Option<T>) {
    current.Some? && incoming.Some? && current != incoming
  }

  /** The Paper's title was only inferred from the document's path, and the document brings another one. */
  predicate TitleImproves(p: Paper, d: Selected) {
    p.title == d.inferredTitle && d.incoming.title != d.inferredTitle
  }

  predicate MetadataClash(p: Paper, d: Selected) {
    || (Clash(p.title, d.incoming.title) && !TitleImproves(p, d))
    || Clash(p.authors, d.incoming.authors) || Clash(p.year, d.incoming.year)
    || Clash(p.doi, d.incoming.doi) || Clash(p.journal, d.incoming.journal)
  }

  /** What is present stays, what is absent is filled. */
  predicate KeptOrFilled<T(==)>(current: Option<T>, incoming: Option<T>, now: Option<T>) {
    (current.Some? ==> now == current) && (current.None? ==> now == incoming)
  }

  predicate MetadataMerged(p: Paper, d: Selected, now: Paper) {
    && (if TitleImproves(p, d) && d.incoming.title.Some? then now.title == d.incoming.title
        else KeptOrFilled(p.title, d.incoming.title, now.title))
    && KeptOrFilled(p.authors, d.incoming.authors, now.authors) && KeptOrFilled(p.year, d.incoming.year, now.year)
    && KeptOrFilled(p.doi, d.incoming.doi, now.doi) && KeptOrFilled(p.journal, d.incoming.journal, now.journal)
  }

  /** Merging refuses exactly clashes, and otherwise keeps what is there and fills what is missing. */
  lemma MergeExactly(p: Paper, d: Selected)
    ensures var r := MergeMetadata(p, d.incoming, d.inferredTitle);
            && (r.Err? <==> MetadataClash(p, d))
            && (r.Ok? ==> MetadataMerged(p, d, WithMetadata(p, r.value)))
  {
  }

  // ---------------------------------------------------------------- the state of the loop

  datatype State = State(
    papersById: map<string, Paper>, ids: seq<string>, index: map<string, set<string>>, claimed: set<string>,
    assignedIds: seq<string>, counter: nat)

  /** The Papers that own one of the identities. */
  function Matches(index: map<string, set<string>>, identities: seq<string>): (r: set<string>)
    ensures forall id :: id in r <==> exists k :: k in identities && k in index && id in index[k]
  {
    set k, id | k in identities && k in index && id in index[k] :: id
  }

  /** `identity_index.setdefault(identity, set()).add(paper_id)` for every identity of a Paper. */
  function Indexed(index: map<string, set<string>>, identities: set<string>, id: string): map<string, set<string>> {
    map k | k in index.Keys + identities ::
      (if k in index then index[k] else {}) + (if k in identities then {id} else {})
  }

  /** No two Papers of the dictionary share a key. */
  ghost predicate SoleBy(m: map<string, Paper>, keysOf: Paper -> set<string>) {
    forall a, b, k :: a in m && b in m && k in keysOf(m[a]) && k in keysOf(m[b]) ==> a == b
  }

  ghost predicate RegistryOk(m: map<string, Paper>) {
    && (forall id :: id in m ==> m[id].paperId == id)
    && (forall id :: id in m ==> RelatedExist(m[id], m))
    && SoleBy(m, DoiKeys) && SoleBy(m, SourceKeys)
  }

  /** Every identity of a Paper leads to it through the index, and the index leads nowhere else. */
  ghost predicate IndexOk(m: map<string, Paper>, index: map<string, set<string>>) {
    && (forall id, k :: id in m && k in IdentityValues(m[id]) ==> k in index && id in index[k])
    && (forall k, id :: k in index && id in index[k] ==> id in m)
  }

  ghost predicate StateOk(st: State) {
    && (forall id :: id in st.ids <==> id in st.papersById) && NoRepeats(st.ids)
    && RegistryOk(st.papersById) && IndexOk(st.papersById, st.index)
    && Covers('P', st.counter, st.papersById.Keys)
    && st.claimed == ToSet(st.assignedIds) && NoRepeats(st.assignedIds) && st.claimed <= st.papersById.Keys
  }

  ghost predicate HashesAgree(m: map<string, Paper>) {
    forall id :: id in m ==> m[id].sourceHash == m[id].rawMdHash
  }

  // ---------------------------------------------------------------- one document

  function NewPaper(x: Texts, d: Selected, id: string): Paper {
    Paper(id, d.incoming.title, d.incoming.authors, d.incoming.year, d.incoming.doi, d.incoming.journal,
          Normalized(x, IdentityCandidates(x, d)), [], x.rawPath(d.contentHash), d.contentHash, d.contentHash)
  }

  /** An existing Paper takes over what the document says; its bytes only when they changed. */
  function UpdatedPaper(x: Texts, d: Selected, p: Paper, u: Metadata): Paper {
    var keys := Union(p.identityKeys, IdentityCandidates(x, d));
    if p.rawMdHash != d.contentHash then
      WithMetadata(p, u).(identityKeys := keys, rawMdPath := x.rawPath(d.contentHash), sourceHash := d.contentHash,
                          rawMdHash := d.contentHash)
    else WithMetadata(p, u).(identityKeys := keys)
  }

  /** A Paper after it has taken over a document: its metadata merged, its identities extended, its bytes replaced only if
      they changed. */
  ghost predicate TakesOver(x: Texts, d: Selected, p: Paper, now: Paper) {
    && now.paperId == p.paperId && now.relatedPublications == p.relatedPublications && MetadataMerged(p, d, now)
    && (forall k :: k in now.identityKeys <==> k in p.identityKeys || k in IdentityCandidates(x, d))
    && p.identityKeys <= now.identityKeys
    && now.rawMdHash == d.contentHash
    && (if p.rawMdHash == d.contentHash then now.rawMdPath == p.rawMdPath && now.sourceHash == p.sourceHash
        else now.rawMdPath == x.rawPath(d.contentHash) && now.sourceHash == d.contentHash)
  }

  /** A Paper made of a document: it says what the document says, and nothing else. */
  ghost predicate MadeOf(x: Texts, d: Selected, now: Paper) {
    && now.title == d.incoming.title && now.authors == d.incoming.authors && now.year == d.incoming.year
    && now.doi == d.incoming.doi && now.journal == d.incoming.journal && now.relatedPublications == []
    && (forall k :: k in now.identityKeys <==> exists c :: c in IdentityCandidates(x, d) && x.normalizeKey(c) == k)
    && now.rawMdPath == x.rawPath(d.contentHash) && now.sourceHash == now.rawMdHash == d.contentHash
  }

  lemma {:induction false} UnionExtends(keys: seq<string>, more: seq<string>)
    ensures keys <= Union(keys, more)
    decreases |more|
  {
    if more != [] {
      UnionExtends(keys, more[..|more| - 1]);
    }
  }

  lemma UpdatedTakesOver(x: Texts, d: Selected, p: Paper, u: Metadata)
    requires MergeMetadata(p, d.incoming, d.inferredTitle) == Ok(u)
    ensures TakesOver(x, d, p, UpdatedPaper(x, d, p, u))
  {
    MergeExactly(p, d);
    UnionExtends(p.identityKeys, IdentityCandidates(x, d));
    hide MergeMetadata, MetadataMerged, IdentityCandidates, Union;
    SameMetadata(p, d, WithMetadata(p, u), UpdatedPaper(x, d, p, u));
  }

  lemma SameMetadata(p: Paper, d: Selected, a: Paper, b: Paper)
    requires MetadataMerged(p, d, a)
    requires a.title == b.title && a.authors == b.authors && a.year == b.year && a.doi == b.doi && a.journal == b.journal
    ensures MetadataMerged(p, d, b)
  {
  }

  lemma NewIsMadeOf(x: Texts, d: Selected, id: string)
    ensures MadeOf(x, d, NewPaper(x, d, id)) && NewPaper(x, d, id).paperId == id
  {
    hide IdentityCandidates;
    var keys := IdentityCandidates(x, d);
    var made := Normalized(x, keys);
    forall k ensures k in made <==> exists c :: c in keys && x.normalizeKey(c) == k {
      if k in made {
        var i :| 0 <= i < |made| && made[i] == k;
        assert keys[i] in keys;
      }
      if c :| c in keys && x.normalizeKey(c) == k {
        var i :| 0 <= i < |keys| && keys[i] == c;
        assert made[i] == k;
      }
    }
  }

  /** The Paper that a document is given, next to what it was. */
  ghost predicate Given(x: Texts, before: map<string, Paper>, d: Selected, id: string, now: Paper) {
    now.paperId == id && if id in before then TakesOver(x, d, before[id], now) else MadeOf(x, d, now)
  }

  /** One step gives the document its Paper and touches no other. */
  ghost predicate Gives(x: Texts, st: State, d: Selected, now: State) {
    && |now.assignedIds| == |st.assignedIds| + 1
    && var id := now.assignedIds[|st.assignedIds|];
       && now.assignedIds == st.assignedIds + [id] && id in now.papersById
       && now.papersById == st.papersById[id := now.papersById[id]] && Given(x, st.papersById, d, id, now.papersById[id])
  }

  /** The Paper keys that the document brings along are owned by nobody but the Papers it matches. */
  lemma UpdatedDois(x: Texts, d: Selected, p: Paper, u: Metadata, k: string)
    requires TextsOk(x, d) && MergeMetadata(p, d.incoming, d.inferredTitle) == Ok(u)
    requires k in DoiKeys(UpdatedPaper(x, d, p, u))
    ensures k in DoiKeys(p) || d.incoming.doi == Some(k)
  {
    hide HasPrefix, IdentityCandidates, MergeMetadata, TextsOk;
    var now := UpdatedPaper(x, d, p, u);
    if k in KeysWith(now.identityKeys, "doi:") && k !in p.identityKeys {
      CandidateDois(x, d, k);
    }
  }

  lemma NewDois(x: Texts, d: Selected, id: string, k: string)
    requires TextsOk(x, d) && k in DoiKeys(NewPaper(x, d, id))
    ensures d.incoming.doi == Some(k)
  {
    hide HasPrefix, IdentityCandidates, TextsOk, Normalized;
    var p := NewPaper(x, d, id);
    if k in KeysWith(p.identityKeys, "doi:") {
      NormalizedDois(x, d, k);
    }
  }

  lemma DoiKeysAreIdentities(p: Paper)
    ensures DoiKeys(p) <= IdentityValues(p) && SourceKeys(p) <= IdentityValues(p)
  {
  }

  /** A key that matches at most the Paper itself is owned by no other. */
  lemma OwnersMatch(st: State, identities: seq<string>, k: string, id: string)
    requires StateOk(st) && k in identities && id in st.papersById && k in IdentityValues(st.papersById[id])
    ensures id in Matches(st.index, identities)
  {
    hide IdentityValues, RegistryOk, Covers, NoRepeats;
  }

  /** Putting a Paper under `id` keeps the keys of `keysOf` apart when nobody else owns one of its keys. */
  lemma PutKeepsSole(m: map<string, Paper>, id: string, p: Paper, keysOf: Paper -> set<string>)
    requires SoleBy(m, keysOf)
    requires forall other, k :: other in m && other != id && k in keysOf(p) ==> k !in keysOf(m[other])
    ensures SoleBy(m[id := p], keysOf)
  {
  }

  lemma PutKeepsIndex(m: map<string, Paper>, index: map<string, set<string>>, id: string, p: Paper)
    requires IndexOk(m, index)
    ensures IndexOk(m[id := p], Indexed(index, IdentityValues(p), id))
  {
    hide IdentityValues;
  }

  ghost predicate NobodyElse(m: map<string, Paper>, id: string, p: Paper) {
    && (forall other, k :: other in m && other != id && k in DoiKeys(p) ==> k !in DoiKeys(m[other]))
    && (forall other, k :: other in m && other != id && k in SourceKeys(p) ==> k !in SourceKeys(m[other]))
  }

  /** The state after a document has been given the Paper `p`. */
  function Put(st: State, p: Paper, counter: nat): State {
    State(st.papersById[p.paperId := p],
          if p.paperId in st.papersById then st.ids else st.ids + [p.paperId],
          Indexed(st.index, IdentityValues(p), p.paperId), st.claimed + {p.paperId}, st.assignedIds + [p.paperId], counter)
  }

  lemma PutRegistryOk(m: map<string, Paper>, p: Paper)
    requires RegistryOk(m) && NobodyElse(m, p.paperId, p)
    requires RelatedExist(p, m)
    ensures RegistryOk(m[p.paperId := p])
  {
    hide DoiKeys, SourceKeys, SoleBy;
    var now := m[p.paperId := p];
    PutKeepsSole(m, p.paperId, p, DoiKeys);
    PutKeepsSole(m, p.paperId, p, SourceKeys);
    forall id | id in now ensures RelatedExist(now[id], now) {
      assert id != p.paperId ==> RelatedExist(m[id], m);
    }
  }

  lemma PutStateOk(st: State, p: Paper, counter: nat)
    requires StateOk(st) && NobodyElse(st.papersById, p.paperId, p) && p.paperId !in st.claimed
    requires RelatedExist(p, st.papersById) && Covers('P', counter, st.papersById.Keys + {p.paperId})
    ensures StateOk(Put(st, p, counter))
  {
    hide RegistryOk, NobodyElse, RelatedExist, Covers, IndexOk, IdentityValues, Indexed;
    PutRegistryOk(st.papersById, p);
    PutKeepsIndex(st.papersById, st.index, p.paperId, p);
    var now := Put(st, p, counter);
    assert now.papersById.Keys == st.papersById.Keys + {p.paperId};
  }

  lemma MatchedAlone(x: Texts, st: State, d: Selected, p: Paper, u: Metadata)
    requires StateOk(st) && TextsOk(x, d) && p.paperId in st.papersById && st.papersById[p.paperId] == p
    requires Matches(st.index, IdentityCandidates(x, d)) == {p.paperId}
    requires MergeMetadata(p, d.incoming, d.inferredTitle) == Ok(u)
    ensures NobodyElse(st.papersById, p.paperId, UpdatedPaper(x, d, p, u))
  {
    hide IdentityCandidates, Matches, TextsOk, MergeMetadata, DoiKeys, IdentityValues, Covers, NoRepeats;
    var now, m, identities := UpdatedPaper(x, d, p, u), st.papersById, IdentityCandidates(x, d);
    forall other, k | other in m && other != p.paperId && k in DoiKeys(now) ensures k !in DoiKeys(m[other]) {
      UpdatedDois(x, d, p, u, k);
      if k in DoiKeys(m[other]) {
        DoiKeysAreIdentities(m[other]);
        OwnedDoi(x, st, d, k, other);
      }
    }
    forall other, k | other in m && other != p.paperId && k in SourceKeys(now) ensures k !in SourceKeys(m[other]) {
      if k in SourceKeys(m[other]) {
        DoiKeysAreIdentities(m[other]);
        OwnedHash(x, st, d, p, u, k, other);
      }
    }
  }

  /** Whoever owns the incoming DOI is matched. */
  lemma OwnedDoi(x: Texts, st: State, d: Selected, k: string, other: string)
    requires StateOk(st) && TextsOk(x, d) && other in st.papersById && k in IdentityValues(st.papersById[other])
    ensures d.incoming.doi == Some(k) ==> other in Matches(st.index, IdentityCandidates(x, d))
  {
    hide Matches, IdentityValues, StateOk;
    if d.incoming.doi == Some(k) {
      assert k != "";
      OwnersMatch(st, IdentityCandidates(x, d), k, other);
    }
  }

  lemma OwnedHash(x: Texts, st: State, d: Selected, p: Paper, u: Metadata, k: string, other: string)
    requires StateOk(st) && other in st.papersById && k in IdentityValues(st.papersById[other])
    requires k == UpdatedPaper(x, d, p, u).sourceHash
    ensures k == p.sourceHash || other in Matches(st.index, IdentityCandidates(x, d))
  {
    hide Matches, IdentityValues, StateOk;
    if k == d.contentHash {
      OwnersMatch(st, IdentityCandidates(x, d), k, other);
    }
  }

  lemma UnmatchedAlone(x: Texts, st: State, d: Selected, id: string)
    requires StateOk(st) && TextsOk(x, d) && Matches(st.index, IdentityCandidates(x, d)) == {}
    ensures NobodyElse(st.papersById, id, NewPaper(x, d, id))
  {
    hide IdentityCandidates, Matches, TextsOk, DoiKeys, IdentityValues, StateOk, Normalized;
    var now, m := NewPaper(x, d, id), st.papersById;
    forall other, k | other in m && other != id && k in DoiKeys(now) ensures k !in DoiKeys(m[other]) {
      NewDois(x, d, id, k);
      if k in DoiKeys(m[other]) {
        DoiKeysAreIdentities(m[other]);
        OwnedDoi(x, st, d, k, other);
      }
    }
    forall other, k | other in m && other != id && k in SourceKeys(now) ensures k !in SourceKeys(m[other]) {
      if k in SourceKeys(m[other]) {
        DoiKeysAreIdentities(m[other]);
        OwnersMatch(st, IdentityCandidates(x, d), k, other);
      }
    }
  }

  lemma NextPaperIsFresh(st: State)
    requires StateOk(st)
    ensures Name('P', st.counter + 1) !in st.papersById
    ensures Covers('P', st.counter + 1, st.papersById.Keys + {Name('P', st.counter + 1)})
  {
    hide RegistryOk, IndexOk, NoRepeats, NumberOf, Name;
    NumberOfName('P', st.counter + 1);
  }

  /** What a document does to the Paper that it leaves in the registry. */
  ghost predicate Continues(p: Paper, now: Paper) {
    && now.paperId == p.paperId && ToSet(p.identityKeys) <= ToSet(now.identityKeys)
    && now.relatedPublications == p.relatedPublications && (p.doi.Some? ==> now.doi == p.doi)
  }

  /** What importing one document does to the state. */
  ghost predicate Advanced(st: State, now: State, d: Selected) {
    && |now.assignedIds| == |st.assignedIds| + 1 && now.assignedIds[..|st.assignedIds|] == st.assignedIds
    && var id := now.assignedIds[|st.assignedIds|];
       && id !in st.claimed && id in now.papersById && now.papersById[id].rawMdHash == d.contentHash
       && (HashesAgree(st.papersById) ==> HashesAgree(now.papersById))
       && (forall other :: other in st.papersById ==>
             && other in now.papersById && Continues(st.papersById[other], now.papersById[other])
             && (other != id ==> now.papersById[other] == st.papersById[other]))
  }

  lemma PutAdvances(st: State, p: Paper, counter: nat, d: Selected)
    requires p.paperId !in st.claimed && p.rawMdHash == d.contentHash
    requires HashesAgree(st.papersById) ==> p.sourceHash == p.rawMdHash
    requires p.paperId in st.papersById ==> Continues(st.papersById[p.paperId], p)
    requires forall id :: id in st.papersById ==> st.papersById[id].paperId == id
    ensures Advanced(st, Put(st, p, counter), d)
  {
  }

  lemma UpdatedContinues(x: Texts, d: Selected, p: Paper, u: Metadata)
    requires MergeMetadata(p, d.incoming, d.inferredTitle) == Ok(u)
    ensures var now := UpdatedPaper(x, d, p, u);
            && Continues(p, now) && now.rawMdHash == d.contentHash
            && (p.sourceHash == p.rawMdHash ==> now.sourceHash == d.contentHash)
  {
    hide IdentityCandidates, MergeMetadata;
  }

  lemma SingleMatch(ids: set<string>, id: string)
    requires id in ids && |ids| == 1
    ensures ids == {id}
  {
    assert |ids - {id}| == 0;
    forall other | other in ids ensures other == id {
      assert other !in ids - {id};
    }
  }

  /** The document leads to one Paper that no other document of this import has taken. */
  ghost predicate LeadsTo(x: Texts, st: State, d: Selected, id: string) {
    Matches(st.index, IdentityCandidates(x, d)) == {id} && id in st.papersById
  }

  /** A document's identities lead to one Paper, which takes the document over unless another document of
      this import has, or metadata conflict; to no Paper, so that a new one is made while identifiers last; or to
      several, which refuses the document. */
  ghost function ImportStep(x: Texts, st: State, d: Selected): Result<State, ImportError> {
    if exists id :: LeadsTo(x, st, d, id) then
      var id :| LeadsTo(x, st, d, id);
      if id in st.claimed then Err(PaperClaimedTwice)
      else
        var p := st.papersById[id];
        match MergeMetadata(p, d.incoming, d.inferredTitle)
        case Err(_) => Err(MetadataConflict)
        case Ok(u) => Ok(Put(st, UpdatedPaper(x, d, p, u), st.counter))
    else if Matches(st.index, IdentityCandidates(x, d)) != {} then Err(AmbiguousIdentity)
    else if st.counter >= MAX_PAPERS then Err(PapersExhausted)
    else Ok(Put(st, NewPaper(x, d, Name('P', st.counter + 1)), st.counter + 1))
  }

  /** The documents one after the other, up to the first that is refused. */
  ghost function ImportAll(x: Texts, st: State, docs: seq<Selected>): Result<State, ImportError> {
    if docs == [] then Ok(st)
    else
      match ImportAll(x, st, docs[..|docs| - 1])
      case Err(e) => Err(e)
      case Ok(now) => ImportStep(x, now, docs[|docs| - 1])
  }

  /** Document `i` is the first that is refused, for this reason. */
  ghost predicate RefusedAt(x: Texts, st: State, docs: seq<Selected>, i: nat, e: ImportError)
    requires i < |docs|
  {
    var before := ImportAll(x, st, docs[..i]);
    before.Ok? && ImportStep(x, before.value, docs[i]) == Err(e)
  }

  /** An import is refused exactly when a document is refused in the state that those before it leave. */
  lemma {:induction false} RefusedExactly(x: Texts, st: State, docs: seq<Selected>, n: nat, e: ImportError)
    requires n <= |docs|
    ensures ImportAll(x, st, docs[..n]) == Err(e) <==> exists i :: 0 <= i < n && RefusedAt(x, st, docs, i, e)
  {
    hide ImportStep;
    if n > 0 {
      RefusedExactly(x, st, docs, n - 1, e);
      assert docs[..n][..n - 1] == docs[..n - 1];
      if ImportAll(x, st, docs[..n]) == Err(e) && ImportAll(x, st, docs[..n - 1]).Ok? {
        assert RefusedAt(x, st, docs, n - 1, e);
      }
    }
  }

  /** The Papers, the Paper of each document and the counter that the registry is left with. */
  ghost predicate Imported(end: Result<State, ImportError>, papers: seq<Paper>, assignedIds: seq<string>, counter: nat) {
    && end.Ok? && assignedIds == end.value.assignedIds && counter == end.value.counter
    && forall p :: p in papers <==> p.paperId in end.value.papersById && end.value.papersById[p.paperId] == p
  }

  /** The document's Paper is the one that its identities lead to, or new if they lead to none. */
  ghost predicate Resolves(x: Texts, st: State, d: Selected, now: State) {
    && |now.assignedIds| == |st.assignedIds| + 1
    && var id, matches := now.assignedIds[|st.assignedIds|], Matches(st.index, IdentityCandidates(x, d));
       if id in st.papersById then matches == {id} else matches == {}
  }

  ghost predicate IsPut(st: State, now: State) {
    exists p, counter :: now == Put(st, p, counter)
  }

  /** The body of the loop over the selected documents. */
  method ImportOne(x: Texts, st: State, d: Selected) returns (r: Result<State, ImportError>)
    requires StateOk(st) && TextsOk(x, d)
    ensures r == ImportStep(x, st, d)
    ensures r == Err(AmbiguousIdentity) <==> |Matches(st.index, IdentityCandidates(x, d))| > 1
    ensures r == Err(PaperClaimedTwice) <==> exists id :: LeadsTo(x, st, d, id) && id in st.claimed
    ensures r == Err(MetadataConflict) <==> exists id :: LeadsTo(x, st, d, id) && id !in st.claimed && MetadataClash(st.papersById[id], d)
    ensures r == Err(PapersExhausted) <==> Matches(st.index, IdentityCandidates(x, d)) == {} && st.counter >= MAX_PAPERS
    ensures r.Ok? ==> StateOk(r.value) && Advanced(st, r.value, d) && Gives(x, st, d, r.value)
    ensures r.Ok? ==> Resolves(x, st, d, r.value) && IsPut(st, r.value)
  {
    hide Gives, Resolves, MetadataClash, StateOk, IdentityCandidates, Matches, TextsOk, MergeMetadata, NewPaper, UpdatedPaper, Put, Advanced, NobodyElse,
      RelatedExist, Covers, Name;
    var matches := Matches(st.index, IdentityCandidates(x, d));
    if |matches| > 1 {
      assert forall id :: matches != {id};
      return Err(AmbiguousIdentity);
    }
    if matches == {} {
      assert forall id :: matches != {id};
      if st.counter >= MAX_PAPERS {
        return Err(PapersExhausted);
      }
      var id := Name('P', st.counter + 1);
      ImportNew(x, st, d);
      NewGives(x, st, d);
      return Ok(Put(st, NewPaper(x, d, id), st.counter + 1));
    }
    var id :| id in matches;
    SingleMatch(matches, id);
    MatchedExists(st, IdentityCandidates(x, d), id);
    if id in st.claimed {
      assert LeadsTo(x, st, d, id);
      return Err(PaperClaimedTwice);
    }
    var p := st.papersById[id];
    var merged := MergeMetadata(p, d.incoming, d.inferredTitle);
    assert LeadsTo(x, st, d, id);
    MergeExactly(p, d);
    if merged.Err? {
      return Err(MetadataConflict);
    }
    ImportUpdate(x, st, d, p, merged.value);
    UpdateGives(x, st, d, p, merged.value);
    return Ok(Put(st, UpdatedPaper(x, d, p, merged.value), st.counter));
  }

  lemma NewGives(x: Texts, st: State, d: Selected)
    requires StateOk(st) && Matches(st.index, IdentityCandidates(x, d)) == {}
    ensures var id := Name('P', st.counter + 1); var now := Put(st, NewPaper(x, d, id), st.counter + 1);
            Gives(x, st, d, now) && Resolves(x, st, d, now)
  {
    hide IdentityCandidates, Matches, Name, StateOk, MadeOf, NewPaper;
    NewIsMadeOf(x, d, Name('P', st.counter + 1));
    NextPaperIsFresh(st);
  }

  lemma UpdateGives(x: Texts, st: State, d: Selected, p: Paper, u: Metadata)
    requires p.paperId in st.papersById && st.papersById[p.paperId] == p
    requires MergeMetadata(p, d.incoming, d.inferredTitle) == Ok(u) && Matches(st.index, IdentityCandidates(x, d)) == {p.paperId}
    ensures var now := Put(st, UpdatedPaper(x, d, p, u), st.counter);
            Gives(x, st, d, now) && Resolves(x, st, d, now)
  {
    UpdatedTakesOver(x, d, p, u);
    hide MergeMetadata, UpdatedPaper, MetadataMerged, IdentityCandidates, Matches;
  }

  lemma MatchedExists(st: State, identities: seq<string>, id: string)
    requires StateOk(st) && id in Matches(st.index, identities)
    ensures id in st.papersById && st.papersById[id].paperId == id
  {
    hide Covers, NoRepeats, IdentityValues, SoleBy;
  }

  lemma ImportNew(x: Texts, st: State, d: Selected)
    requires StateOk(st) && TextsOk(x, d) && Matches(st.index, IdentityCandidates(x, d)) == {}
    ensures var now := Put(st, NewPaper(x, d, Name('P', st.counter + 1)), st.counter + 1);
            StateOk(now) && Advanced(st, now, d)
  {
    hide IdentityCandidates, Matches, TextsOk, NobodyElse, Covers, Name, IndexOk, SoleBy, NoRepeats, Put, Advanced, Normalized;
    var id := Name('P', st.counter + 1);
    var p := NewPaper(x, d, id);
    NextPaperIsFresh(st);
    UnmatchedAlone(x, st, d, id);
    PutStateOk(st, p, st.counter + 1);
    PutAdvances(st, p, st.counter + 1, d);
  }

  lemma ImportUpdate(x: Texts, st: State, d: Selected, p: Paper, u: Metadata)
    requires StateOk(st) && TextsOk(x, d) && p.paperId in st.papersById && st.papersById[p.paperId] == p
    requires Matches(st.index, IdentityCandidates(x, d)) == {p.paperId} && p.paperId !in st.claimed
    requires MergeMetadata(p, d.incoming, d.inferredTitle) == Ok(u)
    ensures var now := Put(st, UpdatedPaper(x, d, p, u), st.counter); StateOk(now) && Advanced(st, now, d)
  {
    hide IdentityCandidates, Matches, TextsOk, NobodyElse, Covers, IndexOk, SoleBy, NoRepeats, Put, Advanced, MergeMetadata,
      UpdatedPaper, IdentityValues;
    var now := UpdatedPaper(x, d, p, u);
    UpdatedContinues(x, d, p, u);
    MatchedAlone(x, st, d, p, u);
    assert st.papersById.Keys + {p.paperId} == st.papersById.Keys;
    PutStateOk(st, now, st.counter);
    PutAdvances(st, now, st.counter, d);
  }

  // ---------------------------------------------------------------- the whole import

  ghost predicate PapersCovered(papers: seq<Paper>, counter: nat) {
    Covers('P', counter, ById(papers, PaperIdOf).Keys)
  }

  lemma CurrentRegistryOk(papers: seq<Paper>)
    requires IdentityClean(papers)
    ensures RegistryOk(ById(papers, PaperIdOf))
  {
    hide DoiKeys, SourceKeys, UniqueIds, RelatedExist, ById;
    var m := ById(papers, PaperIdOf);
    forall id | id in m ensures m[id] in papers && m[id].paperId == id {
      ByIdMember(papers, PaperIdOf, id);
    }
  }

  lemma IdsOfPapers(papers: seq<Paper>, n: nat)
    requires UniqueIds(papers, PaperIdOf) && n <= |papers|
    ensures var ids := PaperIds(papers[..n]); NoRepeats(ids) && forall id :: id in ids <==> id in ById(papers[..n], PaperIdOf)
  {
    hide ById;
    var front := papers[..n];
    var ids := PaperIds(front);
    forall id ensures id in ids <==> id in ById(front, PaperIdOf) {
      ByIdKeys(front, PaperIdOf, id);
      if id in ids {
        var i :| 0 <= i < |ids| && ids[i] == id;
        assert PaperIdOf(front[i]) == id;
      }
    }
    forall i, j | 0 <= i < j < |ids| ensures ids[i] != ids[j] {
      assert PaperIdOf(papers[i]) != PaperIdOf(papers[j]);
    }
  }

  function PaperIds(papers: seq<Paper>): (r: seq<string>)
    ensures |r| == |papers| && forall i :: 0 <= i < |r| ==> r[i] == papers[i].paperId
  {
    seq(|papers|, i requires 0 <= i < |papers| => papers[i].paperId)
  }

  function IndexOf(papers: seq<Paper>): map<string, set<string>> {
    if papers == [] then map[]
    else
      var p := papers[|papers| - 1];
      Indexed(IndexOf(papers[..|papers| - 1]), IdentityValues(p), p.paperId)
  }

  /** The dictionaries that `promote` starts from. */
  function Start(papers: seq<Paper>, counter: nat): State {
    State(ById(papers, PaperIdOf), PaperIds(papers), IndexOf(papers), {}, [], counter)
  }

  method StartImport(papers: seq<Paper>, counter: nat) returns (st: State)
    requires IdentityClean(papers) && PapersCovered(papers, counter)
    ensures st == Start(papers, counter)
    ensures StateOk(st) && st.papersById == ById(papers, PaperIdOf) && st.assignedIds == []
  {
    hide IdentityClean, RegistryOk, Covers, NoRepeats, IdentityValues, UniqueIds, Indexed;
    UniquePapers(papers);
    var index: map<string, set<string>> := map[];
    var i := 0;
    while i < |papers|
      invariant 0 <= i <= |papers| && index == IndexOf(papers[..i])
      invariant IndexOk(ById(papers[..i], PaperIdOf), index)
    {
      assert papers[..i + 1][..i] == papers[..i];
      PutKeepsIndex(ById(papers[..i], PaperIdOf), index, papers[i].paperId, papers[i]);
      NextPaper(papers, i);
      index := Indexed(index, IdentityValues(papers[i]), papers[i].paperId);
      i := i + 1;
    }
    assert papers[..i] == papers;
    CurrentRegistryOk(papers);
    IdsOfPapers(papers, |papers|);
    st := State(ById(papers, PaperIdOf), PaperIds(papers), index, {}, [], counter);
    NothingRepeated();
  }

  lemma NothingRepeated()
    ensures NoRepeats([])
  {
  }

  lemma UniquePapers(papers: seq<Paper>)
    requires IdentityClean(papers)
    ensures UniqueIds(papers, PaperIdOf)
  {
  }

  lemma NextPaper(papers: seq<Paper>, i: nat)
    requires UniqueIds(papers, PaperIdOf) && i < |papers|
    ensures ById(papers[..i + 1], PaperIdOf) == ById(papers[..i], PaperIdOf)[papers[i].paperId := papers[i]]
  {
    assert papers[..i + 1][..i] == papers[..i];
    ByIdKeys(papers[..i], PaperIdOf, papers[i].paperId);
    assert forall j :: 0 <= j < i ==> PaperIdOf(papers[j]) != PaperIdOf(papers[i]);
  }

  /** The Papers of the dictionary in the order of their identifiers. */
  function PapersOf(ids: seq<string>, m: map<string, Paper>): (r: seq<Paper>)
    requires forall id :: id in ids ==> id in m
    ensures |r| == |ids| && forall i :: 0 <= i < |r| ==> r[i] == m[ids[i]]
  {
    seq(|ids|, i requires 0 <= i < |ids| => m[ids[i]])
  }

  lemma SortedIds(ids: seq<string>)
    ensures (forall id :: id in StableSort(LexLeq, ids) <==> id in ids)
    ensures NoRepeats(ids) ==> NoRepeats(StableSort(LexLeq, ids))
  {
    SortSame(LexLeq, ids);
    SortDistinct(LexLeq, ids);
    var sorted := StableSort(LexLeq, ids);
    assert Distinct(ids) <==> NoRepeats(ids);
    assert Distinct(sorted) <==> NoRepeats(sorted);
  }

  lemma PapersClean(ids: seq<string>, m: map<string, Paper>)
    requires RegistryOk(m) && NoRepeats(ids) && forall id :: id in ids <==> id in m
    ensures var papers := PapersOf(ids, m);
            && IdentityClean(papers) && (forall id :: id in m ==> m[id] in papers) && forall p :: p in papers ==> p.paperId in m && m[p.paperId] == p
  {
    hide DoiKeys, SourceKeys, ById;
    var papers := PapersOf(ids, m);
    forall id | id in m ensures m[id] in papers {
      var i :| 0 <= i < |ids| && ids[i] == id;
      assert papers[i] == m[id];
    }
    forall id | id in m ensures id in ById(papers, PaperIdOf) {
      ByIdHas(papers, PaperIdOf, m[id]);
    }
    forall p | p in papers ensures RelatedExist(p, ById(papers, PaperIdOf)) {
      assert RelatedExist(m[p.paperId], m);
    }
  }

  /** Every existing Paper is still there under its identifier, with everything it was known by; those that no
      document leads to are unchanged. */
  ghost predicate NothingLost(before: seq<Paper>, now: seq<Paper>, touched: seq<string>) {
    forall p :: p in before ==> exists q :: q in now && Continues(p, q) && (p.paperId !in touched ==> q == p)
  }

  /** Document `i` has been given the Paper `ids[i]`, which holds exactly its bytes. */
  ghost predicate HoldsDocument(papers: seq<Paper>, id: string, d: Selected, sourceToo: bool) {
    exists p :: p in papers && p.paperId == id && p.rawMdHash == d.contentHash && (sourceToo ==> p.sourceHash == d.contentHash)
  }

  ghost predicate SameHashes(papers: seq<Paper>) {
    forall p :: p in papers ==> p.sourceHash == p.rawMdHash
  }

  ghost predicate Held(st: State, docs: seq<Selected>, n: nat)
    requires n <= |docs|
  {
    && |st.assignedIds| == n
    && forall j :: 0 <= j < n ==> st.assignedIds[j] in st.papersById
                                  && st.papersById[st.assignedIds[j]].rawMdHash == docs[j].contentHash
  }

  ghost predicate Kept(start: map<string, Paper>, st: State) {
    forall id :: id in start ==> id in st.papersById && Continues(start[id], st.papersById[id])
                                 && (id !in st.assignedIds ==> st.papersById[id] == start[id])
  }

  lemma AdvanceHeld(start: map<string, Paper>, st: State, now: State, docs: seq<Selected>, i: nat)
    requires i < |docs| && StateOk(st) && Held(st, docs, i) && Kept(start, st) && Advanced(st, now, docs[i])
    ensures Held(now, docs, i + 1) && Kept(start, now)
  {
    hide RegistryOk, IndexOk, Covers, NoRepeats, HashesAgree;
    forall j | 0 <= j < i ensures now.assignedIds[j] == st.assignedIds[j] && st.assignedIds[j] in st.claimed {
      assert now.assignedIds[..i][j] == now.assignedIds[j];
    }
    assert now.assignedIds == st.assignedIds + [now.assignedIds[i]];
  }

  /** The document and the Paper have an identity in common. */
  ghost predicate Shares(x: Texts, d: Selected, p: Paper) {
    exists k :: k in IdentityCandidates(x, d) && k in IdentityValues(p)
  }

  /** The document is given the one Paper of the start that it shares an identity with, or a new one if there is none. */
  ghost predicate ResolvedFrom(x: Texts, start: map<string, Paper>, d: Selected, id: string) {
    forall p :: p in start ==> (Shares(x, d, start[p]) <==> p == id)
  }

  /** The index leads from every identity that a Paper started with to that Paper and, until the Paper is given away, from
      nothing else. */
  ghost predicate IndexFrom(start: map<string, Paper>, st: State) {
    && (forall id, k :: id in start && k in IdentityValues(start[id]) ==> k in st.index && id in st.index[k])
    && (forall id, k :: k in st.index && id in st.index[k] && id in start && id !in st.claimed ==> k in IdentityValues(start[id]))
  }

  /** The index leads to exactly the owners of each identity. */
  ghost predicate Indexes(m: map<string, Paper>, index: map<string, set<string>>) {
    && (forall id, k :: id in m && k in IdentityValues(m[id]) ==> k in index && id in index[k])
    && (forall id, k :: k in index && id in index[k] ==> id in m && k in IdentityValues(m[id]))
  }

  lemma IndexesNext(m: map<string, Paper>, index: map<string, set<string>>, p: Paper)
    requires Indexes(m, index) && p.paperId !in m
    ensures Indexes(m[p.paperId := p], Indexed(index, IdentityValues(p), p.paperId))
  {
    hide IdentityValues;
  }

  lemma {:induction false} StartIndexed(papers: seq<Paper>, n: nat)
    requires UniqueIds(papers, PaperIdOf) && n <= |papers|
    ensures Indexes(ById(papers[..n], PaperIdOf), IndexOf(papers[..n]))
  {
    hide IdentityValues, UniqueIds, ById, Indexed, Indexes;
    if n > 0 {
      StartIndexed(papers, n - 1);
      NextPaper(papers, n - 1);
      NotBefore(papers, n - 1);
      assert papers[..n][..n - 1] == papers[..n - 1];
      IndexesNext(ById(papers[..n - 1], PaperIdOf), IndexOf(papers[..n - 1]), papers[n - 1]);
    } else {
      NoPapers(papers);
    }
  }

  lemma NoPapers(papers: seq<Paper>)
    ensures Indexes(ById(papers[..0], PaperIdOf), IndexOf(papers[..0]))
  {
  }

  lemma NotBefore(papers: seq<Paper>, n: nat)
    requires UniqueIds(papers, PaperIdOf) && n < |papers|
    ensures papers[n].paperId !in ById(papers[..n], PaperIdOf)
  {
    ByIdKeys(papers[..n], PaperIdOf, papers[n].paperId);
    hide ById;
    assert forall i :: 0 <= i < n ==> PaperIdOf(papers[i]) != PaperIdOf(papers[n]);
  }

  lemma IndexNext(start: map<string, Paper>, st: State, p: Paper, counter: nat)
    requires IndexFrom(start, st)
    ensures IndexFrom(start, Put(st, p, counter))
  {
    hide IdentityValues;
  }

  /** Each document has its own Paper, which is what it was with the document taken over, or made of the document;
      no other Paper changes, and no other appears. */
  ghost predicate GivenAll(x: Texts, before: seq<Paper>, now: seq<Paper>, docs: seq<Selected>, ids: seq<string>) {
    && |ids| == |docs| && NoRepeats(ids)
    && (forall i :: 0 <= i < |docs| ==> ResolvedFrom(x, ById(before, PaperIdOf), docs[i], ids[i]))
    && (forall i :: 0 <= i < |docs| ==> SomeGiven(x, ById(before, PaperIdOf), now, docs[i], ids[i]))
    && (forall q :: q in now ==> q.paperId in ids || q in before)
    && (forall p :: p in before ==> p.paperId in ids || p in now)
  }

  ghost predicate SomeGiven(x: Texts, before: map<string, Paper>, now: seq<Paper>, d: Selected, id: string) {
    exists q :: q in now && Given(x, before, d, id, q)
  }

  ghost predicate GivenSo(x: Texts, start: map<string, Paper>, st: State, docs: seq<Selected>, n: nat)
    requires n <= |docs|
  {
    && |st.assignedIds| == n
    && (forall j :: 0 <= j < n ==> st.assignedIds[j] in st.papersById
                                   && Given(x, start, docs[j], st.assignedIds[j], st.papersById[st.assignedIds[j]]))
    && (forall j :: 0 <= j < n ==> ResolvedFrom(x, start, docs[j], st.assignedIds[j]))
    && (forall id :: id in st.papersById ==> id in st.assignedIds || (id in start && st.papersById[id] == start[id]))
    && IndexFrom(start, st)
  }

  lemma GivesNext(x: Texts, start: map<string, Paper>, st: State, now: State, docs: seq<Selected>, i: nat)
    requires i < |docs| && StateOk(st) && Kept(start, st) && GivenSo(x, start, st, docs, i)
    requires Gives(x, st, docs[i], now) && Advanced(st, now, docs[i]) && Resolves(x, st, docs[i], now) && IsPut(st, now)
    ensures GivenSo(x, start, now, docs, i + 1)
  {
    hide RegistryOk, IndexOk, Covers, NoRepeats, TakesOver, MadeOf, HashesAgree, Continues, Resolves, ResolvedFrom, IndexFrom, IsPut;
    ResolvedNow(x, start, st, docs[i], now);
    PutIndexed(start, st, now);
    var id := now.assignedIds[i];
    assert now.assignedIds == st.assignedIds + [id];
    assert id !in st.assignedIds;
    forall j | 0 <= j < i + 1
      ensures now.assignedIds[j] in now.papersById
      ensures Given(x, start, docs[j], now.assignedIds[j], now.papersById[now.assignedIds[j]])
      ensures ResolvedFrom(x, start, docs[j], now.assignedIds[j])
    {
      if j < i {
        assert now.assignedIds[j] == st.assignedIds[j] && st.assignedIds[j] in st.assignedIds;
      }
    }
  }

  lemma ResolvedNow(x: Texts, start: map<string, Paper>, st: State, d: Selected, now: State)
    requires StateOk(st) && Kept(start, st) && IndexFrom(start, st) && Resolves(x, st, d, now) && Advanced(st, now, d)
    ensures ResolvedFrom(x, start, d, now.assignedIds[|st.assignedIds|])
  {
    hide IdentityCandidates, IdentityValues, RegistryOk, IndexOk, Covers, NoRepeats, Continues, HashesAgree;
    var id, cands := now.assignedIds[|st.assignedIds|], IdentityCandidates(x, d);
    forall p | p in start ensures Shares(x, d, start[p]) <==> p == id {
      if Shares(x, d, start[p]) {
        var k :| k in cands && k in IdentityValues(start[p]);
        assert p in Matches(st.index, cands);
      }
      if p == id {
        assert id in Matches(st.index, cands);
        var k :| k in cands && k in st.index && id in st.index[k];
        assert k in IdentityValues(start[id]);
      }
    }
  }

  lemma PutIndexed(start: map<string, Paper>, st: State, now: State)
    requires IndexFrom(start, st) && IsPut(st, now)
    ensures IndexFrom(start, now)
  {
    var p, counter :| now == Put(st, p, counter);
    IndexNext(start, st, p, counter);
  }

  lemma EndGiven(x: Texts, st: State, papers: seq<Paper>, docs: seq<Selected>, ids: seq<string>)
    requires GivenSo(x, ById(papers, PaperIdOf), st, docs, |docs|) && Kept(ById(papers, PaperIdOf), st)
    requires NoRepeats(ids) && (forall id :: id in ids <==> id in st.papersById) && RegistryOk(st.papersById)
    requires NoRepeats(st.assignedIds) && UniqueIds(papers, PaperIdOf)
    ensures GivenAll(x, papers, PapersOf(ids, st.papersById), docs, st.assignedIds)
  {
    hide ById, Given, NoRepeats, UniqueIds, IdentityClean, Continues, ResolvedFrom, IndexFrom;
    PapersClean(ids, st.papersById);
    var now := PapersOf(ids, st.papersById);
    forall i | 0 <= i < |docs| ensures SomeGiven(x, ById(papers, PaperIdOf), now, docs[i], st.assignedIds[i]) {
      assert st.papersById[st.assignedIds[i]] in now;
    }
    forall q | q in now ensures q.paperId in st.assignedIds || q in papers {
      if q.paperId !in st.assignedIds {
        ByIdMember(papers, PaperIdOf, q.paperId);
      }
    }
    forall p | p in papers ensures p.paperId in st.assignedIds || p in now {
      ByIdFinds(papers, PaperIdOf, p);
      assert st.papersById[p.paperId] in now;
    }
  }

  /** `promote` of `import_selected_corpus`: the new registry and the Paper of each document. */
  method ImportDocuments(x: Texts, docs: seq<Selected>, papers: seq<Paper>, counter: nat)
    returns (r: Result<(seq<Paper>, seq<string>, nat), ImportError>)
    requires IdentityClean(papers) && PapersCovered(papers, counter) && forall d :: d in docs ==> TextsOk(x, d)
    ensures forall e :: r == Err(e) <==> exists i :: 0 <= i < |docs| && RefusedAt(x, Start(papers, counter), docs, i, e)
    ensures r.Ok? ==> Imported(ImportAll(x, Start(papers, counter), docs), r.value.0, r.value.1, r.value.2)
    ensures r.Ok? ==> GivenAll(x, papers, r.value.0, docs, r.value.1)
    ensures r.Ok? ==> IdentityClean(r.value.0) && NothingLost(papers, r.value.0, r.value.1)
    ensures r.Ok? ==> SameHashes(papers) ==> SameHashes(r.value.0)
    ensures r.Ok? ==> |r.value.1| == |docs| && NoRepeats(r.value.1)
    ensures r.Ok? ==> forall i :: 0 <= i < |docs| ==> HoldsDocument(r.value.0, r.value.1[i], docs[i], SameHashes(papers))
    ensures r.Ok? ==> PapersCovered(r.value.0, r.value.2)
  {
    hide IdentityClean, PapersCovered, StateOk, TextsOk, Advanced, Held, Kept, NothingLost, SameHashes, HoldsDocument, HashesAgree,
      NoRepeats, ById, StableSort, LexLeq, ImportStep, Start, RefusedAt, Imported, Gives, Resolves,
      IsPut, GivenSo, GivenAll;
    var st := StartImport(papers, counter);
    ghost var first, start := st, st.papersById;
    assert docs[..0] == [];
    StartKept(papers, st, docs);
    UniquePapers(papers);
    StartGiven(x, papers, counter, docs);
    var i := 0;
    while i < |docs|
      invariant 0 <= i <= |docs| && StateOk(st) && Held(st, docs, i) && Kept(start, st)
      invariant SameHashes(papers) ==> HashesAgree(st.papersById)
      invariant ImportAll(x, first, docs[..i]) == Ok(st) && GivenSo(x, start, st, docs, i)
    {
      assert docs[i] in docs && docs[..i + 1][..i] == docs[..i];
      var next := ImportOne(x, st, docs[i]);
      if next.Err? {
        ImportRefused(x, first, st, docs, i, next.error);
        return Err(next.error);
      }
      AdvanceHeld(start, st, next.value, docs, i);
      GivesNext(x, start, st, next.value, docs, i);
      AdvanceHashes(st, next.value, docs[i]);
      st := next.value;
      i := i + 1;
    }
    EndFacts(st, papers, docs);
    UniquePapers(papers);
    var sorted := StableSort(LexLeq, st.ids);
    SortedIds(st.ids);
    EndImport(st, papers, docs, sorted);
    EndGiven(x, st, papers, docs, sorted);
    assert docs[..i] == docs;
    NoneRefused(x, first, docs);
    EndImported(st, sorted);
    r := Ok((PapersOf(sorted, st.papersById), st.assignedIds, st.counter));
  }

  lemma ImportRefused(x: Texts, first: State, st: State, docs: seq<Selected>, i: nat, e: ImportError)
    requires i < |docs| && ImportAll(x, first, docs[..i]) == Ok(st) && ImportStep(x, st, docs[i]) == Err(e)
    ensures RefusedAt(x, first, docs, i, e)
    ensures forall k, f :: 0 <= k < |docs| && RefusedAt(x, first, docs, k, f) ==> f == e
  {
    hide ImportStep;
    forall k, f | 0 <= k < |docs| && RefusedAt(x, first, docs, k, f) ensures f == e {
      OneRefusal(x, first, docs, i, e, k, f);
    }
  }

  /** Only the first refusal happens. */
  lemma OneRefusal(x: Texts, st: State, docs: seq<Selected>, i: nat, e: ImportError, k: nat, f: ImportError)
    requires i < |docs| && k < |docs| && RefusedAt(x, st, docs, i, e) && RefusedAt(x, st, docs, k, f)
    ensures i == k && e == f
  {
    hide ImportStep, ImportAll;
    RefusedExactly(x, st, docs, i, f);
    RefusedExactly(x, st, docs, k, e);
  }

  lemma NoneRefused(x: Texts, st: State, docs: seq<Selected>)
    requires ImportAll(x, st, docs).Ok?
    ensures forall e, k :: 0 <= k < |docs| ==> !RefusedAt(x, st, docs, k, e)
  {
    hide ImportStep, ImportAll, RefusedAt;
    assert docs[..|docs|] == docs;
    forall e, k | 0 <= k < |docs| ensures !RefusedAt(x, st, docs, k, e) {
      RefusedExactly(x, st, docs, |docs|, e);
    }
  }

  lemma EndImported(st: State, ids: seq<string>)
    requires NoRepeats(ids) && (forall id :: id in ids <==> id in st.papersById) && RegistryOk(st.papersById)
    ensures Imported(Ok(st), PapersOf(ids, st.papersById), st.assignedIds, st.counter)
  {
    hide IdentityClean;
    PapersClean(ids, st.papersById);
    var papers := PapersOf(ids, st.papersById);
    forall p: Paper | p.paperId in st.papersById && st.papersById[p.paperId] == p ensures p in papers {
      assert st.papersById[p.paperId] in papers;
    }
  }

  lemma StartGiven(x: Texts, papers: seq<Paper>, counter: nat, docs: seq<Selected>)
    requires UniqueIds(papers, PaperIdOf)
    ensures var st := Start(papers, counter); GivenSo(x, st.papersById, st, docs, 0)
  {
    hide ById, IndexOf, IdentityValues, UniqueIds, ResolvedFrom, Given;
    StartIndexed(papers, |papers|);
    assert papers[..|papers|] == papers;
    IndexedFrom(ById(papers, PaperIdOf), Start(papers, counter));
  }

  lemma IndexedFrom(m: map<string, Paper>, st: State)
    requires Indexes(m, st.index)
    ensures IndexFrom(m, st)
  {
    hide IdentityValues;
  }

  lemma StartKept(papers: seq<Paper>, st: State, docs: seq<Selected>)
    requires st.papersById == ById(papers, PaperIdOf) && st.assignedIds == []
    ensures Held(st, docs, 0) && Kept(st.papersById, st)
    ensures SameHashes(papers) ==> HashesAgree(st.papersById)
  {
    hide ById;
    forall id | id in st.papersById ensures st.papersById[id] in papers {
      ByIdMember(papers, PaperIdOf, id);
    }
  }

  lemma AdvanceHashes(st: State, now: State, d: Selected)
    requires Advanced(st, now, d)
    ensures HashesAgree(st.papersById) ==> HashesAgree(now.papersById)
  {
    hide HashesAgree, Continues;
  }

  lemma EndFacts(st: State, papers: seq<Paper>, docs: seq<Selected>)
    requires StateOk(st) && Held(st, docs, |docs|)
    ensures (forall id :: id in st.ids <==> id in st.papersById) && NoRepeats(st.ids) && RegistryOk(st.papersById)
    ensures NoRepeats(st.assignedIds) && |st.assignedIds| == |docs| && Covers('P', st.counter, st.papersById.Keys)
  {
    hide RegistryOk, IndexOk, Covers, NoRepeats;
  }

  lemma EndImport(st: State, papers: seq<Paper>, docs: seq<Selected>, ids: seq<string>)
    requires NoRepeats(ids) && (forall id :: id in ids <==> id in st.papersById) && RegistryOk(st.papersById)
    requires Held(st, docs, |docs|) && Kept(ById(papers, PaperIdOf), st) && UniqueIds(papers, PaperIdOf)
    requires SameHashes(papers) ==> HashesAgree(st.papersById)
    requires Covers('P', st.counter, st.papersById.Keys)
    ensures var now := PapersOf(ids, st.papersById);
            && IdentityClean(now) && NothingLost(papers, now, st.assignedIds) && (SameHashes(papers) ==> SameHashes(now))
            && PapersCovered(now, st.counter)
            && forall i :: 0 <= i < |docs| ==> HoldsDocument(now, st.assignedIds[i], docs[i], SameHashes(papers))
  {
    hide RegistryOk, IdentityClean, ById, Continues, NoRepeats, UniqueIds, Covers;
    var m := st.papersById;
    var now := PapersOf(ids, m);
    PapersClean(ids, m);
    forall p | p in papers ensures exists q :: q in now && Continues(p, q) && (p.paperId !in st.assignedIds ==> q == p) {
      ByIdFinds(papers, PaperIdOf, p);
      assert m[p.paperId] in now;
    }
    forall i | 0 <= i < |docs| ensures HoldsDocument(now, st.assignedIds[i], docs[i], SameHashes(papers)) {
      var id := st.assignedIds[i];
      RegistryNames(m, id);
      assert m[id] in now;
    }
    CoveredAfter(now, m, st.counter);
  }

  lemma RegistryNames(m: map<string, Paper>, id: string)
    requires RegistryOk(m) && id in m
    ensures m[id].paperId == id
  {
    hide SoleBy, RelatedExist;
  }

  lemma CoveredAfter(now: seq<Paper>, m: map<string, Paper>, counter: nat)
    requires Covers('P', counter, m.Keys) && forall p :: p in now ==> p.paperId in m
    ensures PapersCovered(now, counter)
  {
    hide NumberOf, ById;
    forall id | id in ById(now, PaperIdOf) ensures id in m {
      ByIdMember(now, PaperIdOf, id);
    }
  }
}
