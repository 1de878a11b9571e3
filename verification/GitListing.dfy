/** What the verified commit snapshot lists, and the component walk that finds one entry
    (library/git_source.py). */
module GitListing {
  import opened Basics
  import opened GitTree
  import opened GitPaths
  import opened GitSnapshot
  import opened Ordering

  // ---------------------------------------------------------------- one entry by its path

  datatype WalkError = PathTooDeep | Unavailable(error: SnapshotError) | NoUniqueEntry | ParentNotTree

  /** `[entry for entry in entries if entry.name == component]`. */
  function Matching(entries: seq<TreeEntry>, name: string): seq<TreeEntry> {
    if entries == [] then []
    else
      var last := |entries| - 1;
      Matching(entries[..last], name) + (if entries[last].name == name then [entries[last]] else [])
  }

  function EntryNamed(repo: Repository, id: string, name: string): Result<TreeEntry, WalkError> {
    match ReadTree(repo, id)
    case Err(e) => Err(Unavailable(e))
    case Ok(entries) =>
      var matches := Matching(entries, name);
      if |matches| != 1 then Err(NoUniqueEntry) else Ok(matches[0])
  }

  /** The entry that a chain of component names leads to. */
  function Resolve(repo: Repository, id: string, parts: seq<string>): Result<TreeEntry, WalkError>
    requires parts != []
    decreases |parts|
  {
    match EntryNamed(repo, id, parts[0])
    case Err(e) => Err(e)
    case Ok(selected) =>
      if |parts| == 1 then Ok(selected)
      else if selected.mode != TREE_MODE then Err(ParentNotTree)
      else Resolve(repo, selected.objectId, parts[1..])
  }

  /** The entry at a path that is not too deep. */
  function EntryAtPath(repo: Repository, root: string, path: string): Result<TreeEntry, WalkError> {
    var parts := Split(path);
    if |parts| > MAX_TREE_DEPTH then Err(PathTooDeep) else Resolve(repo, root, parts)
  }

  /** `_verified_tree_entry_at_path`. */
  method VerifiedTreeEntryAtPath(repo: Repository, rootTreeId: string, relativePath: string)
      returns (r: Result<TreeEntry, WalkError>)
    ensures r == EntryAtPath(repo, rootTreeId, relativePath)
  {
    var parts := Split(relativePath);
    if |parts| > MAX_TREE_DEPTH {
      return Err(PathTooDeep);
    }
    hide EntryNamed;
    var treeId := rootTreeId;
    var ordinal := 0;
    assert parts[0..] == parts;
    while true
      invariant 0 <= ordinal < |parts|
      invariant Resolve(repo, rootTreeId, parts) == Resolve(repo, treeId, parts[ordinal..])
      decreases |parts| - ordinal
    {
      var found := EntryNamed(repo, treeId, parts[ordinal]);
      if found.Err? {
        return Err(found.error);
      }
      var selected := found.value;
      if ordinal == |parts| - 1 {
        return Ok(selected);
      }
      if selected.mode != TREE_MODE {
        return Err(ParentNotTree);
      }
      assert parts[ordinal..][1..] == parts[ordinal + 1..];
      treeId := selected.objectId;
      ordinal := ordinal + 1;
    }
  }

  lemma {:induction false} MatchingNone(entries: seq<TreeEntry>, name: string)
    requires forall i :: 0 <= i < |entries| ==> entries[i].name != name
    ensures Matching(entries, name) == []
  {
    if entries != [] {
      MatchingNone(entries[..|entries| - 1], name);
    }
  }

  lemma {:induction false} MatchingOne(entries: seq<TreeEntry>, k: nat)
    requires k < |entries| && forall i, j :: 0 <= i < j < |entries| ==> entries[i].name != entries[j].name
    ensures Matching(entries, entries[k].name) == [entries[k]]
  {
    var last := |entries| - 1;
    if k == last {
      MatchingNone(entries[..last], entries[k].name);
    } else {
      MatchingOne(entries[..last], k);
    }
  }

  lemma {:induction false} MatchingSound(entries: seq<TreeEntry>, name: string) returns (k: nat)
    requires Matching(entries, name) != []
    ensures k < |entries| && entries[k].name == name
  {
    var last := |entries| - 1;
    if entries[last].name == name {
      k := last;
    } else {
      k := MatchingSound(entries[..last], name);
    }
  }

  /** A component walk reads the one entry that has the name. */
  lemma EntryNamedExactly(repo: Repository, id: string, name: string) returns (k: nat)
    requires EntryNamed(repo, id, name).Ok?
    ensures ReadTree(repo, id).Ok? && k < |ReadTree(repo, id).value|
    ensures EntryNamed(repo, id, name) == Ok(ReadTree(repo, id).value[k])
    ensures ReadTree(repo, id).value[k].name == name
  {
    var entries := ReadTree(repo, id).value;
    TreeIsWellFormed(repo, id);
    k := MatchingSound(entries, name);
    MatchingOne(entries, k);
  }

  // ---------------------------------------------------------------- listed means reachable

  lemma {:induction false} ListedEntry(repo: Repository, es: seq<TreeEntry>, prefix: string, depth: nat, b: BlobEntry)
      returns (k: nat)
    requires depth <= MAX_TREE_DEPTH && FlattenEntries(repo, es, prefix, depth).Some?
    requires b in FlattenEntries(repo, es, prefix, depth).value.blobs
    ensures k < |es| && FlattenEntry(repo, es[k], prefix, depth).Some?
    ensures b in FlattenEntry(repo, es[k], prefix, depth).value.blobs
  {
    hide FlattenEntry;
    var last := |es| - 1;
    if b in FlattenEntry(repo, es[last], prefix, depth).value.blobs {
      k := last;
    } else {
      k := ListedEntry(repo, es[..last], prefix, depth, b);
    }
  }

  lemma {:induction false} EntryListed(repo: Repository, es: seq<TreeEntry>, prefix: string, depth: nat, k: nat)
    requires depth <= MAX_TREE_DEPTH && FlattenEntries(repo, es, prefix, depth).Some? && k < |es|
    ensures FlattenEntry(repo, es[k], prefix, depth).Some?
    ensures forall b :: b in FlattenEntry(repo, es[k], prefix, depth).value.blobs ==>
              b in FlattenEntries(repo, es, prefix, depth).value.blobs
  {
    hide FlattenEntry;
    var last := |es| - 1;
    if k < last {
      EntryListed(repo, es[..last], prefix, depth, k);
    }
  }

  ghost predicate Leads(repo: Repository, id: string, parts: seq<string>, b: BlobEntry) {
    && parts != [] && Resolve(repo, id, parts).Ok?
    && Resolve(repo, id, parts).value.mode == b.mode && Resolve(repo, id, parts).value.objectId == b.objectId
  }

  /** Every blob below a tree is what the component walk finds at its path. */
  lemma {:induction false} ListedIsReached(repo: Repository, id: string, above: seq<string>, depth: nat, b: BlobEntry)
      returns (parts: seq<string>)
    requires ValidNames(above) && Flatten(repo, id, Join(above), depth).Some?
    requires b in Flatten(repo, id, Join(above), depth).value.blobs
    ensures Leads(repo, id, parts, b) && RegularMode(b.mode)
    ensures ValidNames(above + parts) && b.path == Join(above + parts)
    ensures depth + |parts| <= MAX_TREE_DEPTH + 1
    decreases Levels(depth)
  {
    hide FlattenEntries, ReadTree, Join, Matching, ValidName, BlobReadable;
    var prefix := Join(above);
    var es := ReadTree(repo, id).value;
    TreeIsWellFormed(repo, id);
    var k := ListedEntry(repo, es, prefix, depth, b);
    var name := es[k].name;
    MatchingOne(es, k);
    ExtendIsJoin(above, name);
    if es[k].mode == TREE_MODE {
      var below := ListedIsReached(repo, es[k].objectId, above + [name], depth + 1, b);
      parts := [name] + below;
      assert above + [name] + below == above + parts;
      assert parts[1..] == below;
    } else {
      parts := [name];
    }
  }

  lemma ExtendIsJoin(above: seq<string>, name: string)
    requires ValidNames(above) && ValidName(name)
    ensures ValidNames(above + [name]) && Extend(Join(above), name) == Join(above + [name])
  {
    JoinSnoc(above, name);
  }

  /** Every blob that the component walk finds is listed under its path. */
  lemma {:induction false} ReachedIsListed(repo: Repository, id: string, above: seq<string>, depth: nat, parts: seq<string>)
    requires ValidNames(above) && Flatten(repo, id, Join(above), depth).Some?
    requires parts != [] && Resolve(repo, id, parts).Ok? && RegularMode(Resolve(repo, id, parts).value.mode)
    ensures var e := Resolve(repo, id, parts).value;
            ValidNames(above + parts)
            && BlobEntry(e.mode, e.objectId, Join(above + parts)) in Flatten(repo, id, Join(above), depth).value.blobs
    decreases |parts|
  {
    hide FlattenEntries, ReadTree, Join, Matching, ValidName, BlobReadable;
    var name := parts[0];
    var k := EntryNamedExactly(repo, id, name);
    TreeIsWellFormed(repo, id);
    var es := ReadTree(repo, id).value;
    EntryListed(repo, es, Join(above), depth, k);
    ExtendIsJoin(above, name);
    if |parts| > 1 {
      ReachedIsListed(repo, es[k].objectId, above + [name], depth + 1, parts[1..]);
      assert above + [name] + parts[1..] == above + parts;
    } else {
      assert parts == [name];
    }
  }

  // ---------------------------------------------------------------- the snapshot

  predicate PathLeq(a: BlobEntry, b: BlobEntry) {
    LexLeq(a.path, b.path)
  }

  ghost predicate DistinctPaths(blobs: seq<BlobEntry>) {
    forall i, j :: 0 <= i < j < |blobs| ==> blobs[i].path != blobs[j].path
  }

  lemma {:induction false} EntriesDistinct(repo: Repository, es: seq<TreeEntry>, above: seq<string>, depth: nat)
    requires depth <= MAX_TREE_DEPTH && ValidNames(above) && WellFormed(es, repo.format)
    requires FlattenEntries(repo, es, Join(above), depth).Some?
    ensures DistinctPaths(FlattenEntries(repo, es, Join(above), depth).value.blobs)
    decreases Levels(depth), 0, |es|
  {
    hide FlattenEntry, Join, ValidName, IsMode;
    if es != [] {
      var last := |es| - 1;
      EntriesDistinct(repo, es[..last], above, depth);
      EntryDistinct(repo, es[last], above, depth);
      var front := FlattenEntries(repo, es[..last], Join(above), depth).value.blobs;
      var back := FlattenEntry(repo, es[last], Join(above), depth).value.blobs;
      forall i, j | 0 <= i < |front| && 0 <= j < |back| ensures front[i].path != back[j].path {
        var k := ListedEntry(repo, es[..last], Join(above), depth, front[i]);
        var p := EntryPath(repo, es[k], above, depth, front[i]);
        var q := EntryPath(repo, es[last], above, depth, back[j]);
        assert (above + p)[|above|] == p[0] && (above + q)[|above|] == q[0];
        if Join(above + p) == Join(above + q) {
          JoinInjective(above + p, above + q);
        }
      }
    }
  }

  lemma {:induction false} EntryDistinct(repo: Repository, e: TreeEntry, above: seq<string>, depth: nat)
    requires depth <= MAX_TREE_DEPTH && ValidNames(above) && ValidName(e.name)
    requires FlattenEntry(repo, e, Join(above), depth).Some?
    ensures DistinctPaths(FlattenEntry(repo, e, Join(above), depth).value.blobs)
    decreases Levels(depth), 0, 0
  {
    hide FlattenEntries, ReadTree, Join, ValidName, BlobReadable;
    if e.mode == TREE_MODE {
      ExtendIsJoin(above, e.name);
      TreeIsWellFormed(repo, e.objectId);
      EntriesDistinct(repo, ReadTree(repo, e.objectId).value, above + [e.name], depth + 1);
    }
  }

  /** A blob below an entry has that entry's name where its path leaves the tree. */
  lemma EntryPath(repo: Repository, e: TreeEntry, above: seq<string>, depth: nat, b: BlobEntry) returns (parts: seq<string>)
    requires depth <= MAX_TREE_DEPTH && ValidNames(above) && ValidName(e.name)
    requires FlattenEntry(repo, e, Join(above), depth).Some?
    requires b in FlattenEntry(repo, e, Join(above), depth).value.blobs
    ensures parts != [] && parts[0] == e.name && ValidNames(above + parts) && b.path == Join(above + parts)
  {
    hide FlattenEntries, ReadTree, Join, ValidName, BlobReadable, Resolve;
    ExtendIsJoin(above, e.name);
    if e.mode == TREE_MODE {
      var below := ListedIsReached(repo, e.objectId, above + [e.name], depth + 1, b);
      parts := [e.name] + below;
      assert above + [e.name] + below == above + parts;
    } else {
      parts := [e.name];
    }
  }

  /** The part of `_build_verified_commit_snapshot` below the commit object. */
  method BuildVerifiedSnapshot(repo: Repository, rootTreeId: string) returns (r: Result<seq<BlobEntry>, SnapshotError>)
    ensures var flat := Flatten(repo, rootTreeId, "", 0);
            && (r.Ok? <==> flat.Some? && flat.value.entries <= MAX_TREE_ENTRIES && |flat.value.trees| <= MAX_TREE_OBJECTS)
            && (r.Ok? ==> r.value == StableSort(PathLeq, flat.value.blobs))
            && (r.Err? ==> r.error != DuplicatePath)
  {
    hide Flatten, StableSort, ValidName, ReadTree, BlobReadable;
    var walk := new Walk(repo);
    ghost var flat := Flatten(repo, rootTreeId, "", 0);
    assert flat.Some? ==> {} + flat.value.trees == flat.value.trees && [] + flat.value.blobs == flat.value.blobs;
    var error := walk.Visit(rootTreeId, "", 0, []);
    if error.Some? {
      return Err(error.value);
    }
    r := Ok(StableSort(PathLeq, walk.blobs));
  }

  lemma PathLeqIsTotal()
    ensures IsTotalPreorder(PathLeq)
  {
    forall a: BlobEntry, b: BlobEntry ensures PathLeq(a, b) || PathLeq(b, a) {
      LexTotal(a.path, b.path);
    }
    forall a: BlobEntry, b: BlobEntry, c: BlobEntry | PathLeq(a, b) && PathLeq(b, c) ensures PathLeq(a, c) {
      LexTransitive(a.path, b.path, c.path);
    }
  }

  /** A successful snapshot lists exactly the regular files below the root tree, each under the one
      path the component walk finds it at, strictly ascending by path. */
  lemma SnapshotListsExactly(repo: Repository, root: string, b: BlobEntry)
    requires Flatten(repo, root, "", 0).Some?
    ensures var listed := StableSort(PathLeq, Flatten(repo, root, "", 0).value.blobs);
            && IsStrictlySorted(PathLeq, listed)
            && (b in listed <==> RegularMode(b.mode) && exists parts ::
                  Leads(repo, root, parts, b) && ValidNames(parts) && b.path == Join(parts))
  {
    var blobs := Flatten(repo, root, "", 0).value.blobs;
    var listed := StableSort(PathLeq, blobs);
    SnapshotStrictlySorted(repo, root);
    hide Flatten;
    SortSame(PathLeq, blobs);
    if b in blobs {
      var parts := ListedIsReached(repo, root, [], 0, b);
      assert [] + parts == parts;
    }
    if parts :| RegularMode(b.mode) && Leads(repo, root, parts, b) && ValidNames(parts) && b.path == Join(parts) {
      ReachedIsListed(repo, root, [], 0, parts);
      assert [] + parts == parts;
    }
  }

  lemma SnapshotStrictlySorted(repo: Repository, root: string)
    requires Flatten(repo, root, "", 0).Some?
    ensures IsStrictlySorted(PathLeq, StableSort(PathLeq, Flatten(repo, root, "", 0).value.blobs))
  {
    var blobs := Flatten(repo, root, "", 0).value.blobs;
    TreeIsWellFormed(repo, root);
    EntriesDistinct(repo, ReadTree(repo, root).value, [], 0);
    hide Flatten;
    PathLeqIsTotal();
    SortSorted(PathLeq, blobs);
    SortDistinctPaths(blobs);
    var listed := StableSort(PathLeq, blobs);
    forall i, j | 0 <= i < j < |listed| ensures !PathLeq(listed[j], listed[i]) {
      if LexLeq(listed[j].path, listed[i].path) && PathLeq(listed[i], listed[j]) {
        LexAntisymmetric(listed[j].path, listed[i].path);
      }
    }
  }

  lemma SortDistinctPaths(blobs: seq<BlobEntry>)
    requires DistinctPaths(blobs)
    ensures DistinctPaths(StableSort(PathLeq, blobs))
  {
    var s := StableSort(PathLeq, blobs);
    SortDistinct(PathLeq, blobs);
    SortSame(PathLeq, blobs);
    assert Distinct(blobs);
    forall i, j | 0 <= i < j < |s| ensures s[i].path != s[j].path {
      assert s[i] in s && s[j] in s;
      var k :| 0 <= k < |blobs| && blobs[k] == s[i];
      var l :| 0 <= l < |blobs| && blobs[l] == s[j];
    }
  }

  /** The walk by path finds every listed file of at most 128 components; a file one level deeper is
      listed too, but the walk refuses its path, and none lies deeper still. */
  lemma WalkAgreesWithListing(repo: Repository, root: string, b: BlobEntry)
    requires Flatten(repo, root, "", 0).Some? && b in Flatten(repo, root, "", 0).value.blobs
    ensures var found := EntryAtPath(repo, root, b.path);
            if |Split(b.path)| <= MAX_TREE_DEPTH then
              found.Ok? && found.value.mode == b.mode && found.value.objectId == b.objectId
            else found == Err(PathTooDeep) && |Split(b.path)| == MAX_TREE_DEPTH + 1
  {
    hide Flatten, Resolve, Split;
    var parts := ListedIsReached(repo, root, [], 0, b);
    assert [] + parts == parts;
    forall i | 0 <= i < |parts| ensures SlashFree(parts[i]) {
      assert ValidName(parts[i]);
    }
    SplitOfJoin(parts);
  }
}
