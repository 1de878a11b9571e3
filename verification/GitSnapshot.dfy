/** The bounded, memoised walk over one commit's trees (library/git_source.py).

    A repository is the map of the objects it can supply: `_read_verified_object` fails for an
    object that is absent, of another type, too large, or whose digest is not its identifier. */
module GitSnapshot {
  import opened Basics
  import opened Utf8
  import opened GitTree
  import opened GitPaths
  import opened Ordering

  const MAX_TREE_BYTES: nat := 64 * 1024 * 1024
  const MAX_TREE_DEPTH: nat := 128
  const MAX_TREE_OBJECTS: nat := 100_000
  const MAX_TREE_ENTRIES: nat := 1_000_000

  datatype GitObject = TreeObject(payload: Bytes) | BlobObject(content: Bytes) | OtherObject

  datatype Repository = Repository(objects: map<string, GitObject>, format: ObjectFormat, maxBlobBytes: nat)

  datatype BlobEntry = BlobEntry(mode: string, objectId: string, path: string)

  datatype SnapshotError =
    | ObjectUnavailable | BadTree(error: TreeError) | TooDeep | TooManyTrees | TooManyEntries
    | InvalidPath | DuplicatePath | UnsupportedMode

  predicate RegularMode(mode: string) {
    mode == "100644" || mode == "100755"
  }

  // ---------------------------------------------------------------- what an identifier denotes

  function ReadTree(repo: Repository, id: string): Result<seq<TreeEntry>, SnapshotError> {
    if id in repo.objects && repo.objects[id].TreeObject? && |repo.objects[id].payload| <= MAX_TREE_BYTES then
      match Parsed(repo.objects[id].payload, repo.format)
      case Ok(entries) => Ok(entries)
      case Err(e) => Err(BadTree(e))
    else Err(ObjectUnavailable)
  }

  predicate BlobReadable(repo: Repository, id: string) {
    id in repo.objects && repo.objects[id].BlobObject? && |repo.objects[id].content| <= repo.maxBlobBytes
  }

  lemma TreeIsWellFormed(repo: Repository, id: string)
    requires ReadTree(repo, id).Ok?
    ensures WellFormed(ReadTree(repo, id).value, repo.format)
  {
    PrintOfParsed(repo.objects[id].payload, repo.format);
  }

  // ---------------------------------------------------------------- plain flattening

  /** What lies below a tree: its blobs in tree order, the entries passed, the trees opened. */
  datatype Flat = Flat(blobs: seq<BlobEntry>, entries: nat, trees: set<string>) {
    function Then(rest: Flat): Flat {
      Flat(blobs + rest.blobs, entries + rest.entries, trees + rest.trees)
    }
  }

  function Levels(depth: nat): nat {
    if depth > MAX_TREE_DEPTH then 0 else MAX_TREE_DEPTH + 1 - depth
  }

  /** Flattening without cache or counters; undefined where some object below is unusable. */
  function Flatten(repo: Repository, id: string, prefix: string, depth: nat): Option<Flat>
    decreases Levels(depth), 1, 0
  {
    if depth > MAX_TREE_DEPTH || ReadTree(repo, id).Err? then None
    else
      match FlattenEntries(repo, ReadTree(repo, id).value, prefix, depth)
      case None => None
      case Some(f) => Some(f.(trees := f.trees + {id}))
  }

  function FlattenEntries(repo: Repository, es: seq<TreeEntry>, prefix: string, depth: nat): Option<Flat>
    requires depth <= MAX_TREE_DEPTH
    decreases Levels(depth), 0, |es|
  {
    if es == [] then Some(Flat([], 0, {}))
    else
      var last := |es| - 1;
      match FlattenEntries(repo, es[..last], prefix, depth)
      case None => None
      case Some(front) =>
        match FlattenEntry(repo, es[last], prefix, depth)
        case None => None
        case Some(f) => Some(front.Then(f))
  }

  function FlattenEntry(repo: Repository, e: TreeEntry, prefix: string, depth: nat): Option<Flat>
    requires depth <= MAX_TREE_DEPTH
    decreases Levels(depth), 0, 0
  {
    var path := Extend(prefix, e.name);
    if !ValidRelativePath(path) then None
    else if e.mode == TREE_MODE then
      match Flatten(repo, e.objectId, path, depth + 1)
      case None => None
      case Some(f) => Some(f.(entries := f.entries + 1))
    else if RegularMode(e.mode) && BlobReadable(repo, e.objectId) then
      Some(Flat([BlobEntry(e.mode, e.objectId, path)], 1, {}))
    else None
  }

  lemma ThenExtends(blobs: seq<BlobEntry>, keys: set<string>, front: Option<Flat>, f: Option<Flat>)
    ensures front.Some? && f.Some? ==>
              && blobs + front.value.blobs + f.value.blobs == blobs + front.value.Then(f.value).blobs
              && keys + front.value.trees + f.value.trees == keys + front.value.Then(f.value).trees
  {
  }

  lemma FlattenStep(repo: Repository, es: seq<TreeEntry>, prefix: string, depth: nat, i: nat)
    requires depth <= MAX_TREE_DEPTH && i < |es|
    ensures var front := FlattenEntries(repo, es[..i], prefix, depth);
            var f := FlattenEntry(repo, es[i], prefix, depth);
            FlattenEntries(repo, es[..i + 1], prefix, depth) ==
              if front.Some? && f.Some? then Some(front.value.Then(f.value)) else None
  {
    assert es[..i + 1][..i] == es[..i];
  }

  /** What the first entries contribute is part of what all of them do. */
  lemma {:induction false} FlattenPrefix(repo: Repository, es: seq<TreeEntry>, prefix: string, depth: nat, i: nat)
    requires depth <= MAX_TREE_DEPTH && i <= |es|
    requires FlattenEntries(repo, es, prefix, depth).Some?
    ensures var part := FlattenEntries(repo, es[..i], prefix, depth);
            var all := FlattenEntries(repo, es, prefix, depth).value;
            part.Some? && part.value.entries <= all.entries && part.value.trees <= all.trees
  {
    if i == |es| {
      assert es[..i] == es;
    } else {
      assert es[..|es| - 1][..i] == es[..i];
      FlattenPrefix(repo, es[..|es| - 1], prefix, depth, i);
    }
  }

  // ---------------------------------------------------------------- the walk

  /** The local state of `_build_verified_commit_snapshot`. */
  class Walk {
    const repo: Repository
    var treeCache: map<string, seq<TreeEntry>>
    var verifiedBlobs: set<string>
    var blobs: seq<BlobEntry>
    var observedPaths: set<string>
    var traversedEntries: nat
    /** The observed paths as chains of entry names. */
    ghost var observed: set<seq<string>>

    constructor (repo: Repository)
      ensures Valid() && this.repo == repo
      ensures treeCache == map[] && blobs == [] && traversedEntries == 0 && observed == {}
    {
      this.repo := repo;
      treeCache, verifiedBlobs, blobs := map[], {}, [];
      observedPaths, traversedEntries, observed := {}, 0, {};
    }

    ghost predicate Valid()
      reads this
    {
      && (forall id :: id in treeCache ==> ReadTree(repo, id) == Ok(treeCache[id]))
      && (forall id :: id in verifiedBlobs ==> BlobReadable(repo, id))
      && (forall c :: c in observed ==> c != [] && ValidNames(c))
      && (forall p :: p in observedPaths ==> exists c :: c in observed && Join(c) == p)
    }

    /** The counters' bounds, which a raised error may leave exceeded. */
    ghost predicate Within()
      reads this
    {
      traversedEntries <= MAX_TREE_ENTRIES && |treeCache.Keys| <= MAX_TREE_OBJECTS
    }

    method LoadTree(id: string) returns (r: Result<seq<TreeEntry>, SnapshotError>)
      requires Valid() && Within()
      modifies this`treeCache
      ensures Valid()
      ensures r.Ok? ==> Within() && ReadTree(repo, id) == r && treeCache.Keys == old(treeCache.Keys) + {id}
      ensures r.Err? ==> treeCache == old(treeCache) && r.error != DuplicatePath
      ensures r.Err? ==> ReadTree(repo, id).Err? || |old(treeCache.Keys) + {id}| > MAX_TREE_OBJECTS
    {
      hide ReadTree, ValidName;
      if id !in treeCache {
        if |treeCache| >= MAX_TREE_OBJECTS {
          assert |treeCache.Keys + {id}| == |treeCache.Keys| + 1;
          return Err(TooManyTrees);
        }
        var entries := ReadTree(repo, id);
        if entries.Err? {
          ReadTreeError(repo, id);
          return entries;
        }
        treeCache := treeCache[id := entries.value];
        assert treeCache.Keys == old(treeCache.Keys) + {id};
      }
      assert old(treeCache.Keys) + {id} == treeCache.Keys;
      r := Ok(treeCache[id]);
    }

    /** What a call that raised says about the plain flattening `f` of what it was asked to walk:
        if that is defined at all, a counter had to overflow. */
    twostate predicate Refused(new f: Option<Flat>)
      reads this
    {
      f.Some? ==> old(traversedEntries) + f.value.entries > MAX_TREE_ENTRIES
                  || |old(treeCache.Keys) + f.value.trees| > MAX_TREE_OBJECTS
    }

    /** What a call that returned did: exactly what plain flattening says. */
    twostate predicate Walked(new f: Option<Flat>)
      reads this
    {
      && f.Some?
      && blobs == old(blobs) + f.value.blobs
      && traversedEntries == old(traversedEntries) + f.value.entries
      && treeCache.Keys == old(treeCache.Keys) + f.value.trees
    }

    /** The closure `visit`. */
    method Visit(treeId: string, prefix: string, depth: nat, ghost parts: seq<string>)
        returns (error: Option<SnapshotError>)
      requires Valid() && Within()
      requires prefix == Join(parts) && ValidNames(parts) && |parts| == depth
      requires forall c :: c in observed ==> !(parts < c)
      modifies this
      ensures Valid() && old(observed) <= observed
      ensures forall c :: c in observed - old(observed) ==> parts < c
      ensures error.None? ==> Within() && Walked(Flatten(repo, treeId, prefix, depth))
      ensures error.Some? ==> error.value != DuplicatePath && Refused(Flatten(repo, treeId, prefix, depth))
      decreases Levels(depth), 1, 0
    {
      hide FlattenEntries, ReadTree, ValidName, Join, Levels, Walk.Valid;
      if depth > MAX_TREE_DEPTH {
        return Some(TooDeep);
      }
      ghost var f := Flatten(repo, treeId, prefix, depth);
      ghost var keys := treeCache.Keys;
      var loaded := LoadTree(treeId);
      if loaded.Err? {
        if f.Some? {
          MoreTrees(keys, {treeId}, f.value.trees);
        }
        return Some(loaded.error);
      }
      TreeIsWellFormed(repo, treeId);
      error := VisitEntries(loaded.value, prefix, depth, parts);
      if f.Some? {
        ghost var below := FlattenEntries(repo, loaded.value, prefix, depth).value;
        assert keys + {treeId} + below.trees == keys + f.value.trees;
      }
    }

    method VisitEntries(entries: seq<TreeEntry>, prefix: string, depth: nat, ghost parts: seq<string>)
        returns (error: Option<SnapshotError>)
      requires Valid() && Within() && depth <= MAX_TREE_DEPTH
      requires WellFormed(entries, repo.format)
      requires prefix == Join(parts) && ValidNames(parts) && |parts| == depth
      requires forall c :: c in observed ==> !(parts < c)
      modifies this
      ensures Valid() && old(observed) <= observed
      ensures forall c :: c in observed - old(observed) ==> parts < c
      ensures error.None? ==> Within() && Walked(FlattenEntries(repo, entries, prefix, depth))
      ensures error.Some? ==> error.value != DuplicatePath && Refused(FlattenEntries(repo, entries, prefix, depth))
      decreases Levels(depth), 0, 1
    {
      hide FlattenEntries, FlattenEntry, ReadTree, ValidName, Join, BlobReadable, Walk.Valid, Levels;
      FlattenNothing(repo, entries, prefix, depth);
      for i := 0 to |entries|
        invariant Valid() && Within() && old(observed) <= observed
        invariant NewBelow(entries, i, parts, old(observed), observed)
        invariant Walked(FlattenEntries(repo, entries[..i], prefix, depth))
      {
        NotYetObserved(entries, i, parts, old(observed), observed);
        FlattenStep(repo, entries, prefix, depth, i);
        ThenExtends(old(blobs), old(treeCache.Keys), FlattenEntries(repo, entries[..i], prefix, depth),
          FlattenEntry(repo, entries[i], prefix, depth));
        ghost var before := observed;
        error := VisitEntry(entries[i], prefix, depth, parts);
        ObservedStep(entries, i, parts, old(observed), before, observed);
        if error.Some? {
          RefusedStep(repo, entries, prefix, depth, i, old(treeCache.Keys));
          return;
        }
      }
      assert entries[..|entries|] == entries;
      error := None;
    }

    method VisitEntry(e: TreeEntry, prefix: string, depth: nat, ghost parts: seq<string>)
        returns (error: Option<SnapshotError>)
      requires Valid() && Within() && depth <= MAX_TREE_DEPTH
      requires prefix == Join(parts) && ValidNames(parts) && |parts| == depth && ValidName(e.name)
      requires forall c :: c in observed ==> !(parts + [e.name] <= c)
      modifies this
      ensures Valid() && old(observed) <= observed
      ensures forall c :: c in observed - old(observed) ==> parts + [e.name] <= c
      ensures error.None? ==> Within() && Walked(FlattenEntry(repo, e, prefix, depth))
      ensures error.Some? ==> error.value != DuplicatePath && Refused(FlattenEntry(repo, e, prefix, depth))
      decreases Levels(depth), 0, 0
    {
      hide Flatten, ValidName, Join, BlobReadable, Extend, ReadTree, Walk.Valid, ValidRelativePath, RegularMode;
      assert old(treeCache.Keys) + {} == old(treeCache.Keys);
      var counted := CountEntry();
      if !counted {
        return Some(TooManyEntries);
      }
      var path := Extend(prefix, e.name);
      if !ValidRelativePath(path) {
        return Some(InvalidPath);
      }
      error := Observe(path, parts, e.name);
      if error.Some? {
        return;
      }
      if e.mode == TREE_MODE {
        ghost var chain := parts + [e.name];
        ghost var before := observed;
        error := Visit(e.objectId, path, depth + 1, chain);
        NewBelowChain(chain, old(observed), before, observed);
        return;
      }
      if !RegularMode(e.mode) {
        return Some(UnsupportedMode);
      }
      error := VisitBlob(e, path);
    }

    method CountEntry() returns (ok: bool)
      requires Valid()
      modifies this`traversedEntries
      ensures Valid() && traversedEntries == old(traversedEntries) + 1
      ensures ok <==> traversedEntries <= MAX_TREE_ENTRIES
    {
      hide ValidName, Join, BlobReadable, ReadTree;
      traversedEntries := traversedEntries + 1;
      ok := traversedEntries <= MAX_TREE_ENTRIES;
    }

    /** The duplicate-path check, which never fires. */
    method Observe(path: string, ghost parts: seq<string>, ghost name: string) returns (error: Option<SnapshotError>)
      requires Valid() && ValidNames(parts) && ValidName(name) && path == Extend(Join(parts), name)
      requires parts + [name] !in observed
      modifies this`observedPaths, this`observed
      ensures Valid() && error.None?
      ensures observed == old(observed) + {parts + [name]} && ValidNames(parts + [name])
      ensures path == Join(parts + [name])
    {
      hide ValidName, Join, BlobReadable, Extend, ReadTree;
      FreshPath(parts, name, observed, observedPaths);
      if path in observedPaths {
        return Some(DuplicatePath);
      }
      observedPaths := observedPaths + {path};
      observed := observed + {parts + [name]};
      error := None;
    }

    method VisitBlob(e: TreeEntry, path: string) returns (error: Option<SnapshotError>)
      requires Valid()
      modifies this`verifiedBlobs, this`blobs
      ensures Valid()
      ensures error.None? <==> BlobReadable(repo, e.objectId)
      ensures error.None? ==> blobs == old(blobs) + [BlobEntry(e.mode, e.objectId, path)]
      ensures error.Some? ==> error.value != DuplicatePath
    {
      if e.objectId !in verifiedBlobs {
        if !BlobReadable(repo, e.objectId) {
          return Some(ObjectUnavailable);
        }
        verifiedBlobs := verifiedBlobs + {e.objectId};
      }
      blobs := blobs + [BlobEntry(e.mode, e.objectId, path)];
      error := None;
    }
  }

  /** When the entry at `i` overflows a counter, all the entries together do. */
  lemma RefusedStep(repo: Repository, es: seq<TreeEntry>, prefix: string, depth: nat, i: nat, keys: set<string>)
    requires depth <= MAX_TREE_DEPTH && i < |es|
    requires FlattenEntries(repo, es[..i], prefix, depth).Some?
    ensures FlattenEntries(repo, es, prefix, depth).Some? ==>
              var front := FlattenEntries(repo, es[..i], prefix, depth).value;
              var f := FlattenEntry(repo, es[i], prefix, depth);
              var all := FlattenEntries(repo, es, prefix, depth).value;
              && f.Some? && front.entries + f.value.entries <= all.entries
              && |keys + front.trees + f.value.trees| <= |keys + all.trees|
  {
    if FlattenEntries(repo, es, prefix, depth).Some? {
      FlattenPrefix(repo, es, prefix, depth, i + 1);
      FlattenStep(repo, es, prefix, depth, i);
      var front := FlattenEntries(repo, es[..i], prefix, depth).value;
      var f := FlattenEntry(repo, es[i], prefix, depth).value;
      var all := FlattenEntries(repo, es, prefix, depth).value;
      assert keys + front.trees + f.trees == keys + (front.trees + f.trees);
      MoreTrees(keys, front.trees + f.trees, all.trees);
    }
  }

  lemma FlattenNothing(repo: Repository, es: seq<TreeEntry>, prefix: string, depth: nat)
    requires depth <= MAX_TREE_DEPTH
    ensures FlattenEntries(repo, es[..0], prefix, depth) == Some(Flat([], 0, {}))
  {
  }

  /** Names are unique in a tree, so the next entry's chain and what lies below it are new. */
  lemma NotYetObserved(es: seq<TreeEntry>, i: nat, parts: seq<string>, before: set<seq<string>>, now: set<seq<string>>)
    requires i < |es| && forall j, k :: 0 <= j < k < |es| ==> es[j].name != es[k].name
    requires forall c :: c in before ==> !(parts < c)
    requires NewBelow(es, i, parts, before, now)
    ensures forall c :: c in now ==> !(parts + [es[i].name] <= c)
  {
    var chain := parts + [es[i].name];
    assert parts < chain && chain[|parts|] == es[i].name;
    forall c | c in now ensures !(chain <= c) {
      if c in before {
        assert !(parts < c);
      } else {
        assert c in now - before;
        var j :| 0 <= j < i && es[j].name == c[|parts|];
        assert chain[|parts|] != c[|parts|];
      }
    }
  }

  /** What was observed since `before` lies below the first `i` entries. */
  ghost predicate NewBelow(es: seq<TreeEntry>, i: nat, parts: seq<string>, before: set<seq<string>>, now: set<seq<string>>)
    requires i <= |es|
  {
    forall c :: c in now - before ==> parts < c && Before(es, i, c[|parts|])
  }

  lemma ObservedStep(es: seq<TreeEntry>, i: nat, parts: seq<string>, before: set<seq<string>>,
                     mid: set<seq<string>>, now: set<seq<string>>)
    requires i < |es| && NewBelow(es, i, parts, before, mid)
    requires forall c :: c in now - mid ==> parts + [es[i].name] <= c
    ensures NewBelow(es, i + 1, parts, before, now)
    ensures forall c :: c in now - before ==> parts < c
  {
    forall c | c in now - before ensures parts < c && Before(es, i + 1, c[|parts|]) {
      if c in mid {
        assert c in mid - before && Before(es, i, c[|parts|]);
      } else {
        assert c in now - mid;
        ChainBelow(parts, es[i].name, c);
      }
    }
  }

  lemma NewBelowChain(chain: seq<string>, before: set<seq<string>>, mid: set<seq<string>>, now: set<seq<string>>)
    requires mid == before + {chain} && forall c :: c in now - mid ==> chain < c
    ensures forall c :: c in now - before ==> chain <= c
  {
    forall c | c in now - before ensures chain <= c {
      if c !in mid {
        assert c in now - mid;
      }
    }
  }

  lemma ChainBelow(parts: seq<string>, name: string, c: seq<string>)
    requires parts + [name] <= c
    ensures parts < c && c[|parts|] == name
  {
    assert (parts + [name])[|parts|] == name;
  }

  /** A chain of names that was not observed has a path that was not observed. */
  lemma FreshPath(parts: seq<string>, name: string, observed: set<seq<string>>, observedPaths: set<string>)
    requires ValidNames(parts) && ValidName(name) && parts + [name] !in observed
    requires forall c :: c in observed ==> c != [] && ValidNames(c)
    requires forall p :: p in observedPaths ==> exists c :: c in observed && Join(c) == p
    ensures ValidNames(parts + [name]) && Join(parts + [name]) == Extend(Join(parts), name)
    ensures Join(parts + [name]) !in observedPaths
  {
    JoinSnoc(parts, name);
    forall c | c in observed && Join(c) == Join(parts + [name]) ensures c == parts + [name] {
      JoinInjective(c, parts + [name]);
    }
  }

  lemma MoreTrees(keys: set<string>, a: set<string>, b: set<string>)
    requires a <= b
    ensures |keys + a| <= |keys + b|
  {
    SubsetSize(keys + a, keys + b);
  }

  lemma SubsetSize<T>(a: set<T>, b: set<T>)
    requires a <= b
    ensures |a| <= |b|
  {
    assert b == a + (b - a);
  }

  lemma ReadTreeError(repo: Repository, id: string)
    ensures ReadTree(repo, id).Err? ==> ReadTree(repo, id).error != DuplicatePath
  {
  }

  /** `name` is the name of one of the first `i` entries. */
  ghost predicate Before(entries: seq<TreeEntry>, i: nat, name: string)
    requires i <= |entries|
  {
    exists j :: 0 <= j < i && entries[j].name == name
  }
}
