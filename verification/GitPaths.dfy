/** Slash-separated paths and their components (library/models.py, library/git_source.py). */
module GitPaths {
  import opened Basics
  import opened GitTree

  predicate SlashFree(s: string) {
    '/' !in s
  }

  /** Where the first slash is; the length of `s` when there is none. */
  function FirstSlash(s: string): (i: nat)
    ensures i <= |s|
    ensures SlashFree(s[..i])
    ensures i < |s| ==> s[i] == '/'
  {
    if s == "" || s[0] == '/' then 0
    else
      var i := 1 + FirstSlash(s[1..]);
      assert s[..i] == [s[0]] + s[1..][..i - 1];
      i
  }

  /** `value.split("/")`. */
  function Split(s: string): (parts: seq<string>)
    ensures parts != []
    decreases |s|
  {
    var i := FirstSlash(s);
    if i == |s| then [s] else [s[..i]] + Split(s[i + 1..])
  }

  function Join(parts: seq<string>): string {
    if parts == [] then ""
    else if |parts| == 1 then parts[0]
    else parts[0] + "/" + Join(parts[1..])
  }

  lemma {:induction false} FirstSlashAfter(head: string, tail: string)
    requires SlashFree(head)
    ensures FirstSlash(head + "/" + tail) == |head|
  {
    if head != "" {
      assert (head + "/" + tail)[1..] == head[1..] + "/" + tail;
      FirstSlashAfter(head[1..], tail);
    }
  }

  lemma FirstSlashNone(s: string)
    requires SlashFree(s)
    ensures FirstSlash(s) == |s|
  {
  }

  /** Splitting at slashes recovers the components that were joined. */
  lemma {:induction false} SplitOfJoin(parts: seq<string>)
    requires parts != [] && forall i :: 0 <= i < |parts| ==> SlashFree(parts[i])
    ensures Split(Join(parts)) == parts
  {
    hide FirstSlash, SlashFree;
    if |parts| == 1 {
      FirstSlashNone(parts[0]);
    } else {
      var head, tail := parts[0], Join(parts[1..]);
      FirstSlashAfter(head, tail);
      SplitOfJoin(parts[1..]);
      var s := head + "/" + tail;
      assert s[..|head|] == head && s[|head| + 1..] == tail;
    }
  }

  /** A path as the traversal extends it: `f"{prefix}/{name}" if prefix else name`. */
  function Extend(prefix: string, name: string): string {
    if prefix == "" then name else prefix + "/" + name
  }

  lemma {:induction false} JoinSnoc(parts: seq<string>, name: string)
    requires forall i :: 0 <= i < |parts| ==> parts[i] != ""
    ensures Join(parts + [name]) == Extend(Join(parts), name)
  {
    if |parts| == 0 {
      assert parts + [name] == [name];
    } else {
      assert (parts + [name])[1..] == parts[1..] + [name];
      JoinSnoc(parts[1..], name);
      if |parts| > 1 {
        assert Join(parts[1..]) != "";
        assert parts[0] + "/" + (Join(parts[1..]) + "/" + name) == (parts[0] + "/" + Join(parts[1..])) + "/" + name;
      } else {
        assert parts[1..] == [];
      }
    }
  }

  /** `validate_relative_git_path`: what remains of a POSIX path after normalisation must be the
      path itself, so no component may be empty, a dot, a parent reference or `.git`. */
  predicate ValidRelativePath(path: string) {
    && path != "" && '\\' !in path && '\0' !in path
    && forall part :: part in Split(path) ==> part !in {"", ".", "..", ".git"}
  }

  /** Components that a chain of tree entries can have. */
  ghost predicate ValidNames(parts: seq<string>) {
    forall i :: 0 <= i < |parts| ==> ValidName(parts[i])
  }

  /** The path of a chain of tree entries is refused exactly for a backslash in a name. */
  lemma ChainPathValid(parts: seq<string>)
    requires ValidNames(parts) && parts != []
    ensures ValidRelativePath(Join(parts)) <==> forall i :: 0 <= i < |parts| ==> '\\' !in parts[i]
  {
    SplitOfJoin(parts);
    JoinCharacters(parts, '\\');
    JoinCharacters(parts, '\0');
    hide Join, Split;
    assert parts[0] in parts;
    assert Join(parts) != "";
  }

  lemma {:induction false} JoinCharacters(parts: seq<string>, c: char)
    requires c != '/'
    ensures c in Join(parts) <==> exists i :: 0 <= i < |parts| && c in parts[i]
  {
    if |parts| > 1 {
      JoinCharacters(parts[1..], c);
      assert parts == [parts[0]] + parts[1..];
      if j :| 0 <= j < |parts[1..]| && c in parts[1..][j] {
        assert c in parts[j + 1];
      }
    }
  }

  /** Distinct chains of entry names have distinct paths. */
  lemma JoinInjective(a: seq<string>, b: seq<string>)
    requires ValidNames(a) && ValidNames(b) && a != [] && b != []
    requires Join(a) == Join(b)
    ensures a == b
  {
    SplitOfJoin(a);
    SplitOfJoin(b);
  }
}
