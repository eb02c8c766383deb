/** The source snapshot: which file sets are a namespace, their canonical order, archive and tree digest. */
module Snapshot {
  import opened Basics
  import opened SourcePaths

  const MAX_ARCHIVE_BYTES: nat := 40 * 1024 * 1024
  const MAX_SOURCE_BYTES: nat := 32 * 1024 * 1024
  const MAX_FILE_BYTES: nat := 4 * 1024 * 1024
  const MAX_MEMBERS: nat := 4096

  const PLAIN_MODE: nat := 0x1a4 // octal 644
  const EXECUTABLE_MODE: nat := 0x1ed // octal 755

  datatype SourceFile = SourceFile(path: string, content: Bytes, mode: nat)

  predicate FileOk(u: Unicode, f: SourceFile) {
    PathOk(u, f.path) && (f.mode == PLAIN_MODE || f.mode == EXECUTABLE_MODE) && |f.content| <= MAX_FILE_BYTES
  }

  predicate FilesOk(u: Unicode, files: seq<SourceFile>) {
    forall f <- files :: FileOk(u, f)
  }

  function Total(files: seq<SourceFile>): nat {
    if files == [] then 0 else Total(files[..|files| - 1]) + |files[|files| - 1].content|
  }

  predicate DistinctAt(u: Unicode, files: seq<SourceFile>, i: nat, j: nat)
    requires i < |files| && j < |files|
  {
    i != j ==> Fold(u, files[i].path) != Fold(u, files[j].path)
  }

  /** Folding is injective on the prefixes of the two paths. */
  predicate SameNames(u: Unicode, p: string, q: string) {
    forall a, b | 0 <= a <= |p| && 0 <= b <= |q| && Cut(p, a) && Cut(q, b) ::
      Fold(u, p[..a]) == Fold(u, q[..b]) ==> p[..a] == q[..b]
  }

  /**
   * The files form one namespace on every platform: no path, and no directory, differs only in case;
   * no file is a directory.
   */
  predicate Namespace(u: Unicode, files: seq<SourceFile>) {
    && (forall i, j :: 0 <= i < |files| && 0 <= j < |files| ==> DistinctAt(u, files, i, j))
    && (forall f, g :: f in files && g in files ==> SameNames(u, f.path, g.path))
    && (forall f, g :: f in files && g in files ==> !Above(f.path, g.path))
  }

  predicate SnapshotOk(u: Unicode, files: seq<SourceFile>) {
    && FilesOk(u, files)
    && 0 < |files| <= MAX_MEMBERS && Total(files) <= MAX_SOURCE_BYTES
    && Namespace(u, files)
  }

  /* ------------------------------------------------------------------ the constructor's loops */

  method SumContents(files: seq<SourceFile>) returns (total: nat)
    ensures total == Total(files)
  {
    total := 0;
    var i := 0;
    while i < |files|
      invariant 0 <= i <= |files| && total == Total(files[..i])
    {
      assert files[..i + 1][..i] == files[..i];
      total := total + |files[i].content|;
      i := i + 1;
    }
    assert files[..i] == files;
  }

  /** The folded paths, when no two are equal. */
  method FoldPaths(u: Unicode, files: seq<SourceFile>) returns (names: set<string>, distinct: bool)
    ensures distinct <==> forall i, j :: 0 <= i < |files| && 0 <= j < |files| ==> DistinctAt(u, files, i, j)
    ensures distinct ==> forall n :: n in names <==> exists f <- files :: Fold(u, f.path) == n
  {
    names := {};
    var i := 0;
    while i < |files|
      invariant 0 <= i <= |files|
      invariant forall n :: n in names <==> exists k :: 0 <= k < i && Fold(u, files[k].path) == n
      invariant forall j, k :: 0 <= j < i && 0 <= k < i ==> DistinctAt(u, files, j, k)
    {
      var name := Fold(u, files[i].path);
      if name in names {
        var k :| 0 <= k < i && Fold(u, files[k].path) == name;
        assert !DistinctAt(u, files, i, k);
        return names, false;
      }
      names := names + {name};
      i := i + 1;
    }
    return names, true;
  }

  /** The last slash that has something before it, or 0. */
  function LastSlash(p: string, n: nat): (k: nat)
    requires n <= |p|
    ensures k == 0 || (k < n && p[k] == '/')
    ensures forall i :: k < i < n ==> p[i] != '/'
  {
    if n <= 1 then 0 else if p[n - 1] == '/' then n - 1 else LastSlash(p, n - 1)
  }

  /** A path and the directories above it, nearest first: `(path, *path.parents)` without the root. */
  function Ancestry(p: string): (names: seq<string>)
    ensures |names| >= 1
    decreases |p|
  {
    var k := LastSlash(p, |p|);
    if k == 0 then [p] else [p] + Ancestry(p[..k])
  }

  lemma {:induction false} AncestryCuts(p: string, name: string)
    ensures name in Ancestry(p) <==> |name| <= |p| && Cut(p, |name|) && p[..|name|] == name
    decreases |p|
  {
    var k := LastSlash(p, |p|);
    assert p[..|p|] == p;
    if k > 0 {
      AncestryCuts(p[..k], name);
      if |name| <= k {
        assert p[..k][..|name|] == p[..|name|];
      }
    }
  }

  function AllNames(files: seq<SourceFile>): seq<string> {
    if files == [] then [] else AllNames(files[..|files| - 1]) + Ancestry(files[|files| - 1].path)
  }

  lemma {:induction false} AllNamesOf(files: seq<SourceFile>, name: string)
    ensures name in AllNames(files) <==> exists f <- files :: name in Ancestry(f.path)
    decreases |files|
  {
    if files != [] {
      AllNamesOf(files[..|files| - 1], name);
      assert files == files[..|files| - 1] + [files[|files| - 1]];
    }
  }

  /** No two different names fold alike. */
  predicate Consistent(u: Unicode, names: seq<string>) {
    forall a, b :: a in names && b in names && Fold(u, a) == Fold(u, b) ==> a == b
  }

  /** The dictionary maps each name's fold to the name, and nothing else. */
  predicate Recorded(u: Unicode, names: seq<string>, namespace: map<string, string>) {
    && (forall n <- names :: Fold(u, n) in namespace && namespace[Fold(u, n)] == n)
    && (forall f <- namespace :: namespace[f] in names && Fold(u, namespace[f]) == f)
  }

  lemma {:induction false} ConsistentIsSameNames(u: Unicode, files: seq<SourceFile>)
    ensures Consistent(u, AllNames(files)) <==> forall f, g :: f in files && g in files ==> SameNames(u, f.path, g.path)
  {
    if Consistent(u, AllNames(files)) {
      forall f, g | f in files && g in files
        ensures SameNames(u, f.path, g.path)
      {
        forall a, b | 0 <= a <= |f.path| && 0 <= b <= |g.path| && Cut(f.path, a) && Cut(g.path, b)
        && Fold(u, f.path[..a]) == Fold(u, g.path[..b])
          ensures f.path[..a] == g.path[..b]
        {
          AncestryCuts(f.path, f.path[..a]);
          AncestryCuts(g.path, g.path[..b]);
          AllNamesOf(files, f.path[..a]);
          AllNamesOf(files, g.path[..b]);
        }
      }
    }
    if forall f, g :: f in files && g in files ==> SameNames(u, f.path, g.path) {
      forall a, b | a in AllNames(files) && b in AllNames(files) && Fold(u, a) == Fold(u, b)
        ensures a == b
      {
        AllNamesOf(files, a);
        AllNamesOf(files, b);
        var f :| f in files && a in Ancestry(f.path);
        var g :| g in files && b in Ancestry(g.path);
        AncestryCuts(f.path, a);
        AncestryCuts(g.path, b);
        assert SameNames(u, f.path, g.path);
      }
    }
  }

  /** `setdefault` of one path's names; refused at a name that folds like another. */
  method RecordNames(u: Unicode, known: map<string, string>, ghost names: seq<string>, parts: seq<string>)
    returns (namespace: map<string, string>, ok: bool)
    requires Recorded(u, names, known)
    ensures ok ==> Recorded(u, names + parts, namespace)
    ensures !ok ==> !Consistent(u, names + parts)
  {
    namespace := known;
    var k := 0;
    assert names + parts[..0] == names;
    while k < |parts|
      invariant 0 <= k <= |parts| && Recorded(u, names + parts[..k], namespace)
    {
      var folded := Fold(u, parts[k]);
      if folded in namespace && namespace[folded] != parts[k] {
        assert namespace[folded] in names + parts[..k];
        return namespace, false;
      }
      assert names + parts[..k + 1] == names + parts[..k] + [parts[k]];
      namespace := namespace[folded := parts[k]];
      k := k + 1;
    }
    assert parts[..k] == parts;
    return namespace, true;
  }

  lemma {:induction false} InconsistentGrows(u: Unicode, files: seq<SourceFile>, n: nat)
    requires n <= |files| && !Consistent(u, AllNames(files[..n]))
    ensures !Consistent(u, AllNames(files))
    decreases |files| - n
  {
    if n < |files| {
      assert files[..n + 1][..n] == files[..n];
      InconsistentGrows(u, files, n + 1);
    } else {
      assert files[..n] == files;
    }
  }

  method FillNamespace(u: Unicode, files: seq<SourceFile>) returns (ok: bool)
    ensures ok <==> forall f, g :: f in files && g in files ==> SameNames(u, f.path, g.path)
  {
    var namespace: map<string, string> := map[];
    ConsistentIsSameNames(u, files);
    var i := 0;
    while i < |files|
      invariant 0 <= i <= |files| && Recorded(u, AllNames(files[..i]), namespace)
    {
      assert files[..i + 1][..i] == files[..i];
      namespace, ok := RecordNames(u, namespace, AllNames(files[..i]), Ancestry(files[i].path));
      if !ok {
        InconsistentGrows(u, files, i + 1);
        return false;
      }
      i := i + 1;
    }
    assert files[..i] == files;
    return true;
  }

  /** On folded names the code finds exactly a file above another. */
  lemma {:induction false} FoldedAbove(u: Unicode, files: seq<SourceFile>, f: SourceFile, k: nat)
    returns (g: SourceFile)
    requires Lawful(u) && f in files
    requires forall f, g :: f in files && g in files ==> SameNames(u, f.path, g.path)
    requires k < |Fold(u, f.path)| && Cut(Fold(u, f.path), k)
    requires exists g <- files :: Fold(u, g.path) == Fold(u, f.path)[..k]
    ensures g in files && Above(g.path, f.path)
  {
    g :| g in files && Fold(u, g.path) == Fold(u, f.path)[..k];
    var j := CutOfFold(u, f.path, k);
    assert g.path[..|g.path|] == g.path;
    assert SameNames(u, g.path, f.path);
  }

  method NoFileAbove(u: Unicode, files: seq<SourceFile>, names: set<string>) returns (ok: bool)
    requires Lawful(u) && forall f, g :: f in files && g in files ==> SameNames(u, f.path, g.path)
    requires forall n :: n in names <==> exists f <- files :: Fold(u, f.path) == n
    ensures ok <==> forall f, g :: f in files && g in files ==> !Above(f.path, g.path)
  {
    var i := 0;
    while i < |files|
      invariant 0 <= i <= |files|
      invariant forall f, k :: f in files && 0 <= k < i ==> !Above(f.path, files[k].path)
    {
      var name := Fold(u, files[i].path);
      var k := 0;
      while k < |name|
        invariant 0 <= k <= |name|
        invariant forall m :: 0 <= m < k && Cut(name, m) ==> name[..m] !in names
      {
        if Cut(name, k) && name[..k] in names {
          ghost var g := FoldedAbove(u, files, files[i], k);
          return false;
        }
        k := k + 1;
      }
      forall f | f in files
        ensures !Above(f.path, files[i].path)
      {
        if Above(f.path, files[i].path) {
          FoldOfCut(u, files[i].path, |f.path|);
        }
      }
      i := i + 1;
    }
    return true;
  }

  /** `SourceSnapshot(files)`: refused exactly when the files are no bounded namespace. */
  method Construct(u: Unicode, files: seq<SourceFile>) returns (ok: bool)
    requires Lawful(u) && FilesOk(u, files)
    ensures ok <==> SnapshotOk(u, files)
  {
    if files == [] || |files| > MAX_MEMBERS {
      return false;
    }
    var total := SumContents(files);
    if total > MAX_SOURCE_BYTES {
      return false;
    }
    var names, distinct := FoldPaths(u, files);
    if !distinct {
      return false;
    }
    var consistent := FillNamespace(u, files);
    if !consistent {
      return false;
    }
    ok := NoFileAbove(u, files, names);
  }
}
