/**
 * What a snapshot is for: its files can be laid out as one tree even where names are told apart only
 * up to case, and an archive is accepted exactly when its regular members are such files.
 */
module SnapshotTree {
  import opened Basics
  import opened SourcePaths
  import opened Snapshot
  import opened SnapshotArchive

  /* ------------------------------------------------------------------ a namespace is a tree */

  /** What is found under a folded name: a file or a directory, with the name it was given. */
  datatype Node = FileNode(name: string) | DirNode(name: string)

  /** The file is found under its folded path, and every directory above it under its own. */
  predicate Found(u: Unicode, tree: string -> Node, path: string) {
    && tree(Fold(u, path)) == FileNode(path)
    && forall k :: 0 < k < |path| && path[k] == '/' ==> tree(Fold(u, path[..k])) == DirNode(path[..k])
  }

  predicate LaidOut(u: Unicode, files: seq<SourceFile>, tree: string -> Node) {
    forall f <- files :: Found(u, tree, f.path)
  }

  lemma {:induction false} CutFound(u: Unicode, files: seq<SourceFile>, tree: string -> Node, f: SourceFile, a: nat)
    requires LaidOut(u, files, tree) && f in files && a <= |f.path| && Cut(f.path, a)
    ensures tree(Fold(u, f.path[..a])) == if a == |f.path| then FileNode(f.path) else DirNode(f.path[..a])
  {
    assert Found(u, tree, f.path) && f.path[..|f.path|] == f.path;
  }

  lemma {:induction false} NotAbove(u: Unicode, files: seq<SourceFile>, tree: string -> Node, f: SourceFile,
                                    g: SourceFile)
    requires LaidOut(u, files, tree) && f in files && g in files
    ensures !Above(f.path, g.path)
  {
    assert Found(u, tree, f.path);
    if |f.path| < |g.path| && Cut(g.path, |f.path|) {
      CutFound(u, files, tree, g, |f.path|);
    }
  }

  lemma {:induction false} TreeIsNamespace(u: Unicode, files: seq<SourceFile>, tree: string -> Node)
    requires DistinctPaths(files) && LaidOut(u, files, tree)
    ensures Namespace(u, files)
  {
    forall i, j | 0 <= i < |files| && 0 <= j < |files|
      ensures DistinctAt(u, files, i, j)
    {
      assert Found(u, tree, files[i].path) && Found(u, tree, files[j].path);
    }
    forall f, g | f in files && g in files
      ensures SameNames(u, f.path, g.path) && !Above(f.path, g.path)
    {
      forall a, b | 0 <= a <= |f.path| && 0 <= b <= |g.path| && Cut(f.path, a) && Cut(g.path, b)
        ensures Fold(u, f.path[..a]) == Fold(u, g.path[..b]) ==> f.path[..a] == g.path[..b]
      {
        CutFound(u, files, tree, f, a);
        CutFound(u, files, tree, g, b);
        assert f.path[..|f.path|] == f.path && g.path[..|g.path|] == g.path;
      }
      NotAbove(u, files, tree, f, g);
    }
  }

  ghost predicate IsFile(u: Unicode, files: seq<SourceFile>, key: string, path: string) {
    Fold(u, path) == key && exists f <- files :: f.path == path
  }

  ghost predicate IsDir(u: Unicode, files: seq<SourceFile>, key: string, path: string) {
    Fold(u, path) == key && exists f <- files :: Above(path, f.path)
  }

  /** A node for the folded name: the file of that name, or else the directory. */
  ghost function NodeFor(u: Unicode, files: seq<SourceFile>, key: string): Node {
    if exists path :: IsFile(u, files, key, path) then
      var path :| IsFile(u, files, key, path); FileNode(path)
    else if exists path :: IsDir(u, files, key, path) then
      var path :| IsDir(u, files, key, path); DirNode(path)
    else FileNode("")
  }

  lemma {:induction false} CutName(p: string, k: nat)
    requires k <= |p| && Cut(p, k)
    ensures |p[..k]| == k
    ensures k < |p| ==> Above(p[..k], p)
    ensures p[..|p|] == p && Cut(p, |p|)
  {
  }

  /** Two names of a namespace that fold alike are one name. */
  lemma {:induction false} OneName(u: Unicode, files: seq<SourceFile>, f: SourceFile, a: nat, g: SourceFile, b: nat)
    requires Namespace(u, files) && f in files && g in files && a <= |f.path| && b <= |g.path|
    requires Cut(f.path, a) && Cut(g.path, b) && Fold(u, f.path[..a]) == Fold(u, g.path[..b])
    ensures f.path[..a] == g.path[..b]
  {
    assert SameNames(u, f.path, g.path);
  }

  lemma {:induction false} FileNodeFor(u: Unicode, files: seq<SourceFile>, f: SourceFile)
    requires Namespace(u, files) && f in files
    ensures NodeFor(u, files, Fold(u, f.path)) == FileNode(f.path)
  {
    var key := Fold(u, f.path);
    assert IsFile(u, files, key, f.path);
    forall path | IsFile(u, files, key, path)
      ensures path == f.path
    {
      var g :| g in files && g.path == path;
      CutName(f.path, |f.path|);
      CutName(path, |path|);
      OneName(u, files, f, |f.path|, g, |path|);
    }
  }

  lemma {:induction false} DirNodeFor(u: Unicode, files: seq<SourceFile>, f: SourceFile, k: nat)
    requires Namespace(u, files) && f in files && 0 < k < |f.path| && f.path[k] == '/'
    ensures NodeFor(u, files, Fold(u, f.path[..k])) == DirNode(f.path[..k])
  {
    var key := Fold(u, f.path[..k]);
    CutName(f.path, k);
    assert IsDir(u, files, key, f.path[..k]);
    forall path | IsFile(u, files, key, path)
      ensures false
    {
      var g :| g in files && g.path == path;
      CutName(path, |path|);
      OneName(u, files, f, k, g, |path|);
    }
    forall path | IsDir(u, files, key, path)
      ensures path == f.path[..k]
    {
      var g :| g in files && Above(path, g.path);
      OneName(u, files, f, k, g, |path|);
    }
  }

  lemma {:induction false} NamespaceIsTree(u: Unicode, files: seq<SourceFile>)
    requires Namespace(u, files)
    ensures DistinctPaths(files) && exists tree :: LaidOut(u, files, tree)
  {
    SameFoldDifferent(u, files);
    var tree := key => NodeFor(u, files, key);
    forall f | f in files
      ensures Found(u, tree, f.path)
    {
      FileNodeFor(u, files, f);
      forall k | 0 < k < |f.path| && f.path[k] == '/'
        ensures tree(Fold(u, f.path[..k])) == DirNode(f.path[..k])
      {
        DirNodeFor(u, files, f, k);
      }
    }
    assert LaidOut(u, files, tree);
  }

  /** Files are a namespace exactly when their paths differ and one tree under folded names holds them all. */
  lemma {:induction false} NamespaceIff(u: Unicode, files: seq<SourceFile>)
    ensures Namespace(u, files) <==> DistinctPaths(files) && exists tree :: LaidOut(u, files, tree)
  {
    if Namespace(u, files) {
      NamespaceIsTree(u, files);
    }
    forall tree | DistinctPaths(files) && LaidOut(u, files, tree)
      ensures Namespace(u, files)
    {
      TreeIsNamespace(u, files, tree);
    }
  }

  /* ------------------------------------------------------------------ the bounds */

  /** The contents' bytes, counted from the front. */
  function SizeTo(files: seq<SourceFile>, n: nat): nat
    requires n <= |files|
  {
    if n == 0 then 0 else SizeTo(files, n - 1) + |files[n - 1].content|
  }

  lemma {:induction false} TotalIs(files: seq<SourceFile>, n: nat)
    requires n <= |files|
    ensures Total(files[..n]) == SizeTo(files, n)
    decreases n
  {
    if n > 0 {
      TotalIs(files, n - 1);
      assert files[..n][..n - 1] == files[..n - 1];
    }
  }

  /** A canonical path, one of Git's two file modes, at most 4 MiB. */
  ghost predicate Storable(u: Unicode, f: SourceFile) {
    && (exists parts :: PartsOk(u, f.path, parts))
    && (f.mode == 6 * 64 + 4 * 8 + 4 || f.mode == 7 * 64 + 5 * 8 + 5) && |f.content| <= 4194304
  }

  /**
   * A snapshot is one to 4096 such files of at most 32 MiB together, of different paths, that one
   * tree under folded names holds.
   */
  lemma {:induction false} SnapshotIff(u: Unicode, files: seq<SourceFile>)
    ensures SnapshotOk(u, files)
            <==> && 1 <= |files| <= 4096 && SizeTo(files, |files|) <= 33554432
                 && (forall k :: 0 <= k < |files| ==> Storable(u, files[k]))
                 && DistinctPaths(files) && exists tree :: LaidOut(u, files, tree)
  {
    NamespaceIff(u, files);
    TotalIs(files, |files|);
    assert files[..|files|] == files;
    forall k | 0 <= k < |files|
      ensures Storable(u, files[k]) <==> FileOk(u, files[k])
    {
      PathOkIff(u, files[k].path);
    }
    assert FilesOk(u, files) <==> forall k :: 0 <= k < |files| ==> FileOk(u, files[k]);
  }

  /* ------------------------------------------------------------------ the canonical order */

  /** Texts compare character by character, a text before its own extensions. */
  predicate TextBefore(x: string, y: string) {
    if y == "" then false
    else if x == "" then true
    else if x[0] != y[0] then x[0] < y[0]
    else TextBefore(x[1..], y[1..])
  }

  /** Lists of parts compare part by part. */
  predicate PartsBefore(xs: seq<string>, ys: seq<string>) {
    if ys == [] then false
    else if xs == [] then true
    else if xs[0] != ys[0] then TextBefore(xs[0], ys[0])
    else PartsBefore(xs[1..], ys[1..])
  }

  predicate StartsPart(s: string) {
    s == "" || s[0] == '/'
  }

  lemma {:induction false} FirstPart(x: string, y: string, r: string, s: string)
    requires '/' !in x && '/' !in y && StartsPart(r) && StartsPart(s)
    ensures Less(x + r, y + s) <==> if x == y then Less(r, s) else TextBefore(x, y)
    decreases |x|
  {
    if x != "" && y != "" {
      assert x == [x[0]] + x[1..] && y == [y[0]] + y[1..];
      assert (x + r)[1..] == x[1..] + r && (y + s)[1..] == y[1..] + s;
      assert x[0] in x && y[0] in y;
      FirstPart(x[1..], y[1..], r, s);
    } else {
      assert ("" + r == r) && ("" + s == s);
      if y != "" {
        assert (y + s)[0] == y[0] && y[0] in y;
      }
      if x != "" {
        assert (x + r)[0] == x[0] && x[0] in x;
      }
    }
  }

  /** The parts after the first. */
  function PartsAfter(s: string): seq<string> {
    if s == "" then [] else Segments(s[1..])
  }

  lemma {:induction false} FirstAndRest(s: string) returns (first: string, rest: string)
    ensures s == first + rest && '/' !in first && StartsPart(rest) && |rest| <= |s|
    ensures Segments(s) == [first] + PartsAfter(rest)
  {
    first := Before(s, '/');
    rest := s[|first|..];
    if rest != "" {
      assert rest[1..] == s[|first| + 1..];
    } else {
      assert first == s && [first] + PartsAfter(rest) == [s];
    }
  }

  lemma {:induction false} PartsCons(x: string, xs: seq<string>, y: string, ys: seq<string>)
    ensures PartsBefore([x] + xs, [y] + ys) <==> if x == y then PartsBefore(xs, ys) else TextBefore(x, y)
  {
    assert ([x] + xs)[1..] == xs && ([y] + ys)[1..] == ys;
  }

  /** Files are put in the order of the parts of their paths. */
  lemma {:induction false} OrderIff(a: string, b: string)
    ensures Less(a, b) <==> PartsBefore(Segments(a), Segments(b))
    decreases |a| + |b|
  {
    var x, r := FirstAndRest(a);
    var y, s := FirstAndRest(b);
    FirstPart(x, y, r, s);
    PartsCons(x, PartsAfter(r), y, PartsAfter(s));
    if r != "" && s != "" {
      OrderIff(r[1..], s[1..]);
    }
  }

  /* ------------------------------------------------------------------ archives */

  function Slashes(n: nat): string {
    if n == 0 then "" else Slashes(n - 1) + "/"
  }

  lemma {:induction false} StemIs(name: string) returns (n: nat)
    ensures name == WithoutSlashes(name) + Slashes(n)
    ensures WithoutSlashes(name) == "" || WithoutSlashes(name)[|WithoutSlashes(name)| - 1] != '/'
    decreases |name|
  {
    if name != "" && name[|name| - 1] == '/' {
      var m := StemIs(name[..|name| - 1]);
      n := m + 1;
      assert name == name[..|name| - 1] + "/";
    } else {
      n := 0;
    }
  }

  /** The name an archive's member stands for: a directory's without its trailing slashes. */
  predicate Names(m: Member, name: string) {
    if m.kind.Directory?
    then (exists n: nat | n <= |m.name| :: m.name == name + Slashes(n)) && (name == "" || name[|name| - 1] != '/')
    else m.name == name
  }

  lemma {:induction false} SlashesLong(n: nat)
    ensures |Slashes(n)| == n && forall c <- Slashes(n) :: c == '/'
  {
    if n > 0 {
      SlashesLong(n - 1);
    }
  }

  lemma {:induction false} StemOf(stem: string, n: nat)
    requires stem == "" || stem[|stem| - 1] != '/'
    ensures WithoutSlashes(stem + Slashes(n)) == stem
    decreases n
  {
    if n == 0 {
      assert stem + Slashes(n) == stem;
    } else {
      StemOf(stem, n - 1);
      assert (stem + Slashes(n))[..|stem + Slashes(n)| - 1] == stem + Slashes(n - 1);
    }
  }

  lemma {:induction false} NamesIff(m: Member, name: string)
    ensures Names(m, name) <==> name == MemberName(m)
  {
    if m.kind.Directory? {
      var n := StemIs(m.name);
      SlashesLong(n);
      forall k: nat | m.name == name + Slashes(k) && (name == "" || name[|name| - 1] != '/')
        ensures name == MemberName(m)
      {
        StemOf(name, k);
      }
    }
  }

  /** The member may be read: a directory, or a file of the size its header says, with a canonical name. */
  ghost predicate Legible(u: Unicode, m: Member, name: string) {
    && !m.kind.Special? && Names(m, name) && (exists parts :: PartsOk(u, name, parts))
    && (m.kind.Regular? ==>
          && m.size == |m.content| <= 4194304
          && (m.mode == 6 * 64 + 4 * 8 + 4 || m.mode == 7 * 64 + 5 * 8 + 5))
  }

  lemma {:induction false} LegibleIff(u: Unicode, m: Member, name: string)
    ensures Legible(u, m, name) <==> MemberOk(u, m) && name == MemberName(m)
  {
    NamesIff(m, name);
    PathOkIff(u, name);
  }

  /** The files among the first `n` members. */
  function FilesTo(ms: seq<Member>, n: nat): seq<SourceFile>
    requires n <= |ms|
  {
    if n == 0 then [] else
      FilesTo(ms, n - 1)
      + if ms[n - 1].kind.Regular? then [SourceFile(ms[n - 1].name, ms[n - 1].content, ms[n - 1].mode)] else []
  }

  lemma {:induction false} FilesToIs(ms: seq<Member>, n: nat)
    requires n <= |ms|
    ensures FilesOf(ms[..n]) == FilesTo(ms, n)
    decreases n
  {
    if n > 0 {
      FilesToIs(ms, n - 1);
      assert ms[..n][..n - 1] == ms[..n - 1];
    }
  }

  /** The members under their names: each legible, no two names alike when folded. */
  ghost predicate Listing(u: Unicode, ms: seq<Member>, names: seq<string>) {
    && |names| == |ms| && (forall k :: 0 <= k < |ms| ==> Legible(u, ms[k], names[k]))
    && forall j, k :: 0 <= j < k < |ms| ==> Fold(u, names[j]) != Fold(u, names[k])
  }

  lemma {:induction false} ListingIff(u: Unicode, ms: seq<Member>)
    ensures (forall m <- ms :: MemberOk(u, m)) && DistinctMembers(u, ms) <==> exists names :: Listing(u, ms, names)
  {
    if (forall m <- ms :: MemberOk(u, m)) && DistinctMembers(u, ms) {
      var names := seq(|ms|, k requires 0 <= k < |ms| => MemberName(ms[k]));
      forall k | 0 <= k < |ms|
        ensures Legible(u, ms[k], names[k])
      {
        LegibleIff(u, ms[k], names[k]);
      }
      assert Listing(u, ms, names);
    }
    forall names | Listing(u, ms, names)
      ensures (forall m <- ms :: MemberOk(u, m)) && DistinctMembers(u, ms)
    {
      ListedOk(u, ms, names);
    }
  }

  lemma {:induction false} ListedOk(u: Unicode, ms: seq<Member>, names: seq<string>)
    requires Listing(u, ms, names)
    ensures (forall m <- ms :: MemberOk(u, m)) && DistinctMembers(u, ms)
  {
    forall k | 0 <= k < |ms|
      ensures MemberOk(u, ms[k]) && MemberName(ms[k]) == names[k]
    {
      LegibleIff(u, ms[k], names[k]);
    }
  }

  /**
   * An archive is accepted exactly when it has at most 40 MiB and 4096 members, all legible and told
   * apart by their folded names, and its files are a snapshot.
   */
  lemma {:induction false} PayloadIff(u: Unicode, t: Tar, payload: Bytes)
    ensures PayloadOk(u, t, payload)
            <==> && |payload| <= 41943040 && t.unpack(payload).Some?
                 && (var ms := t.unpack(payload).value;
                     && |ms| <= 4096 && (exists names :: Listing(u, ms, names))
                     && SnapshotOk(u, FilesTo(ms, |ms|)))
  {
    if t.unpack(payload).Some? {
      var ms := t.unpack(payload).value;
      ListingIff(u, ms);
      FilesToIs(ms, |ms|);
      assert ms[..|ms|] == ms;
    }
  }

  /** It is written exactly when it has at most 40 MiB. */
  lemma {:induction false} WrittenIff(t: Tar, files: seq<SourceFile>)
    ensures Archive(t, files).Some? <==> |t.pack(Members(Sort(files)))| <= 41943040
    ensures Archive(t, files).Some? ==> Archive(t, files).value == t.pack(Members(Sort(files)))
  {
  }
}
