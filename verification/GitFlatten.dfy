/** The level-order walk against the recursive meaning of a commit's tree. */
module GitFlatten {
  import opened Basics
  import opened SourcePaths
  import opened GitFraming
  import opened Snapshot
  import opened GitWalk

  /** No two objects have one address. */
  ghost predicate CollisionFree(address: Address) {
    forall k1, c1, k2, c2 :: address(k1, c1) == address(k2, c2) ==> k1 == k2 && c1 == c2
  }

  ghost predicate Exists(address: Address, kind: string, oid: string) {
    exists c :: address(kind, c) == oid
  }

  /** The object that an address names. */
  ghost function Resolve(address: Address, kind: string, oid: string): (c: Bytes)
    requires Exists(address, kind, oid)
    ensures address(kind, c) == oid
  {
    var c :| address(kind, c) == oid;
    c
  }

  lemma {:induction false} Resolves(address: Address, kind: string, c: Bytes)
    requires CollisionFree(address)
    ensures Exists(address, kind, address(kind, c)) && Resolve(address, kind, address(kind, c)) == c
  {
  }

  /** The entries of the tree named `oid`. */
  ghost function TreeOf(address: Address, oid: string): Option<seq<RawEntry>> {
    if Exists(address, "tree", oid) then ParseTree(Resolve(address, "tree", oid)) else None
  }

  /** The tree named `oid` exists, at most `depth` levels deep, with every subtree. */
  ghost predicate Whole(address: Address, oid: string, depth: nat)
    decreases depth, 0, 0
  {
    depth > 0 && TreeOf(address, oid).Some? && WholeEntries(address, TreeOf(address, oid).value, depth - 1)
  }

  ghost predicate WholeEntries(address: Address, es: seq<RawEntry>, depth: nat)
    decreases depth, 1, |es|
  {
    es != [] ==>
      (es[0].mode == DIRECTORY_MODE ==> Whole(address, Hex(es[0].id), depth)) && WholeEntries(address, es[1..], depth)
  }

  /** The permissions of a file: those of Git's two kinds of regular file. */
  function FileMode(mode: Bytes): nat {
    if mode == "100755" then 0x1ed else 0x1a4
  }

  lemma {:induction false} Octal100()
    ensures OctalText("100") && OctalValue("100") == 64
  {
    OctalNext("", '1');
    OctalNext("1", '0');
    OctalNext("10", '0');
    assert "1" == "" + ['1'] && "10" == "1" + ['0'] && "100" == "10" + ['0'];
  }

  lemma {:induction false} Octal100644()
    ensures OctalText("100644") && OctalValue("100644") == 0x81a4
  {
    Octal100();
    OctalNext("100", '6');
    OctalNext("1006", '4');
    OctalNext("10064", '4');
    assert "1006" == "100" + ['6'] && "10064" == "1006" + ['4'] && "100644" == "10064" + ['4'];
  }

  lemma {:induction false} Octal100755()
    ensures OctalText("100755") && OctalValue("100755") == 0x81ed
  {
    Octal100();
    OctalNext("100", '7');
    OctalNext("1007", '5');
    OctalNext("10075", '5');
    assert "1007" == "100" + ['7'] && "10075" == "1007" + ['5'] && "100755" == "10075" + ['5'];
  }

  /** The last three octal digits of the two modes are these permissions, and no other mode is a file's. */
  lemma {:induction false} FileModes(mode: Bytes)
    ensures EntryMode(mode) <==> mode == "40000" || mode == "100644" || mode == "100755"
    ensures mode == "100644" || mode == "100755" ==> ModeBits(mode) == FileMode(mode)
  {
    Octal100644();
    Octal100755();
  }

  lemma {:induction false} OctalNext(text: string, c: char)
    requires OctalText(text) && '0' <= c <= '7'
    ensures OctalText(text + [c]) && OctalValue(text + [c]) == 8 * OctalValue(text) + (c as nat - '0' as nat)
  {
    assert (text + [c])[..|text|] == text;
  }

  /** The files below `oid`, in depth-first order: the recursive flattening. */
  ghost function Flatten(u: Unicode, address: Address, prefix: string, oid: string, depth: nat): seq<Ref>
    requires Whole(address, oid, depth)
    decreases depth, 0, 0
  {
    FlattenEntries(u, address, prefix, TreeOf(address, oid).value, depth - 1)
  }

  ghost function FlattenEntries(u: Unicode, address: Address, prefix: string, es: seq<RawEntry>, depth: nat): seq<Ref>
    requires WholeEntries(address, es, depth)
    decreases depth, 1, |es|
  {
    if es == [] then [] else
      var path := prefix + NameOf(u, es[0]);
      (if es[0].mode == DIRECTORY_MODE then Flatten(u, address, path + "/", Hex(es[0].id), depth)
       else [Ref(path, Hex(es[0].id), FileMode(es[0].mode))])
      + FlattenEntries(u, address, prefix, es[1..], depth)
  }

  ghost predicate WholeDirs(address: Address, dirs: seq<Dir>, depth: nat) {
    dirs != [] ==> Whole(address, dirs[0].oid, depth) && WholeDirs(address, dirs[1..], depth)
  }

  /** A level, flattened directory by directory. */
  ghost function FlattenDirs(u: Unicode, address: Address, dirs: seq<Dir>, depth: nat): seq<Ref>
    requires WholeDirs(address, dirs, depth)
  {
    if dirs == [] then [] else
      Flatten(u, address, dirs[0].prefix, dirs[0].oid, depth) + FlattenDirs(u, address, dirs[1..], depth)
  }

  /* ------------------------------------------------------------------ what one tree adds to a scan */

  function FileAt(u: Unicode, prefix: string, e: RawEntry): seq<Ref> {
    if e.mode == DIRECTORY_MODE then [] else [Ref(prefix + NameOf(u, e), Hex(e.id), FileMode(e.mode))]
  }

  function DirAt(u: Unicode, prefix: string, e: RawEntry): seq<Dir> {
    if e.mode == DIRECTORY_MODE then [Dir(prefix + NameOf(u, e) + "/", Hex(e.id))] else []
  }

  function FilesIn(u: Unicode, prefix: string, es: seq<RawEntry>): seq<Ref> {
    if es == [] then [] else FileAt(u, prefix, es[0]) + FilesIn(u, prefix, es[1..])
  }

  function DirsIn(u: Unicode, prefix: string, es: seq<RawEntry>): seq<Dir> {
    if es == [] then [] else DirAt(u, prefix, es[0]) + DirsIn(u, prefix, es[1..])
  }

  lemma {:induction false} InCons(u: Unicode, prefix: string, e: RawEntry, es: seq<RawEntry>)
    ensures FilesIn(u, prefix, [e] + es) == FileAt(u, prefix, e) + FilesIn(u, prefix, es)
    ensures DirsIn(u, prefix, [e] + es) == DirAt(u, prefix, e) + DirsIn(u, prefix, es)
  {
    assert ([e] + es)[1..] == es;
  }

  lemma {:induction false} AddsOne(u: Unicode, scan: Scan, prefix: string, e: RawEntry)
    requires EntryMode(e.mode)
    ensures AddEntry(u, scan, prefix, e).blobs == scan.blobs + FileAt(u, prefix, e)
    ensures AddEntry(u, scan, prefix, e).next == scan.next + DirAt(u, prefix, e)
  {
    FileModes(e.mode);
  }

  lemma {:induction false} ScanAdds(u: Unicode, scan: Scan, prefix: string, tree: Bytes)
    requires ScanTree(u, scan, prefix, tree).Some?
    ensures ParseTree(tree).Some?
    ensures ScanTree(u, scan, prefix, tree).value.blobs == scan.blobs + FilesIn(u, prefix, ParseTree(tree).value)
    ensures ScanTree(u, scan, prefix, tree).value.next == scan.next + DirsIn(u, prefix, ParseTree(tree).value)
    decreases |tree|
  {
    if tree != "" {
      var p := ParseEntry(tree).value;
      ScanAdds(u, AddEntry(u, scan, prefix, p.entry), prefix, p.rest);
      AddsOne(u, scan, prefix, p.entry);
      var es := ParseTree(p.rest).value;
      InCons(u, prefix, p.entry, es);
      Associates(scan.blobs, FileAt(u, prefix, p.entry), FilesIn(u, prefix, es));
      Associates(scan.next, DirAt(u, prefix, p.entry), DirsIn(u, prefix, es));
    }
  }

  lemma {:induction false} Associates<T>(a: seq<T>, b: seq<T>, c: seq<T>)
    ensures (a + b) + c == a + (b + c)
  {
  }

  lemma {:induction false} DirsAppend(u: Unicode, address: Address, a: seq<Dir>, b: seq<Dir>, depth: nat)
    requires WholeDirs(address, a + b, depth)
    ensures WholeDirs(address, a, depth) && WholeDirs(address, b, depth)
    ensures FlattenDirs(u, address, a + b, depth)
                == FlattenDirs(u, address, a, depth) + FlattenDirs(u, address, b, depth)
    decreases |a|
  {
    if a == [] {
      assert a + b == b;
    } else {
      assert (a + b)[1..] == a[1..] + b;
      DirsAppend(u, address, a[1..], b, depth);
    }
  }

  lemma {:induction false} Regroup(a: multiset<Ref>, b: multiset<Ref>, c: multiset<Ref>, d: multiset<Ref>)
    ensures (a + b) + (c + d) == (a + c) + (b + d)
  {
  }

  /** A tree's files and its directories' flattenings are its flattening, entry order aside. */
  lemma {:induction false} EntriesSplit(u: Unicode, address: Address, prefix: string, es: seq<RawEntry>, depth: nat)
    requires WholeDirs(address, DirsIn(u, prefix, es), depth)
    ensures WholeEntries(address, es, depth)
    ensures multiset(FlattenEntries(u, address, prefix, es, depth))
         == multiset(FilesIn(u, prefix, es)) + multiset(FlattenDirs(u, address, DirsIn(u, prefix, es), depth))
    decreases |es|
  {
    if es != [] {
      var here, rest := DirAt(u, prefix, es[0]), DirsIn(u, prefix, es[1..]);
      DirsAppend(u, address, here, rest, depth);
      EntriesSplit(u, address, prefix, es[1..], depth);
      EntrySplit(u, address, prefix, es[0], depth);
      Regroup(multiset(FileAt(u, prefix, es[0])), multiset(FlattenDirs(u, address, here, depth)),
              multiset(FilesIn(u, prefix, es[1..])), multiset(FlattenDirs(u, address, rest, depth)));
    }
  }

  lemma {:induction false} EntrySplit(u: Unicode, address: Address, prefix: string, e: RawEntry, depth: nat)
    requires WholeDirs(address, DirAt(u, prefix, e), depth)
    ensures e.mode == DIRECTORY_MODE ==> Whole(address, Hex(e.id), depth)
    ensures FileAt(u, prefix, e) + FlattenDirs(u, address, DirAt(u, prefix, e), depth)
         == if e.mode == DIRECTORY_MODE then Flatten(u, address, prefix + NameOf(u, e) + "/", Hex(e.id), depth)
            else [Ref(prefix + NameOf(u, e), Hex(e.id), FileMode(e.mode))]
  {
    var dirs := DirAt(u, prefix, e);
    if e.mode == DIRECTORY_MODE {
      assert dirs[1..] == [];
    }
  }

  /* ------------------------------------------------------------------ what one level adds */

  /** Each fetched tree has the address it was asked by. */
  predicate Addressed(address: Address, dirs: seq<Dir>, trees: seq<Bytes>) {
    |dirs| == |trees| && forall k :: 0 <= k < |dirs| ==> address("tree", trees[k]) == dirs[k].oid
  }

  lemma {:induction false} AddressedTail(address: Address, dirs: seq<Dir>, trees: seq<Bytes>)
    requires Addressed(address, dirs, trees) && dirs != []
    ensures Addressed(address, dirs[1..], trees[1..])
  {
  }

  /** One directory of the level: its entries are those of the tree that its address names. */
  lemma {:induction false} DirFlattens(u: Unicode, address: Address, d: Dir, tree: Bytes, depth: nat)
    requires CollisionFree(address) && address("tree", tree) == d.oid && ParseTree(tree).Some?
    requires WholeDirs(address, DirsIn(u, d.prefix, ParseTree(tree).value), depth)
    ensures Whole(address, d.oid, depth + 1)
    ensures multiset(Flatten(u, address, d.prefix, d.oid, depth + 1))
         == multiset(FilesIn(u, d.prefix, ParseTree(tree).value))
          + multiset(FlattenDirs(u, address, DirsIn(u, d.prefix, ParseTree(tree).value), depth))
  {
    Resolves(address, "tree", tree);
    EntriesSplit(u, address, d.prefix, ParseTree(tree).value, depth);
  }

  function LevelFiles(u: Unicode, dirs: seq<Dir>, trees: seq<Bytes>): seq<Ref>
    requires |dirs| == |trees|
  {
    if dirs == [] then [] else
      (if ParseTree(trees[0]).Some? then FilesIn(u, dirs[0].prefix, ParseTree(trees[0]).value) else [])
      + LevelFiles(u, dirs[1..], trees[1..])
  }

  function LevelDirs(u: Unicode, dirs: seq<Dir>, trees: seq<Bytes>): seq<Dir>
    requires |dirs| == |trees|
  {
    if dirs == [] then [] else
      (if ParseTree(trees[0]).Some? then DirsIn(u, dirs[0].prefix, ParseTree(trees[0]).value) else [])
      + LevelDirs(u, dirs[1..], trees[1..])
  }

  predicate AllParse(trees: seq<Bytes>) {
    forall t <- trees :: ParseTree(t).Some?
  }

  lemma {:induction false} LevelAdds(u: Unicode, scan: Scan, dirs: seq<Dir>, trees: seq<Bytes>)
    requires |dirs| == |trees| && ScanTrees(u, scan, dirs, trees).Some?
    ensures AllParse(trees)
    ensures ScanTrees(u, scan, dirs, trees).value.blobs == scan.blobs + LevelFiles(u, dirs, trees)
    ensures ScanTrees(u, scan, dirs, trees).value.next == scan.next + LevelDirs(u, dirs, trees)
    decreases |dirs|
  {
    if dirs != [] {
      var first := ScanTree(u, scan, dirs[0].prefix, trees[0]).value;
      ScanAdds(u, scan, dirs[0].prefix, trees[0]);
      LevelAdds(u, first, dirs[1..], trees[1..]);
      assert trees == [trees[0]] + trees[1..];
      var es := ParseTree(trees[0]).value;
      Associates(scan.blobs, FilesIn(u, dirs[0].prefix, es), LevelFiles(u, dirs[1..], trees[1..]));
      Associates(scan.next, DirsIn(u, dirs[0].prefix, es), LevelDirs(u, dirs[1..], trees[1..]));
    }
  }

  /**
   * A level's flattening is the files of the level and the flattening of the next level: nothing lost,
   * doubled or mispaired.
   */
  lemma {:induction false} LevelSplit(u: Unicode, address: Address, dirs: seq<Dir>, trees: seq<Bytes>, depth: nat)
    requires CollisionFree(address) && Addressed(address, dirs, trees) && AllParse(trees)
    requires WholeDirs(address, LevelDirs(u, dirs, trees), depth)
    ensures WholeDirs(address, dirs, depth + 1)
    ensures multiset(FlattenDirs(u, address, dirs, depth + 1))
         == multiset(LevelFiles(u, dirs, trees)) + multiset(FlattenDirs(u, address, LevelDirs(u, dirs, trees), depth))
    decreases |dirs|
  {
    if dirs != [] {
      assert trees[0] in trees && forall t <- trees[1..] :: t in trees;
      var here, rest := DirsIn(u, dirs[0].prefix, ParseTree(trees[0]).value), LevelDirs(u, dirs[1..], trees[1..]);
      DirsAppend(u, address, here, rest, depth);
      DirFlattens(u, address, dirs[0], trees[0], depth);
      AddressedTail(address, dirs, trees);
      LevelSplit(u, address, dirs[1..], trees[1..], depth);
      Regroup(multiset(FilesIn(u, dirs[0].prefix, ParseTree(trees[0]).value)),
          multiset(FlattenDirs(u, address, here, depth)),
              multiset(LevelFiles(u, dirs[1..], trees[1..])), multiset(FlattenDirs(u, address, rest, depth)));
    }
  }

  /* ------------------------------------------------------------------ the walk */

  /** What the walk ends with is what it had and the flattening of what was pending. */
  lemma {:induction false} WalkFlattens(u: Unicode, address: Address, git: Git, b: Budget, scan: Scan)
    returns (depth: nat)
    requires CollisionFree(address) && b.consumed <= MAX_ARCHIVE_BYTES && Walk(u, address, git, b, scan).scan.Some?
    ensures WholeDirs(address, scan.next, depth)
    ensures multiset(Walk(u, address, git, b, scan).scan.value.blobs)
         == multiset(scan.blobs) + multiset(FlattenDirs(u, address, scan.next, depth))
    decreases MAX_ARCHIVE_BYTES - b.consumed
  {
    if scan.next == [] {
      return 0;
    }
    var f := Fetch(address, git, b, TreesWanted(scan.next));
    FetchAdvances(address, git, b, TreesWanted(scan.next));
    var rest, trees := scan.(next := []), f.contents.value;
    var s := ScanTrees(u, rest, scan.next, trees).value;
    LevelAdds(u, rest, scan.next, trees);
    assert s.next == LevelDirs(u, scan.next, trees);
    var d := WalkFlattens(u, address, git, f.budget, s);
    LevelSplit(u, address, scan.next, trees, d);
    return d + 1;
  }

  /** Each file has the path and mode of its reference, and the content that its address names. */
  ghost predicate FilesResolve(address: Address, files: seq<SourceFile>, blobs: seq<Ref>) {
    && |files| == |blobs|
    && forall k :: 0 <= k < |files| ==>
         && files[k].path == blobs[k].path && files[k].mode == blobs[k].mode
         && Exists(address, "blob", blobs[k].oid) && files[k].content == Resolve(address, "blob", blobs[k].oid)
  }

  lemma {:induction false} FilesFromResolve(address: Address, blobs: seq<Ref>, contents: seq<Bytes>)
    requires CollisionFree(address) && |blobs| == |contents|
    requires forall k :: 0 <= k < |blobs| ==> address("blob", contents[k]) == blobs[k].oid
    ensures FilesResolve(address, FilesFrom(blobs, contents), blobs)
  {
    forall k | 0 <= k < |blobs|
      ensures Exists(address, "blob", blobs[k].oid) && contents[k] == Resolve(address, "blob", blobs[k].oid)
    {
      Resolves(address, "blob", contents[k]);
    }
  }

  /**
   * Every accepted recovery is the recursive flattening of the commit's tree: the same paths, modes
   * and content addresses, each as often, and every file holds the content its address names.
   */
  lemma {:induction false} RecoversFlattening(u: Unicode, address: Address, git: Git, commit: string)
    returns (depth: nat)
    requires CollisionFree(address) && Recover(u, address, git, commit).recovered.Some?
    ensures var r := Recover(u, address, git, commit).recovered.value;
            && Exists(address, "commit", commit) && TreeOfCommit(Resolve(address, "commit", commit)) == Some(r.tree)
            && Whole(address, r.tree, depth)
            && multiset(r.blobs) == multiset(Flatten(u, address, "", r.tree, depth))
            && FilesResolve(address, r.files, r.blobs)
  {
    var r := Recover(u, address, git, commit).recovered.value;
    var head := Fetch(address, git, Budget(0, 0), [Wanted(commit, "commit")]);
    FetchAdvances(address, git, Budget(0, 0), [Wanted(commit, "commit")]);
    Resolves(address, "commit", head.contents.value[0]);
    depth := WalkFlattens(u, address, git, head.budget, StartAt(r.tree));
    WalkBudget(u, address, git, head.budget, StartAt(r.tree));
    var w := Walk(u, address, git, head.budget, StartAt(r.tree));
    assert FlattenDirs(u, address, StartAt(r.tree).next, depth) == Flatten(u, address, "", r.tree, depth) + [];
    FetchAdvances(address, git, w.budget, BlobsWanted(r.blobs));
    FilesFromResolve(address, r.blobs, Fetch(address, git, w.budget, BlobsWanted(r.blobs)).contents.value);
  }
}
