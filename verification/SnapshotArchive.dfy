/** The canonical order of a snapshot's files, its archive and its tree digest. */
module SnapshotArchive {
  import opened Basics
  import opened SourcePaths
  import opened Snapshot

  /* ------------------------------------------------------------------ the order of paths */

  /** Paths compare part by part: a slash ends a part, so it sorts before every other character. */
  function Rank(c: char): int {
    if c == '/' then -1 else c as int
  }

  predicate Less(a: string, b: string) {
    if b == "" then false
    else if a == "" then true
    else if a[0] != b[0] then Rank(a[0]) < Rank(b[0])
    else Less(a[1..], b[1..])
  }

  lemma {:induction false} LessTotal(a: string, b: string)
    ensures a == b || Less(a, b) || Less(b, a)
    ensures !(Less(a, b) && Less(b, a)) && !Less(a, a)
    decreases |a|
  {
    if a != "" {
      LessTotal(a[1..], if b == "" then "" else b[1..]);
      if b != "" {
        assert a == [a[0]] + a[1..] && b == [b[0]] + b[1..];
      }
    }
  }

  lemma {:induction false} LessTransitive(a: string, b: string, c: string)
    requires Less(a, b) && Less(b, c)
    ensures Less(a, c)
    decreases |a|
  {
    if a != "" && b != "" && c != "" && a[0] == b[0] == c[0] {
      LessTransitive(a[1..], b[1..], c[1..]);
    }
  }

  predicate Ordered(files: seq<SourceFile>) {
    forall i, j :: 0 <= i < j < |files| ==> Less(files[i].path, files[j].path)
  }

  predicate DistinctPaths(files: seq<SourceFile>) {
    forall i, j :: 0 <= i < j < |files| ==> files[i].path != files[j].path
  }

  function Insert(f: SourceFile, sorted: seq<SourceFile>): seq<SourceFile> {
    if sorted == [] then [f]
    else if Less(sorted[0].path, f.path) then [sorted[0]] + Insert(f, sorted[1..])
    else [f] + sorted
  }

  function Sort(files: seq<SourceFile>): seq<SourceFile> {
    if files == [] then [] else Insert(files[|files| - 1], Sort(files[..|files| - 1]))
  }

  lemma {:induction false} InsertElements(f: SourceFile, sorted: seq<SourceFile>)
    ensures multiset(Insert(f, sorted)) == multiset(sorted) + multiset{f}
    decreases |sorted|
  {
    if sorted != [] {
      assert sorted == [sorted[0]] + sorted[1..];
      InsertElements(f, sorted[1..]);
    }
  }

  lemma {:induction false} SortElements(files: seq<SourceFile>)
    ensures multiset(Sort(files)) == multiset(files)
    decreases |files|
  {
    if files != [] {
      var n := |files| - 1;
      assert files == files[..n] + [files[n]];
      SortElements(files[..n]);
      InsertElements(files[n], Sort(files[..n]));
    }
  }

  lemma {:induction false} SameElements(a: seq<SourceFile>, b: seq<SourceFile>)
    requires multiset(a) == multiset(b)
    ensures |a| == |b| && forall f :: f in a <==> f in b
  {
    assert |multiset(a)| == |a| && |multiset(b)| == |b|;
    assert forall f :: f in a <==> f in multiset(a);
    assert forall f :: f in b <==> f in multiset(b);
  }

  lemma {:induction false} InsertOrdered(f: SourceFile, sorted: seq<SourceFile>)
    requires Ordered(sorted) && forall g <- sorted :: g.path != f.path
    ensures Ordered(Insert(f, sorted))
    decreases |sorted|
  {
    if sorted != [] {
      LessTotal(sorted[0].path, f.path);
      if Less(sorted[0].path, f.path) {
        InsertOrdered(f, sorted[1..]);
        InsertElements(f, sorted[1..]);
        forall j | 0 <= j < |Insert(f, sorted[1..])|
          ensures Less(sorted[0].path, Insert(f, sorted[1..])[j].path)
        {
          assert Insert(f, sorted[1..])[j] in multiset(Insert(f, sorted[1..]));
        }
      } else {
        forall j | 0 < j < |sorted|
          ensures Less(f.path, sorted[j].path)
        {
          LessTransitive(f.path, sorted[0].path, sorted[j].path);
        }
      }
    }
  }

  lemma {:induction false} SortOrders(files: seq<SourceFile>)
    requires DistinctPaths(files)
    ensures Ordered(Sort(files))
    decreases |files|
  {
    if files != [] {
      var n := |files| - 1;
      SortOrders(files[..n]);
      SortElements(files[..n]);
      SameElements(files[..n], Sort(files[..n]));
      InsertOrdered(files[n], Sort(files[..n]));
    }
  }

  lemma {:induction false} FirstOfOrdered(a: seq<SourceFile>, b: seq<SourceFile>)
    requires Ordered(a) && Ordered(b) && a != [] && b != [] && a[0] in b && b[0] in a
    ensures a[0] == b[0]
  {
    var i :| 0 <= i < |b| && b[i] == a[0];
    var j :| 0 <= j < |a| && a[j] == b[0];
    LessTotal(a[0].path, b[0].path);
  }

  lemma {:induction false} TailElements(a: seq<SourceFile>)
    requires a != []
    ensures multiset(a[1..]) == multiset(a) - multiset{a[0]}
  {
    assert a == [a[0]] + a[1..];
  }

  /** Two ordered lists of the same files are the same list. */
  lemma {:induction false} OrderedUnique(a: seq<SourceFile>, b: seq<SourceFile>)
    requires Ordered(a) && Ordered(b) && multiset(a) == multiset(b)
    ensures a == b
    decreases |a|
  {
    SameElements(a, b);
    if a != [] {
      assert a[0] in a && b[0] in b;
      FirstOfOrdered(a, b);
      TailElements(a);
      TailElements(b);
      OrderedUnique(a[1..], b[1..]);
      assert a == [a[0]] + a[1..] && b == [b[0]] + b[1..];
    }
  }

  /* ------------------------------------------------------------------ a snapshot in canonical order */

  lemma {:induction false} SameFoldDifferent(u: Unicode, files: seq<SourceFile>)
    requires forall i, j :: 0 <= i < |files| && 0 <= j < |files| ==> DistinctAt(u, files, i, j)
    ensures DistinctPaths(files)
  {
    forall i, j | 0 <= i < j < |files|
      ensures files[i].path != files[j].path
    {
      assert DistinctAt(u, files, i, j);
    }
  }

  /** Distinct and consistent names make the folds distinct, in any order. */
  lemma {:induction false} DistinctFolds(u: Unicode, files: seq<SourceFile>)
    requires DistinctPaths(files) && forall f, g :: f in files && g in files ==> SameNames(u, f.path, g.path)
    ensures forall i, j :: 0 <= i < |files| && 0 <= j < |files| ==> DistinctAt(u, files, i, j)
  {
    forall i, j | 0 <= i < |files| && 0 <= j < |files| && i != j
      ensures Fold(u, files[i].path) != Fold(u, files[j].path)
    {
      var p, q := files[i].path, files[j].path;
      assert SameNames(u, p, q);
      assert p[..|p|] == p && q[..|q|] == q && Cut(p, |p|) && Cut(q, |q|);
    }
  }

  lemma {:induction false} OrderedDistinct(files: seq<SourceFile>)
    requires Ordered(files)
    ensures DistinctPaths(files)
  {
    forall i, j | 0 <= i < j < |files|
      ensures files[i].path != files[j].path
    {
      LessTotal(files[i].path, files[j].path);
    }
  }

  lemma {:induction false} TotalInsert(f: SourceFile, sorted: seq<SourceFile>)
    ensures Total(Insert(f, sorted)) == Total(sorted) + |f.content|
    decreases |sorted|
  {
    if sorted == [] {
      assert [f][..0] == [];
    } else if Less(sorted[0].path, f.path) {
      TotalInsert(f, sorted[1..]);
      TotalCons(sorted[0], Insert(f, sorted[1..]));
      TotalCons(sorted[0], sorted[1..]);
      assert sorted == [sorted[0]] + sorted[1..];
    } else {
      TotalCons(f, sorted);
    }
  }

  lemma {:induction false} TotalCons(f: SourceFile, files: seq<SourceFile>)
    ensures Total([f] + files) == |f.content| + Total(files)
    decreases |files|
  {
    if files == [] {
      assert ([f] + files)[..0] == [];
    } else {
      TotalCons(f, files[..|files| - 1]);
      assert ([f] + files)[..|files|] == [f] + files[..|files| - 1];
    }
  }

  lemma {:induction false} TotalSort(files: seq<SourceFile>)
    ensures Total(Sort(files)) == Total(files)
    decreases |files|
  {
    if files != [] {
      TotalSort(files[..|files| - 1]);
      TotalInsert(files[|files| - 1], Sort(files[..|files| - 1]));
    }
  }

  /** Sorting keeps a snapshot a snapshot. */
  lemma {:induction false} SortedSnapshot(u: Unicode, files: seq<SourceFile>)
    requires SnapshotOk(u, files)
    ensures SnapshotOk(u, Sort(files)) && Ordered(Sort(files)) && multiset(Sort(files)) == multiset(files)
  {
    SameFoldDifferent(u, files);
    SortElements(files);
    SameElements(files, Sort(files));
    SortOrders(files);
    TotalSort(files);
    OrderedDistinct(Sort(files));
    DistinctFolds(u, Sort(files));
  }

  /** The canonical order, hence archive and tree digest, does not depend on the order of the files. */
  lemma {:induction false} PermutationInvariant(u: Unicode, a: seq<SourceFile>, b: seq<SourceFile>)
    requires SnapshotOk(u, a) && SnapshotOk(u, b) && multiset(a) == multiset(b)
    ensures Sort(a) == Sort(b)
    ensures forall t: Tar :: Archive(t, a) == Archive(t, b)
  {
    SortedSnapshot(u, a);
    SortedSnapshot(u, b);
    OrderedUnique(Sort(a), Sort(b));
  }

  /* ------------------------------------------------------------------ archives */

  datatype Kind = Regular | Directory | Special

  /** One archive member; `size` is what its header says and `content` what follows, cut at `size + 1`. */
  datatype Member = Member(name: string, kind: Kind, size: int, mode: nat, content: Bytes)

  function MemberOf(f: SourceFile): Member {
    Member(f.path, Regular, |f.content|, f.mode, f.content)
  }

  function Members(files: seq<SourceFile>): (ms: seq<Member>)
    ensures |ms| == |files| && forall k :: 0 <= k < |files| ==> ms[k] == MemberOf(files[k])
  {
    if files == [] then [] else Members(files[..|files| - 1]) + [MemberOf(files[|files| - 1])]
  }

  /** The archive's members. */
  function Canonical(files: seq<SourceFile>): seq<Member> {
    Members(Sort(files))
  }

  /** The tar format: what is written of some members, and the members found in a payload, if it can be read at all. */
  datatype Tar = Tar(pack: seq<Member> -> Bytes, unpack: Bytes -> Option<seq<Member>>)

  /** What is written of a snapshot is read back. */
  ghost predicate Restores(u: Unicode, t: Tar) {
    forall files: seq<SourceFile> :: SnapshotOk(u, files) ==> t.unpack(t.pack(Members(files))) == Some(Members(files))
  }

  function Packed(t: Tar, files: seq<SourceFile>): Bytes {
    t.pack(Canonical(files))
  }

  /** `archive`, which refuses a payload above the limit. */
  function Archive(t: Tar, files: seq<SourceFile>): Option<Bytes> {
    if |Packed(t, files)| > MAX_ARCHIVE_BYTES then None else Some(Packed(t, files))
  }

  function WithoutSlashes(name: string): string {
    if name != "" && name[|name| - 1] == '/' then WithoutSlashes(name[..|name| - 1]) else name
  }

  function MemberName(m: Member): string {
    if m.kind.Directory? then WithoutSlashes(m.name) else m.name
  }

  function FileOf(m: Member): SourceFile {
    SourceFile(m.name, m.content, m.mode)
  }

  /** The regular files among the members, in order. */
  function FilesOf(ms: seq<Member>): seq<SourceFile> {
    if ms == [] then [] else
      FilesOf(ms[..|ms| - 1]) + if ms[|ms| - 1].kind.Regular? then [FileOf(ms[|ms| - 1])] else []
  }

  predicate MemberOk(u: Unicode, m: Member) {
    && PathOk(u, MemberName(m)) && !m.kind.Special?
    && (m.kind.Regular? ==> 0 <= m.size <= MAX_FILE_BYTES && |m.content| == m.size && FileOk(u, FileOf(m)))
  }

  predicate DistinctMembers(u: Unicode, ms: seq<Member>) {
    forall i, j :: 0 <= i < j < |ms| ==> Fold(u, MemberName(ms[i])) != Fold(u, MemberName(ms[j]))
  }

  /** What `read_artifact` accepts. */
  predicate ArtifactOk(u: Unicode, ms: seq<Member>) {
    && |ms| <= MAX_MEMBERS
    && (forall m <- ms :: MemberOk(u, m))
    && DistinctMembers(u, ms)
    && SnapshotOk(u, FilesOf(ms))
  }

  predicate PayloadOk(u: Unicode, t: Tar, payload: Bytes) {
    |payload| <= MAX_ARCHIVE_BYTES && t.unpack(payload).Some? && ArtifactOk(u, t.unpack(payload).value)
  }

  lemma {:induction false} TotalPrefix(files: seq<SourceFile>, n: nat)
    requires n <= |files|
    ensures Total(files[..n]) <= Total(files)
    decreases |files| - n
  {
    if n < |files| {
      TotalPrefix(files, n + 1);
      assert files[..n + 1][..n] == files[..n];
    } else {
      assert files[..n] == files;
    }
  }

  lemma {:induction false} FilesOfPrefix(ms: seq<Member>, n: nat)
    requires n <= |ms|
    ensures FilesOf(ms[..n]) <= FilesOf(ms)
    decreases |ms| - n
  {
    if n < |ms| {
      FilesOfPrefix(ms, n + 1);
      assert ms[..n + 1][..n] == ms[..n];
    } else {
      assert ms[..n] == ms;
    }
  }

  lemma {:induction false} FilesOfOk(u: Unicode, ms: seq<Member>)
    requires forall m <- ms :: MemberOk(u, m)
    ensures FilesOk(u, FilesOf(ms))
    decreases |ms|
  {
    if ms != [] {
      FilesOfOk(u, ms[..|ms| - 1]);
      assert MemberOk(u, ms[|ms| - 1]);
    }
  }

  /** The checks of one member by itself. */
  method CheckMember(u: Unicode, m: Member) returns (ok: bool)
    ensures ok <==> MemberOk(u, m)
  {
    var canonical := CheckPath(u, MemberName(m));
    if !canonical || m.kind.Special? {
      return false;
    }
    if m.kind.Regular? {
      if m.size < 0 || m.size > MAX_FILE_BYTES || |m.content| != m.size {
        return false;
      }
      // `SourceFile` checks path, mode and size again.
      return m.mode == PLAIN_MODE || m.mode == EXECUTABLE_MODE;
    }
    return true;
  }

  predicate DistinctUpTo(u: Unicode, ms: seq<Member>, n: nat)
    requires n <= |ms|
  {
    forall i, j :: 0 <= i < j < n ==> Fold(u, MemberName(ms[i])) != Fold(u, MemberName(ms[j]))
  }

  /** `seen` is the folded names of the first `n` members, and no two of them are equal. */
  predicate Seen(u: Unicode, ms: seq<Member>, n: nat, seen: set<string>)
    requires n <= |ms|
  {
    && (forall k :: 0 <= k < n ==> Fold(u, MemberName(ms[k])) in seen)
    && (forall x <- seen :: exists k :: 0 <= k < n && Fold(u, MemberName(ms[k])) == x)
    && DistinctUpTo(u, ms, n)
  }

  lemma {:induction false} SeenNext(u: Unicode, ms: seq<Member>, n: nat, seen: set<string>, name: string)
    requires n < |ms| && Seen(u, ms, n, seen) && name == Fold(u, MemberName(ms[n])) && name !in seen
    ensures Seen(u, ms, n + 1, seen + {name})
  {
    forall x | x in seen
      ensures exists k :: 0 <= k < n + 1 && Fold(u, MemberName(ms[k])) == x
    {
      var k :| 0 <= k < n && Fold(u, MemberName(ms[k])) == x;
    }
    forall i | 0 <= i < n
      ensures Fold(u, MemberName(ms[i])) != Fold(u, MemberName(ms[n]))
    {
      assert Fold(u, MemberName(ms[i])) in seen;
    }
    assert DistinctUpTo(u, ms, n + 1);
  }

  /** A member named like an earlier one. */
  lemma {:induction false} SeenTwice(u: Unicode, ms: seq<Member>, n: nat, seen: set<string>)
    requires n < |ms| && Seen(u, ms, n, seen) && Fold(u, MemberName(ms[n])) in seen
    ensures !DistinctMembers(u, ms)
  {
    var k :| 0 <= k < n && Fold(u, MemberName(ms[k])) == Fold(u, MemberName(ms[n]));
  }

  lemma {:induction false} NextFiles(ms: seq<Member>, n: nat)
    requires n < |ms|
    ensures FilesOf(ms[..n + 1]) == FilesOf(ms[..n]) + if ms[n].kind.Regular? then [FileOf(ms[n])] else []
    ensures ms[n].kind.Regular? ==> Total(FilesOf(ms[..n + 1])) == Total(FilesOf(ms[..n])) + |ms[n].content|
  {
    assert ms[..n + 1][..n] == ms[..n];
    var now := FilesOf(ms[..n + 1]);
    if ms[n].kind.Regular? {
      assert now[..|now| - 1] == FilesOf(ms[..n]);
    }
  }

  predicate Readable(u: Unicode, ms: seq<Member>) {
    && |ms| <= MAX_MEMBERS && (forall m <- ms :: MemberOk(u, m)) && DistinctMembers(u, ms)
    && Total(FilesOf(ms)) <= MAX_SOURCE_BYTES
  }

  predicate AllOk(u: Unicode, ms: seq<Member>, n: nat)
    requires n <= |ms|
  {
    forall k :: 0 <= k < n ==> MemberOk(u, ms[k])
  }

  /** One turn of the loop: the files, the folded names and the byte count with `ms[i]` added. */
  method ReadMember(u: Unicode, ms: seq<Member>, i: nat, files: seq<SourceFile>, seen: set<string>, total: nat)
    returns (ok: bool, files': seq<SourceFile>, seen': set<string>, total': nat)
    requires i < |ms| && i < MAX_MEMBERS && Seen(u, ms, i, seen) && files == FilesOf(ms[..i]) && total == Total(files)
    ensures ok ==> MemberOk(u, ms[i]) && Seen(u, ms, i + 1, seen')
                   && files' == FilesOf(ms[..i + 1]) && total' == Total(files')
                      && (total <= MAX_SOURCE_BYTES ==> total' <= MAX_SOURCE_BYTES)
    ensures !ok ==> !Readable(u, ms)
  {
    ok, files', seen', total' := false, files, seen, total;
    var folded := Fold(u, MemberName(ms[i]));
    if folded in seen {
      SeenTwice(u, ms, i, seen);
      return;
    }
    var valid := CheckMember(u, ms[i]);
    if !valid {
      assert ms[i] in ms;
      return;
    }
    NextFiles(ms, i);
    if ms[i].kind.Regular? {
      if total + ms[i].size > MAX_SOURCE_BYTES {
        OverTotal(ms, i);
        return;
      }
      total' := total + ms[i].size;
      files' := files + [FileOf(ms[i])];
    }
    SeenNext(u, ms, i, seen, folded);
    return true, files', seen + {folded}, total';
  }

  lemma {:induction false} CollectedAll(u: Unicode, ms: seq<Member>, seen: set<string>)
    requires |ms| <= MAX_MEMBERS && Total(FilesOf(ms)) <= MAX_SOURCE_BYTES
    requires AllOk(u, ms, |ms|) && Seen(u, ms, |ms|, seen)
    ensures Readable(u, ms)
  {
  }

  /** The loop over members. */
  method CollectMembers(u: Unicode, ms: seq<Member>) returns (r: Result<seq<SourceFile>>)
    ensures r.Ok? <==> Readable(u, ms)
    ensures r.Ok? ==> r.value == FilesOf(ms)
  {
    var files: seq<SourceFile>, seen: set<string>, total := [], {}, 0;
    var i := 0;
    while i < |ms|
      invariant 0 <= i <= |ms| && i <= MAX_MEMBERS
      invariant files == FilesOf(ms[..i]) && total == Total(files) <= MAX_SOURCE_BYTES
      invariant AllOk(u, ms, i) && Seen(u, ms, i, seen)
    {
      if i + 1 > MAX_MEMBERS {
        return Refused("archive exceeds the member limit");
      }
      var ok;
      ok, files, seen, total := ReadMember(u, ms, i, files, seen, total);
      if !ok {
        return Refused("unsafe, colliding, oversized or truncated archive member");
      }
      i := i + 1;
    }
    assert ms[..i] == ms;
    CollectedAll(u, ms, seen);
    return Ok(files);
  }

  /** `read_artifact`. */
  method ReadArtifact(u: Unicode, t: Tar, payload: Bytes) returns (r: Result<seq<SourceFile>>)
    requires Lawful(u)
    ensures r.Ok? <==> PayloadOk(u, t, payload)
    ensures r.Ok? ==> r.value == FilesOf(t.unpack(payload).value)
  {
    if |payload| > MAX_ARCHIVE_BYTES {
      return Refused("source archive exceeds the byte limit");
    }
    if t.unpack(payload).None? {
      return Refused("source is not a readable uncompressed tar archive");
    }
    var ms := t.unpack(payload).value;
    r := CollectMembers(u, ms);
    if r.Ok? {
      FilesOfOk(u, ms);
      var ok := Construct(u, r.value);
      if !ok {
        r := Refused("source is no bounded namespace");
      }
    }
  }

  /** A member whose declared size breaks the total cannot be part of an accepted archive. */
  lemma {:induction false} OverTotal(ms: seq<Member>, i: nat)
    requires i < |ms| && ms[i].kind.Regular? && Total(FilesOf(ms[..i])) + ms[i].size > MAX_SOURCE_BYTES
    ensures |ms[i].content| == ms[i].size ==> Total(FilesOf(ms)) > MAX_SOURCE_BYTES
  {
    var before, now, all := FilesOf(ms[..i]), FilesOf(ms[..i + 1]), FilesOf(ms);
    assert ms[..i + 1][..i] == ms[..i];
    assert now == before + [FileOf(ms[i])] && now[..|now| - 1] == before;
    FilesOfPrefix(ms, i + 1);
    TotalPrefix(all, |now|);
    assert all[..|now|] == now;
  }

  lemma {:induction false} FilesOfMembers(files: seq<SourceFile>)
    ensures FilesOf(Members(files)) == files
    decreases |files|
  {
    if files != [] {
      FilesOfMembers(files[..|files| - 1]);
      assert Members(files)[..|files| - 1] == Members(files[..|files| - 1]);
    }
  }

  lemma {:induction false} MembersOk(u: Unicode, files: seq<SourceFile>)
    requires FilesOk(u, files) && forall i, j :: 0 <= i < |files| && 0 <= j < |files| ==> DistinctAt(u, files, i, j)
    ensures (forall m <- Members(files) :: MemberOk(u, m)) && DistinctMembers(u, Members(files))
  {
    var ms := Members(files);
    forall m | m in ms
      ensures MemberOk(u, m)
    {
      var k :| 0 <= k < |ms| && ms[k] == m;
      assert files[k] in files;
    }
    forall i, j | 0 <= i < j < |ms|
      ensures Fold(u, MemberName(ms[i])) != Fold(u, MemberName(ms[j]))
    {
      assert DistinctAt(u, files, i, j);
    }
  }

  /**
   * A snapshot's archive is written exactly when it would be read, and reading it back gives the
   * snapshot in canonical order; only the payload's size can stand in the way.
   */
  lemma {:induction false} ArchiveRoundTrip(u: Unicode, t: Tar, files: seq<SourceFile>)
    requires SnapshotOk(u, files) && Restores(u, t)
    ensures Archive(t, files).Some? <==> PayloadOk(u, t, Packed(t, files))
    ensures Archive(t, files).Some? ==> FilesOf(t.unpack(Archive(t, files).value).value) == Sort(files)
  {
    SortedSnapshot(u, files);
    MembersRead(u, Sort(files));
    assert t.unpack(t.pack(Members(Sort(files)))) == Some(Members(Sort(files)));
  }

  lemma {:induction false} MembersRead(u: Unicode, files: seq<SourceFile>)
    requires SnapshotOk(u, files)
    ensures ArtifactOk(u, Members(files)) && FilesOf(Members(files)) == files
  {
    FilesOfMembers(files);
    MembersOk(u, files);
  }

  /* ------------------------------------------------------------------ the tree digest */

  datatype TreeEntry = TreeEntry(path: string, sha256: string, size: nat)

  datatype Hashing = Hashing(sha256: Bytes -> string, digest: seq<TreeEntry> -> string)

  ghost predicate CollisionFree(h: Hashing) {
    && (forall a, b :: h.sha256(a) == h.sha256(b) ==> a == b)
    && (forall a, b :: h.digest(a) == h.digest(b) ==> a == b)
  }

  function Entries(h: Hashing, files: seq<SourceFile>): (es: seq<TreeEntry>)
    ensures |es| == |files|
    ensures forall k ::
              0 <= k < |files| ==> es[k] == TreeEntry(files[k].path, h.sha256(files[k].content), |files[k].content|)
  {
    if files == [] then [] else
      var f := files[|files| - 1];
      Entries(h, files[..|files| - 1]) + [TreeEntry(f.path, h.sha256(f.content), |f.content|)]
  }

  function TreeDigest(h: Hashing, files: seq<SourceFile>): string {
    h.digest(Entries(h, Sort(files)))
  }

  /** Every file of `a` is in `b` with the same content, up to its mode. */
  predicate ContentsIn(a: seq<SourceFile>, b: seq<SourceFile>) {
    forall f <- a :: exists g <- b :: g.path == f.path && g.content == f.content
  }

  predicate SameContents(a: seq<SourceFile>, b: seq<SourceFile>) {
    ContentsIn(a, b) && ContentsIn(b, a)
  }

  /** File by file the same path and content. */
  predicate Agree(a: seq<SourceFile>, b: seq<SourceFile>) {
    |a| == |b| && forall k :: 0 <= k < |a| ==> a[k].path == b[k].path && a[k].content == b[k].content
  }

  lemma {:induction false} EntriesAgree(h: Hashing, a: seq<SourceFile>, b: seq<SourceFile>)
    requires CollisionFree(h)
    ensures Entries(h, a) == Entries(h, b) <==> Agree(a, b)
  {
    var x, y := Entries(h, a), Entries(h, b);
    if x == y {
      forall k | 0 <= k < |a|
        ensures a[k].path == b[k].path && a[k].content == b[k].content
      {
        assert x[k] == y[k];
      }
    }
  }

  lemma {:induction false} AgreeContained(a: seq<SourceFile>, b: seq<SourceFile>)
    requires Agree(a, b)
    ensures ContentsIn(a, b)
  {
    forall f | f in a
      ensures exists g <- b :: g.path == f.path && g.content == f.content
    {
      var k :| 0 <= k < |a| && a[k] == f;
      assert b[k] in b;
    }
  }

  /** Ordered lists with the same contents agree. */
  lemma {:induction false} OrderedContents(a: seq<SourceFile>, b: seq<SourceFile>)
    requires Ordered(a) && Ordered(b) && SameContents(a, b)
    ensures Agree(a, b)
    decreases |a|
  {
    EmptyTogether(a, b);
    if a != [] {
      FirstsAgree(a, b);
      RestsContained(a, b);
      RestsContained(b, a);
      OrderedRest(a);
      OrderedRest(b);
      OrderedContents(a[1..], b[1..]);
      AgreeCons(a, b);
    }
  }

  lemma {:induction false} EmptyTogether(a: seq<SourceFile>, b: seq<SourceFile>)
    requires SameContents(a, b)
    ensures a == [] <==> b == []
  {
    assert (a != [] ==> a[0] in a) && (b != [] ==> b[0] in b);
  }

  lemma {:induction false} OrderedRest(a: seq<SourceFile>)
    requires a != [] && Ordered(a)
    ensures Ordered(a[1..])
  {
    assert forall k :: 0 <= k < |a| - 1 ==> a[1..][k] == a[k + 1];
  }

  lemma {:induction false} AgreeCons(a: seq<SourceFile>, b: seq<SourceFile>)
    requires a != [] && b != [] && a[0].path == b[0].path && a[0].content == b[0].content && Agree(a[1..], b[1..])
    ensures Agree(a, b)
  {
    forall k | 0 < k < |a|
      ensures a[k].path == b[k].path && a[k].content == b[k].content
    {
      assert a[k] == a[1..][k - 1] && b[k] == b[1..][k - 1];
    }
  }

  lemma {:induction false} FirstsAgree(a: seq<SourceFile>, b: seq<SourceFile>)
    requires Ordered(a) && Ordered(b) && SameContents(a, b) && a != [] && b != []
    ensures a[0].path == b[0].path && a[0].content == b[0].content
  {
    assert a[0] in a && b[0] in b;
    var i :| 0 <= i < |b| && b[i].path == a[0].path && b[i].content == a[0].content;
    var j :| 0 <= j < |a| && a[j].path == b[0].path && a[j].content == b[0].content;
    LessTotal(a[0].path, b[0].path);
  }

  lemma {:induction false} RestsContained(a: seq<SourceFile>, b: seq<SourceFile>)
    requires Ordered(a) && Ordered(b) && ContentsIn(a, b) && a != [] && b != [] && a[0].path == b[0].path
    ensures ContentsIn(a[1..], b[1..])
  {
    forall f | f in a[1..]
      ensures exists g <- b[1..] :: g.path == f.path && g.content == f.content
    {
      var k :| 0 <= k < |a[1..]| && a[1..][k] == f;
      assert f == a[k + 1] && f in a;
      var i :| 0 <= i < |b| && b[i].path == f.path && b[i].content == f.content;
      LessTotal(a[0].path, f.path);
      assert i > 0 && b[1..][i - 1] == b[i];
    }
  }

  lemma {:induction false} ContentsSort(a: seq<SourceFile>, b: seq<SourceFile>)
    ensures SameContents(Sort(a), Sort(b)) <==> SameContents(a, b)
  {
    SortElements(a);
    SortElements(b);
    SameElements(Sort(a), a);
    SameElements(Sort(b), b);
  }

  /** The tree digest determines the paths and contents of a snapshot, and nothing more. */
  lemma {:induction false} TreeDigestDetermines(u: Unicode, h: Hashing, a: seq<SourceFile>, b: seq<SourceFile>)
    requires SnapshotOk(u, a) && SnapshotOk(u, b) && CollisionFree(h)
    ensures TreeDigest(h, a) == TreeDigest(h, b) <==> SameContents(a, b)
  {
    SortedSnapshot(u, a);
    SortedSnapshot(u, b);
    ContentsSort(a, b);
    OrderedDigest(h, Sort(a), Sort(b));
  }

  lemma {:induction false} OrderedDigest(h: Hashing, x: seq<SourceFile>, y: seq<SourceFile>)
    requires Ordered(x) && Ordered(y) && CollisionFree(h)
    ensures h.digest(Entries(h, x)) == h.digest(Entries(h, y)) <==> SameContents(x, y)
  {
    EntriesAgree(h, x, y);
    if Agree(x, y) {
      AgreeContained(x, y);
      AgreeContained(y, x);
    }
    if SameContents(x, y) {
      OrderedContents(x, y);
    }
  }

  /** `read_snapshot`: what it returns for a snapshot's digest has that snapshot's paths and contents. */
  method ReadSnapshot(u: Unicode, t: Tar, h: Hashing, payload: Bytes, expected: string)
    returns (r: Result<seq<SourceFile>>)
    requires Lawful(u)
    ensures r.Ok? <==> PayloadOk(u, t, payload) && TreeDigest(h, FilesOf(t.unpack(payload).value)) == expected
    ensures r.Ok? ==> r.value == FilesOf(t.unpack(payload).value)
    ensures forall files :: r.Ok? && CollisionFree(h) && SnapshotOk(u, files) && TreeDigest(h, files) == expected ==>
                              SameContents(r.value, files)
  {
    r := ReadArtifact(u, t, payload);
    if r.Ok? {
      if TreeDigest(h, r.value) != expected {
        return Refused("source bytes differ from the persisted source-tree identity");
      }
      forall files | CollisionFree(h) && SnapshotOk(u, files) && TreeDigest(h, files) == expected
        ensures SameContents(r.value, files)
      {
        TreeDigestDetermines(u, h, r.value, files);
      }
    }
  }

  /** In particular it does not determine modes: making a file executable keeps it, and changes the archive. */
  lemma {:induction false} ModesUnbound(u: Unicode, t: Tar, h: Hashing, files: seq<SourceFile>, k: nat,
                                        other: seq<SourceFile>)
    requires SnapshotOk(u, files) && SnapshotOk(u, other) && CollisionFree(h) && Restores(u, t)
    requires k < |files| && files[k].mode == PLAIN_MODE && other == files[k := files[k].(mode := EXECUTABLE_MODE)]
    ensures TreeDigest(h, other) == TreeDigest(h, files) && Packed(t, other) != Packed(t, files)
  {
    SameModeless(files, k);
    TreeDigestDetermines(u, h, other, files);
    SameFoldDifferent(u, files);
    ArchivesDiffer(files, k);
    SortedSnapshot(u, files);
    SortedSnapshot(u, other);
    PackedDiffer(u, t, Sort(other), Sort(files));
  }

  lemma {:induction false} PackedDiffer(u: Unicode, t: Tar, a: seq<SourceFile>, b: seq<SourceFile>)
    requires SnapshotOk(u, a) && SnapshotOk(u, b) && Restores(u, t) && Members(a) != Members(b)
    ensures t.pack(Members(a)) != t.pack(Members(b))
  {
    assert t.unpack(t.pack(Members(a))) == Some(Members(a));
  }

  lemma {:induction false} SameModeless(files: seq<SourceFile>, k: nat)
    requires k < |files|
    ensures SameContents(files[k := files[k].(mode := EXECUTABLE_MODE)], files)
  {
    var other := files[k := files[k].(mode := EXECUTABLE_MODE)];
    assert Agree(files, other);
    AgreeContained(files, other);
    AgreeContained(other, files);
  }

  lemma {:induction false} ArchivesDiffer(files: seq<SourceFile>, k: nat)
    requires DistinctPaths(files) && k < |files| && files[k].mode == PLAIN_MODE
    ensures Canonical(files[k := files[k].(mode := EXECUTABLE_MODE)]) != Canonical(files)
  {
    var other := files[k := files[k].(mode := EXECUTABLE_MODE)];
    OnlyOnePath(files, k, other[k]);
    assert other[k] in other;
    if Canonical(other) == Canonical(files) {
      ArchiveElements(files, other);
    }
  }

  /** In a snapshot a path belongs to one file. */
  lemma {:induction false} OnlyOnePath(files: seq<SourceFile>, k: nat, f: SourceFile)
    requires DistinctPaths(files) && k < |files| && f.path == files[k].path && f != files[k]
    ensures f !in files
  {
  }

  lemma {:induction false} ArchiveElements(a: seq<SourceFile>, b: seq<SourceFile>)
    requires Canonical(a) == Canonical(b)
    ensures multiset(a) == multiset(b) && forall f :: f in a <==> f in b
  {
    FilesOfMembers(Sort(a));
    FilesOfMembers(Sort(b));
    SortElements(a);
    SortElements(b);
    SameElements(a, b);
  }
}
