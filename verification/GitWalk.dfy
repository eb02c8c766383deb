/**
 * Recovering committed source from an untrusted object database.
 *
 * `git` is what the selector loop meets while each of the successive `cat-file` processes runs,
 * whatever they were asked; the deadline that they share is among those happenings. `u` and `address`
 * are the Unicode tables and the content address. Every outcome, a refusal too, carries what it took:
 * the processes started, the bytes kept from them, and the entries counted.
 */
module GitWalk {
  import opened Basics
  import opened SourcePaths
  import opened GitFraming
  import opened Snapshot
  import opened SnapshotArchive
  import Process

  type Git = seq<seq<Process.Happening>>

  /** A file found in some tree, by the address of its content. */
  datatype Ref = Ref(path: string, oid: string, mode: nat)

  /** A directory still to be read. */
  datatype Dir = Dir(prefix: string, oid: string)

  /** Processes started, and bytes kept from them. */
  datatype Budget = Budget(calls: nat, consumed: nat)

  const DIRECTORY_MODE := "40000"
  const REGULAR_MODE := "100644"
  const EXECUTABLE_FILE_MODE := "100755"

  function HexDigit(d: nat): char
    requires d < 16
  {
    if d < 10 then '0' + d as char else 'a' + (d - 10) as char
  }

  /** `bytes.hex`. */
  function Hex(b: Bytes): string {
    if b == "" then "" else [HexDigit(b[0] as nat / 16 % 16), HexDigit(b[0] as nat % 16)] + Hex(b[1..])
  }

  /* ------------------------------------------------------------------ one process */

  /** The contents, unless refused, and what has been spent by then. */
  datatype Fetched = Fetched(contents: Option<seq<Bytes>>, budget: Budget)

  /** One address a line. */
  function InputOf(wanted: seq<Wanted>): Bytes {
    if wanted == [] then "" else wanted[0].oid + ['\n'] + InputOf(wanted[1..])
  }

  /** What is kept from the next process, under the bytes that are left. */
  function Received(git: Git, b: Budget, wanted: seq<Wanted>): Process.Drained
    requires b.calls < |git| && b.consumed <= MAX_ARCHIVE_BYTES
  {
    Process.Drain(InputOf(wanted), MAX_ARCHIVE_BYTES - b.consumed, git[b.calls], 0, Process.Opened)
  }

  /** The wanted objects, checked against their addresses. */
  function Fetch(address: Address, git: Git, b: Budget, wanted: seq<Wanted>): Fetched
    requires b.consumed <= MAX_ARCHIVE_BYTES
  {
    if b.consumed == MAX_ARCHIVE_BYTES || b.calls >= |git| then Fetched(None, b) else
      var d := Received(git, b, wanted);
      var spent := Budget(b.calls + 1, b.consumed + d.kept);
      if d.result.None? || d.result.value.code != 0 then Fetched(None, spent)
      else Fetched(Decode(address, d.result.value.stdout, wanted), spent)
  }

  method FetchObjects(address: Address, git: Git, b: Budget, wanted: seq<Wanted>) returns (r: Fetched)
    requires b.consumed <= MAX_ARCHIVE_BYTES
    ensures r == Fetch(address, git, b, wanted)
  {
    var remaining := MAX_ARCHIVE_BYTES - b.consumed;
    if remaining <= 0 || b.calls >= |git| {
      return Fetched(None, b);
    }
    var response, kept := Process.RunBounded(InputOf(wanted), remaining, git[b.calls]);
    var spent := Budget(b.calls + 1, b.consumed + kept);
    if response.None? || response.value.code != 0 {
      return Fetched(None, spent);
    }
    var contents := DecodeBatch(address, response.value.stdout, wanted);
    return Fetched(contents, spent);
  }

  lemma {:induction false} DecodedObjects(address: Address, payload: Bytes, wanted: seq<Wanted>)
    requires Decode(address, payload, wanted).Some?
    ensures var cs := Decode(address, payload, wanted).value;
            && |cs| == |wanted| && (wanted != [] ==> payload != "")
            && forall k ::
                 0 <= k < |cs| ==> address(wanted[k].kind, cs[k]) == wanted[k].oid && |cs[k]| <= Limit(wanted[k].kind)
    decreases |wanted|
  {
    if wanted != [] {
      var f := ParseFrame(address, payload, wanted[0]).value;
      DecodedObjects(address, f.rest, wanted[1..]);
    }
  }

  /* ------------------------------------------------------------------ one tree */

  /** Everything the loop over entries updates. */
  datatype Scan = Scan(seen: set<string>, members: nat, blobs: seq<Ref>, next: seq<Dir>)

  predicate EntryMode(mode: Bytes) {
    mode == DIRECTORY_MODE || mode == REGULAR_MODE || mode == EXECUTABLE_FILE_MODE
  }

  predicate OctalText(text: string) {
    forall k :: 0 <= k < |text| ==> '0' <= text[k] <= '7'
  }

  /** `int(text, 8)`. */
  function OctalValue(text: string): nat
    requires OctalText(text)
  {
    if text == "" then 0 else
      8 * OctalValue(text[..|text| - 1]) + (text[|text| - 1] as nat - '0' as nat)
  }

  /** The permission bits of a file's mode: the last three octal digits. */
  function ModeBits(mode: Bytes): nat {
    if OctalText(mode) then OctalValue(mode) % 0x200 else 0
  }

  /** The name's text, when it is UTF-8. */
  function NameOf(u: Unicode, e: RawEntry): string {
    match u.decode(e.name)
    case Some(t) => t
    case None => ""
  }

  /** An entry is counted once its path is canonical and new, before its kind is looked at. */
  predicate EntryCounts(u: Unicode, scan: Scan, prefix: string, e: RawEntry) {
    && '/' !in e.name && u.decode(e.name).Some?
    && PathOk(u, prefix + NameOf(u, e)) && Fold(u, prefix + NameOf(u, e)) !in scan.seen
  }

  /** The entry may be added: counted within the member limit, and of a supported kind. */
  predicate EntryOk(u: Unicode, scan: Scan, prefix: string, e: RawEntry) {
    EntryCounts(u, scan, prefix, e) && scan.members < MAX_MEMBERS && EntryMode(e.mode)
  }

  function AddEntry(u: Unicode, scan: Scan, prefix: string, e: RawEntry): Scan {
    var path := prefix + NameOf(u, e);
    Scan(scan.seen + {Fold(u, path)}, scan.members + 1,
         if e.mode == DIRECTORY_MODE then scan.blobs else scan.blobs + [Ref(path, Hex(e.id), ModeBits(e.mode))],
         if e.mode == DIRECTORY_MODE then scan.next + [Dir(path + "/", Hex(e.id))] else scan.next)
  }

  function ScanTree(u: Unicode, scan: Scan, prefix: string, tree: Bytes): Option<Scan>
    decreases |tree|
  {
    if tree == "" then Some(scan) else
      match ParseEntry(tree)
      case None => None
      case Some(p) =>
        if EntryOk(u, scan, prefix, p.entry) then ScanTree(u, AddEntry(u, scan, prefix, p.entry), prefix, p.rest)
        else None
  }

  function ScanTrees(u: Unicode, scan: Scan, pending: seq<Dir>, trees: seq<Bytes>): Option<Scan>
    requires |pending| == |trees|
    decreases |pending|
  {
    if pending == [] then Some(scan) else
      match ScanTree(u, scan, pending[0].prefix, trees[0])
      case None => None
      case Some(s) => ScanTrees(u, s, pending[1..], trees[1..])
  }

  function EntryCount(u: Unicode, scan: Scan, prefix: string, e: RawEntry): nat {
    scan.members + if EntryCounts(u, scan, prefix, e) then 1 else 0
  }

  /** The entries counted when a tree is read or refused. */
  function TreeCount(u: Unicode, scan: Scan, prefix: string, tree: Bytes): nat
    decreases |tree|
  {
    if tree == "" then scan.members else
      match ParseEntry(tree)
      case None => scan.members
      case Some(p) =>
        if EntryOk(u, scan, prefix, p.entry) then TreeCount(u, AddEntry(u, scan, prefix, p.entry), prefix, p.rest)
        else EntryCount(u, scan, prefix, p.entry)
  }

  /** The entries counted when a level is read or refused. */
  function LevelCount(u: Unicode, scan: Scan, pending: seq<Dir>, trees: seq<Bytes>): nat
    requires |pending| == |trees|
    decreases |pending|
  {
    if pending == [] then scan.members else
      match ScanTree(u, scan, pending[0].prefix, trees[0])
      case None => TreeCount(u, scan, pending[0].prefix, trees[0])
      case Some(s) => LevelCount(u, s, pending[1..], trees[1..])
  }

  /** The checks of one entry, in the code's order. */
  method CheckEntry(u: Unicode, scan: Scan, prefix: string, e: RawEntry) returns (r: Option<Scan>, count: nat)
    ensures r == if EntryOk(u, scan, prefix, e) then Some(AddEntry(u, scan, prefix, e)) else None
    ensures count == EntryCount(u, scan, prefix, e)
  {
    count := scan.members;
    if '/' in e.name {
      return None, count;
    }
    var name := u.decode(e.name);
    if name.None? {
      return None, count;
    }
    var path := prefix + name.value;
    var canonical := CheckPath(u, path);
    if !canonical || Fold(u, path) in scan.seen {
      return None, count;
    }
    var seen, oid := scan.seen + {Fold(u, path)}, Hex(e.id);
    count := count + 1;
    if count > MAX_MEMBERS {
      return None, count;
    }
    if e.mode == DIRECTORY_MODE {
      return Some(Scan(seen, count, scan.blobs, scan.next + [Dir(path + "/", oid)])), count;
    } else if e.mode == REGULAR_MODE || e.mode == EXECUTABLE_FILE_MODE {
      return Some(Scan(seen, count, scan.blobs + [Ref(path, oid, OctalValue(e.mode) % 0x200)], scan.next)), count;
    }
    return None, count;
  }

  /** The entry at `offset`, and the offset after it. */
  method EntryAt(tree: Bytes, offset: nat) returns (entry: Option<RawEntry>, next: nat)
    requires offset < |tree|
    ensures offset <= next <= |tree| && (entry.Some? ==> offset < next)
    ensures match ParseEntry(tree[offset..])
            case None => entry == None
            case Some(p) => entry == Some(p.entry) && tree[next..] == p.rest
  {
    ghost var rest := tree[offset..];
    var head := Before(tree[offset..], '\0');
    var end := offset + |head|;
    if end == |tree| || end + 1 + ID_BYTES > |tree| {
      return None, offset;
    }
    var mode := Before(head, ' ');
    if |mode| == |head| {
      return None, offset;
    }
    next := end + 1 + ID_BYTES;
    assert rest[|head| + 1..|head| + 1 + ID_BYTES] == tree[end + 1..next]
           && rest[|head| + 1 + ID_BYTES..] == tree[next..];
    return Some(RawEntry(mode, head[|mode| + 1..], tree[end + 1..next])), next;
  }

  /** The loop over one tree object, by offset. */
  method ScanEntries(u: Unicode, scan: Scan, prefix: string, tree: Bytes) returns (r: Option<Scan>, count: nat)
    ensures r == ScanTree(u, scan, prefix, tree) && count == TreeCount(u, scan, prefix, tree)
  {
    var s, offset := scan, 0;
    assert tree[0..] == tree;
    while offset < |tree|
      invariant 0 <= offset <= |tree|
      invariant ScanTree(u, scan, prefix, tree) == ScanTree(u, s, prefix, tree[offset..])
      invariant TreeCount(u, scan, prefix, tree) == TreeCount(u, s, prefix, tree[offset..])
    {
      var entry;
      entry, offset := EntryAt(tree, offset);
      if entry.None? {
        return None, s.members;
      }
      r, count := CheckEntry(u, s, prefix, entry.value);
      if r.None? {
        return;
      }
      s := r.value;
    }
    return Some(s), s.members;
  }

  /** The loop over one level. */
  method ScanLevel(u: Unicode, scan: Scan, pending: seq<Dir>, trees: seq<Bytes>) returns (r: Option<Scan>, count: nat)
    requires |pending| == |trees|
    ensures r == ScanTrees(u, scan, pending, trees) && count == LevelCount(u, scan, pending, trees)
  {
    var s, k := scan, 0;
    assert pending[0..] == pending && trees[0..] == trees;
    while k < |pending|
      invariant 0 <= k <= |pending|
      invariant ScanTrees(u, scan, pending, trees) == ScanTrees(u, s, pending[k..], trees[k..])
      invariant LevelCount(u, scan, pending, trees) == LevelCount(u, s, pending[k..], trees[k..])
    {
      assert pending[k..][1..] == pending[k + 1..] && trees[k..][1..] == trees[k + 1..];
      r, count := ScanEntries(u, s, pending[k].prefix, trees[k]);
      if r.None? {
        return;
      }
      s := r.value;
      k := k + 1;
    }
    return Some(s), s.members;
  }

  /* ------------------------------------------------------------------ level by level */

  function TreesWanted(pending: seq<Dir>): (wanted: seq<Wanted>)
    ensures |wanted| == |pending| && forall k :: 0 <= k < |pending| ==> wanted[k] == Wanted(pending[k].oid, "tree")
  {
    if pending == [] then [] else [Wanted(pending[0].oid, "tree")] + TreesWanted(pending[1..])
  }

  function BlobsWanted(blobs: seq<Ref>): (wanted: seq<Wanted>)
    ensures |wanted| == |blobs| && forall k :: 0 <= k < |blobs| ==> wanted[k] == Wanted(blobs[k].oid, "blob")
  {
    if blobs == [] then [] else [Wanted(blobs[0].oid, "blob")] + BlobsWanted(blobs[1..])
  }

  /** What the walk found, unless refused; the entries it counted, and what it spent. */
  datatype Walked = Walked(scan: Option<Scan>, members: nat, budget: Budget)

  /** Every call stays within the bytes; one that is answered costs at least one of them. */
  lemma {:induction false} FetchAdvances(address: Address, git: Git, b: Budget, wanted: seq<Wanted>)
    requires b.consumed <= MAX_ARCHIVE_BYTES
    ensures var f := Fetch(address, git, b, wanted);
            && b.consumed <= f.budget.consumed <= MAX_ARCHIVE_BYTES
            && b.calls <= f.budget.calls <= b.calls + 1 && (b.calls <= |git| ==> f.budget.calls <= |git|)
            && (f.contents.Some? ==>
                  && |f.contents.value| == |wanted| && (wanted != [] ==> f.budget.consumed > b.consumed)
                  && forall k :: 0 <= k < |wanted| ==> address(wanted[k].kind, f.contents.value[k]) == wanted[k].oid)
  {
    if Fetch(address, git, b, wanted).contents.Some? {
      DecodedObjects(address, Received(git, b, wanted).result.value.stdout, wanted);
    }
  }

  /** The walk. It ends because every level that is fetched costs at least one byte of the budget. */
  function Walk(u: Unicode, address: Address, git: Git, b: Budget, scan: Scan): Walked
    requires b.consumed <= MAX_ARCHIVE_BYTES
    decreases MAX_ARCHIVE_BYTES - b.consumed
  {
    if scan.next == [] then Walked(Some(scan), scan.members, b) else
      var f := Fetch(address, git, b, TreesWanted(scan.next));
      FetchAdvances(address, git, b, TreesWanted(scan.next));
      if f.contents.None? then Walked(None, scan.members, f.budget) else
        match ScanTrees(u, scan.(next := []), scan.next, f.contents.value)
        case None => Walked(None, LevelCount(u, scan.(next := []), scan.next, f.contents.value), f.budget)
        case Some(s) => Walk(u, address, git, f.budget, s)
  }

  method WalkLevels(u: Unicode, address: Address, git: Git, budget: Budget, start: Scan) returns (r: Walked)
    requires budget.consumed <= MAX_ARCHIVE_BYTES
    ensures r == Walk(u, address, git, budget, start)
  {
    var b, s := budget, start;
    while s.next != []
      invariant b.consumed <= MAX_ARCHIVE_BYTES
      invariant Walk(u, address, git, budget, start) == Walk(u, address, git, b, s)
      decreases MAX_ARCHIVE_BYTES - b.consumed
    {
      var trees := FetchObjects(address, git, b, TreesWanted(s.next));
      FetchAdvances(address, git, b, TreesWanted(s.next));
      if trees.contents.None? {
        return Walked(None, s.members, trees.budget);
      }
      var scanned, count := ScanLevel(u, s.(next := []), s.next, trees.contents.value);
      if scanned.None? {
        return Walked(None, count, trees.budget);
      }
      b, s := trees.budget, scanned.value;
    }
    return Walked(Some(s), s.members, b);
  }

  /* ------------------------------------------------------------------ the whole recovery */

  const TREE_LINE := "tree "
  const OID_DIGITS: nat := 40

  predicate HexText(s: string) {
    |s| == OID_DIGITS && forall c <- s :: IsDigit(c) || 'a' <= c <= 'f'
  }

  /** The tree that a commit object names in its first line. */
  function TreeOfCommit(commit: Bytes): Option<string> {
    var line := Before(commit, '\n');
    if |line| == |TREE_LINE| + OID_DIGITS && line[..|TREE_LINE|] == TREE_LINE && HexText(line[|TREE_LINE|..])
    then Some(line[|TREE_LINE|..]) else None
  }

  function FilesFrom(blobs: seq<Ref>, contents: seq<Bytes>): (files: seq<SourceFile>)
    requires |blobs| == |contents|
    ensures |files| == |blobs|
    ensures forall k :: 0 <= k < |blobs| ==> files[k] == SourceFile(blobs[k].path, contents[k], blobs[k].mode)
  {
    if blobs == [] then []
    else [SourceFile(blobs[0].path, contents[0], blobs[0].mode)] + FilesFrom(blobs[1..], contents[1..])
  }

  const Nothing := Scan({}, 0, [], [])

  /** Files with the tree they were found in and the references they were fetched by. */
  datatype Recovered = Recovered(files: seq<SourceFile>, tree: string, blobs: seq<Ref>)

  /** The files, unless refused; the entries counted, and what was spent. */
  datatype Recovery = Recovery(recovered: Option<Recovered>, members: nat, budget: Budget)

  function RecoverBlobs(address: Address, git: Git, tree: string, w: Walked): Recovery
    requires w.budget.consumed <= MAX_ARCHIVE_BYTES
  {
    if w.scan.None? || w.scan.value.blobs == [] then Recovery(None, w.members, w.budget) else
      var blobs := w.scan.value.blobs;
      var f := Fetch(address, git, w.budget, BlobsWanted(blobs));
      FetchAdvances(address, git, w.budget, BlobsWanted(blobs));
      if f.contents.None? then Recovery(None, w.members, f.budget)
      else Recovery(Some(Recovered(FilesFrom(blobs, f.contents.value), tree, blobs)), w.members, f.budget)
  }

  /** The three stages: the commit, the walk from its tree, the contents of what the walk found. */
  function Recover(u: Unicode, address: Address, git: Git, commit: string): Recovery {
    if !HexText(commit) then Recovery(None, 0, Budget(0, 0)) else
      var head := Fetch(address, git, Budget(0, 0), [Wanted(commit, "commit")]);
      FetchAdvances(address, git, Budget(0, 0), [Wanted(commit, "commit")]);
      if head.contents.None? || TreeOfCommit(head.contents.value[0]).None? then Recovery(None, 0, head.budget) else
        var tree := TreeOfCommit(head.contents.value[0]).value;
        WalkBudget(u, address, git, head.budget, StartAt(tree));
        RecoverBlobs(address, git, tree, Walk(u, address, git, head.budget, StartAt(tree)))
  }

  function StartAt(tree: string): Scan {
    Nothing.(next := [Dir("", tree)])
  }

  /** The recovered files are a snapshot with the expected tree digest. */
  predicate Bound(u: Unicode, h: Hashing, r: Option<Recovered>, expected: string) {
    r.Some? && SnapshotOk(u, r.value.files) && TreeDigest(h, r.value.files) == expected
  }

  method RecoverSource(u: Unicode, address: Address, git: Git, commit: string) returns (r: Recovery)
    ensures r == Recover(u, address, git, commit)
  {
    if !HexText(commit) {
      return Recovery(None, 0, Budget(0, 0));
    }
    var head := FetchObjects(address, git, Budget(0, 0), [Wanted(commit, "commit")]);
    FetchAdvances(address, git, Budget(0, 0), [Wanted(commit, "commit")]);
    if head.contents.None? {
      return Recovery(None, 0, head.budget);
    }
    var tree := TreeOfCommit(head.contents.value[0]);
    if tree.None? {
      return Recovery(None, 0, head.budget);
    }
    var walked := WalkLevels(u, address, git, head.budget, StartAt(tree.value));
    WalkBudget(u, address, git, head.budget, StartAt(tree.value));
    r := FetchBlobs(address, git, tree.value, walked);
  }

  /** The last stage: the files' contents, all in one process. */
  method FetchBlobs(address: Address, git: Git, tree: string, w: Walked) returns (r: Recovery)
    requires w.budget.consumed <= MAX_ARCHIVE_BYTES
    ensures r == RecoverBlobs(address, git, tree, w)
  {
    if w.scan.None? || w.scan.value.blobs == [] {
      return Recovery(None, w.members, w.budget);
    }
    var blobs := w.scan.value.blobs;
    var objects := FetchObjects(address, git, w.budget, BlobsWanted(blobs));
    FetchAdvances(address, git, w.budget, BlobsWanted(blobs));
    if objects.contents.None? {
      return Recovery(None, w.members, objects.budget);
    }
    return Recovery(Some(Recovered(FilesFrom(blobs, objects.contents.value), tree, blobs)), w.members, objects.budget);
  }

  /** The file constructor's checks, one file after the other. */
  method CheckFiles(u: Unicode, files: seq<SourceFile>) returns (ok: bool)
    ensures ok <==> FilesOk(u, files)
  {
    var i := 0;
    while i < |files|
      invariant 0 <= i <= |files|
      invariant forall k :: 0 <= k < i ==> FileOk(u, files[k])
    {
      var canonical := CheckPath(u, files[i].path);
      if !canonical || |files[i].content| > MAX_FILE_BYTES
      || (files[i].mode != PLAIN_MODE && files[i].mode != EXECUTABLE_MODE) {
        assert files[i] in files && !FileOk(u, files[i]);
        return false;
      }
      i := i + 1;
    }
    return true;
  }

  /** `read_committed_source`: the files, or a refusal. */
  method ReadCommitted(u: Unicode, h: Hashing, address: Address, git: Git, commit: string, expected: string)
    returns (r: Option<seq<SourceFile>>)
    requires Lawful(u)
    ensures r.Some? <==> Bound(u, h, Recover(u, address, git, commit).recovered, expected)
    ensures r.Some? ==> r.value == Recover(u, address, git, commit).recovered.value.files
  {
    var recovery := RecoverSource(u, address, git, commit);
    if recovery.recovered.None? {
      return None;
    }
    var files := recovery.recovered.value.files;
    var total := SumContents(files);
    if total > MAX_SOURCE_BYTES {
      return None;
    }
    var valid := CheckFiles(u, files);
    if !valid {
      return None;
    }
    var ok := Construct(u, files);
    if !ok || TreeDigest(h, files) != expected {
      return None;
    }
    return Some(files);
  }

  /* ------------------------------------------------------------------ budgets */

  /** Every process but the last one was answered, and each answer cost at least a byte. */
  predicate Spent(git: Git, b: Budget) {
    b.consumed <= MAX_ARCHIVE_BYTES && b.calls <= |git| && b.calls <= b.consumed + 1
  }

  /** Between two processes. */
  predicate Paid(git: Git, b: Budget) {
    b.consumed <= MAX_ARCHIVE_BYTES && b.calls <= |git| && b.calls <= b.consumed
  }

  lemma {:induction false} WalkBudget(u: Unicode, address: Address, git: Git, b: Budget, scan: Scan)
    requires b.consumed <= MAX_ARCHIVE_BYTES
    ensures b.consumed <= Walk(u, address, git, b, scan).budget.consumed <= MAX_ARCHIVE_BYTES
    decreases MAX_ARCHIVE_BYTES - b.consumed
  {
    if scan.next != [] {
      var f := Fetch(address, git, b, TreesWanted(scan.next));
      FetchAdvances(address, git, b, TreesWanted(scan.next));
      if f.contents.Some? {
        var s := ScanTrees(u, scan.(next := []), scan.next, f.contents.value);
        if s.Some? {
          WalkBudget(u, address, git, f.budget, s.value);
        }
      }
    }
  }

  lemma {:induction false} WalkCalls(u: Unicode, address: Address, git: Git, b: Budget, scan: Scan)
    requires Paid(git, b)
    ensures var w := Walk(u, address, git, b, scan);
            Spent(git, w.budget) && (w.scan.Some? ==> Paid(git, w.budget))
    decreases MAX_ARCHIVE_BYTES - b.consumed
  {
    if scan.next != [] {
      var f := Fetch(address, git, b, TreesWanted(scan.next));
      FetchAdvances(address, git, b, TreesWanted(scan.next));
      if f.contents.Some? {
        var s := ScanTrees(u, scan.(next := []), scan.next, f.contents.value);
        if s.Some? {
          WalkCalls(u, address, git, f.budget, s.value);
        }
      }
    }
  }

  /** The files found are among the entries counted, which are within the limit. */
  predicate Counted(scan: Scan) {
    |scan.blobs| <= scan.members <= MAX_MEMBERS
  }

  lemma {:induction false} TreeCounts(u: Unicode, scan: Scan, prefix: string, tree: Bytes)
    requires Counted(scan)
    ensures var r := ScanTree(u, scan, prefix, tree);
            && TreeCount(u, scan, prefix, tree) <= MAX_MEMBERS + 1
            && (r.Some? ==> Counted(r.value) && r.value.members == TreeCount(u, scan, prefix, tree))
    decreases |tree|
  {
    if tree != "" && ParseEntry(tree).Some? {
      var p := ParseEntry(tree).value;
      if EntryOk(u, scan, prefix, p.entry) {
        TreeCounts(u, AddEntry(u, scan, prefix, p.entry), prefix, p.rest);
      }
    }
  }

  lemma {:induction false} LevelCounts(u: Unicode, scan: Scan, pending: seq<Dir>, trees: seq<Bytes>)
    requires |pending| == |trees| && Counted(scan)
    ensures var r := ScanTrees(u, scan, pending, trees);
            LevelCount(u, scan, pending, trees) <= MAX_MEMBERS + 1 && (r.Some? ==> Counted(r.value))
    decreases |pending|
  {
    if pending != [] {
      TreeCounts(u, scan, pending[0].prefix, trees[0]);
      if ScanTree(u, scan, pending[0].prefix, trees[0]).Some? {
        LevelCounts(u, ScanTree(u, scan, pending[0].prefix, trees[0]).value, pending[1..], trees[1..]);
      }
    }
  }

  lemma {:induction false} WalkCounts(u: Unicode, address: Address, git: Git, b: Budget, scan: Scan)
    requires b.consumed <= MAX_ARCHIVE_BYTES && Counted(scan)
    ensures var w := Walk(u, address, git, b, scan);
            w.members <= MAX_MEMBERS + 1
            && (w.scan.Some? ==> Counted(w.scan.value) && w.members == w.scan.value.members)
    decreases MAX_ARCHIVE_BYTES - b.consumed
  {
    if scan.next != [] {
      var f := Fetch(address, git, b, TreesWanted(scan.next));
      FetchAdvances(address, git, b, TreesWanted(scan.next));
      if f.contents.Some? {
        var level := scan.(next := []);
        LevelCounts(u, level, scan.next, f.contents.value);
        if ScanTrees(u, level, scan.next, f.contents.value).Some? {
          WalkCounts(u, address, git, f.budget, ScanTrees(u, level, scan.next, f.contents.value).value);
        }
      }
    }
  }

  /**
   * On any object database, cyclic or hostile, whatever its processes print and however it ends, the
   * recovery keeps at most `MAX_ARCHIVE_BYTES`, starts at most one process more than it kept bytes,
   * and counts at most `MAX_MEMBERS` entries and the one that it refuses; an accepted one stays
   * within the member limit.
   */
  lemma {:induction false} RecoveryBudgets(u: Unicode, address: Address, git: Git, commit: string)
    ensures var r := Recover(u, address, git, commit);
            && r.budget.consumed <= MAX_ARCHIVE_BYTES
            && r.budget.calls <= |git| && r.budget.calls <= r.budget.consumed + 1
            && r.members <= MAX_MEMBERS + 1
            && (r.recovered.Some? ==>
                 |r.recovered.value.files| == |r.recovered.value.blobs| <= r.members <= MAX_MEMBERS)
  {
    if HexText(commit) {
      var head := Fetch(address, git, Budget(0, 0), [Wanted(commit, "commit")]);
      FetchAdvances(address, git, Budget(0, 0), [Wanted(commit, "commit")]);
      if head.contents.Some? && TreeOfCommit(head.contents.value[0]).Some? {
        var tree := TreeOfCommit(head.contents.value[0]).value;
        WalkBudget(u, address, git, head.budget, StartAt(tree));
        WalkCalls(u, address, git, head.budget, StartAt(tree));
        WalkCounts(u, address, git, head.budget, StartAt(tree));
        BlobsBudget(address, git, tree, Walk(u, address, git, head.budget, StartAt(tree)));
      }
    }
  }

  lemma {:induction false} BlobsBudget(address: Address, git: Git, tree: string, w: Walked)
    requires Spent(git, w.budget) && (w.scan.Some? ==> Paid(git, w.budget) && |w.scan.value.blobs| <= w.members)
    ensures var r := RecoverBlobs(address, git, tree, w);
            && Spent(git, r.budget) && r.members == w.members
            && (r.recovered.Some? ==>
                 w.scan.Some? && |r.recovered.value.files| == |r.recovered.value.blobs| <= r.members)
  {
    if w.scan.Some? {
      FetchAdvances(address, git, w.budget, BlobsWanted(w.scan.value.blobs));
    }
  }
}
