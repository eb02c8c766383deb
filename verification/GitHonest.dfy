/**
 * Recovery from an honest object database: when every process prints exactly what Git has for the
 * objects it was asked for, the recovery accepts exactly the trees that satisfy its rules and fit its
 * budgets, and refuses nothing else.
 */
module GitHonest {
  import opened Basics
  import opened SourcePaths
  import opened GitFraming
  import opened Snapshot
  import opened GitWalk
  import opened GitFlatten
  import opened GitRefusals
  import P = Process

  /* ------------------------------------------------------------------ one honest process */

  /** Whatever the bound, the child's answer comes through exactly when it fits. */
  ghost predicate Serves(hs: seq<P.Happening>, input: Bytes, answer: Bytes) {
    forall limit: nat ::
      P.Drain(input, limit, hs, 0, P.Opened).result == if |answer| <= limit
          then Some(P.CommandResult(0, answer, "")) else None
  }

  /** So it is for a child that, undisturbed and successful, printed `answer` and nothing else. */
  lemma {:induction false} HonestChild(hs: seq<P.Happening>, input: Bytes, answer: Bytes, n: nat)
    requires n < |hs| && P.EndsFirst(input, hs, n) && P.Undisturbed(hs[..n])
    requires P.ResultAt(hs, n) == P.CommandResult(0, answer, "")
    ensures Serves(hs, input, answer)
  {
    forall limit: nat
      ensures P.Drain(input, limit, hs, 0, P.Opened).result
              == if |answer| <= limit then Some(P.CommandResult(0, answer, "")) else None
    {
      P.DrainIff(input, limit, hs);
      if |answer| <= limit {
        assert P.Completes(input, limit, hs, n);
      } else {
        OnlyOneEnd(hs, input, limit, n);
      }
    }
  }

  lemma {:induction false} OnlyOneEnd(hs: seq<P.Happening>, input: Bytes, limit: nat, n: nat)
    requires n < |hs| && P.EndsFirst(input, hs, n) && !P.Completes(input, limit, hs, n)
    ensures forall m :: 0 <= m < |hs| ==> !P.Completes(input, limit, hs, m)
  {
    forall m | 0 <= m < |hs|
      ensures !P.Completes(input, limit, hs, m)
    {
      if m < n { assert !P.Ends(input, hs, m); }
      if n < m { assert P.Ends(input, hs, n); }
    }
  }

  /** A file above its limit is refused wherever it comes in the answer. */
  lemma {:induction false} BigFrame(address: Address, w: Wanted, content: Bytes, rest: Bytes)
    requires PlainField(w.oid) && PlainField(w.kind) && |content| > Limit(w.kind)
    ensures ParseFrame(address, Frame(w, Decimal(|content|), content) + rest, w) == None
  {
    var text := Decimal(|content|);
    var header, payload, body := Header(w, text), Frame(w, text, content) + rest, content + ['\n'] + rest;
    DecimalRoundTrip(|content|);
    DigitsPlain(text);
    SplitThree(w.oid, w.kind, text, ' ');
    assert payload == header + ['\n'] + body;
    BeforeAt(header, '\n', body);
  }

  /** The objects asked for: named by content, with plain names. */
  predicate Named(address: Address, wanted: seq<Wanted>, contents: seq<Bytes>) {
    && |wanted| == |contents|
    && forall k :: 0 <= k < |wanted| ==>
         HexText(wanted[k].oid) && KnownKind(wanted[k].kind) && address(wanted[k].kind, contents[k]) == wanted[k].oid
  }

  predicate KnownKind(kind: string) {
    kind == "commit" || kind == "tree" || kind == "blob"
  }

  predicate AllSmall(wanted: seq<Wanted>, contents: seq<Bytes>) {
    |wanted| == |contents| && forall k :: 0 <= k < |wanted| ==> |contents[k]| <= Limit(wanted[k].kind)
  }

  lemma {:induction false} HexPlain(oid: string)
    requires HexText(oid)
    ensures PlainField(oid)
  {
  }

  /** An honest answer decodes to the objects exactly when none is above its limit. */
  lemma {:induction false} HonestDecode(address: Address, wanted: seq<Wanted>, contents: seq<Bytes>)
    requires Named(address, wanted, contents)
    ensures Decode(address, Encode(wanted, contents), wanted) == if AllSmall(wanted, contents) then Some(contents)
                else None
    decreases |wanted|
  {
    if wanted != [] {
      var w, content, rest := wanted[0], contents[0], Encode(wanted[1..], contents[1..]);
      HonestDecode(address, wanted[1..], contents[1..]);
      SmallCons(wanted, contents);
      HonestFrame(address, w, content, rest);
      DecodeCons(address, Encode(wanted, contents), wanted, content, rest);
      assert [content] + contents[1..] == contents;
    }
  }

  lemma {:induction false} HonestFrame(address: Address, w: Wanted, content: Bytes, rest: Bytes)
    requires HexText(w.oid) && KnownKind(w.kind) && address(w.kind, content) == w.oid
    ensures ParseFrame(address, Frame(w, Decimal(|content|), content) + rest, w)
            == if |content| <= Limit(w.kind) then Some(Framed(content, rest)) else None
  {
    HexPlain(w.oid);
    if |content| <= Limit(w.kind) {
      SizeShort(|content|);
      FrameParses(address, w, Decimal(|content|), content, rest);
    } else {
      BigFrame(address, w, content, rest);
    }
  }

  lemma {:induction false} DecodeCons(address: Address, payload: Bytes, wanted: seq<Wanted>, content: Bytes,
                                      rest: Bytes)
    requires wanted != []
    ensures ParseFrame(address, payload, wanted[0]) == Some(Framed(content, rest)) ==>
              Decode(address, payload, wanted) == Prepend([content], Decode(address, rest, wanted[1..]))
    ensures ParseFrame(address, payload, wanted[0]) == None ==> Decode(address, payload, wanted) == None
  {
  }

  lemma {:induction false} SmallCons(wanted: seq<Wanted>, contents: seq<Bytes>)
    requires |wanted| == |contents| && wanted != []
    ensures AllSmall(wanted, contents)
            <==> |contents[0]| <= Limit(wanted[0].kind) && AllSmall(wanted[1..], contents[1..])
  {
    if AllSmall(wanted[1..], contents[1..]) && |contents[0]| <= Limit(wanted[0].kind) {
      forall k | 0 <= k < |wanted|
        ensures |contents[k]| <= Limit(wanted[k].kind)
      {
        if k > 0 {
          assert contents[k] == contents[1..][k - 1] && wanted[k] == wanted[1..][k - 1];
        }
      }
    }
  }

  /** The next process answers the request for `wanted` honestly. */
  ghost predicate ServesNext(git: Git, calls: nat, wanted: seq<Wanted>, contents: seq<Bytes>) {
    calls < |git| && |wanted| == |contents| && Serves(git[calls], InputOf(wanted), Encode(wanted, contents))
  }

  lemma {:induction false} HonestFetch(address: Address, git: Git, b: Budget, wanted: seq<Wanted>, contents: seq<Bytes>)
    requires b.consumed <= MAX_ARCHIVE_BYTES && wanted != []
    requires Named(address, wanted, contents) && ServesNext(git, b.calls, wanted, contents)
    ensures var f, total := Fetch(address, git, b, wanted), b.consumed + |Encode(wanted, contents)|;
            && (f.contents == if total <= MAX_ARCHIVE_BYTES && AllSmall(wanted, contents) then Some(contents) else None)
            && (f.contents.Some? ==> f.budget == Budget(b.calls + 1, total))
  {
    HonestDecode(address, wanted, contents);
    EncodesSome(wanted, contents);
    ServedFetch(address, git, b, wanted, Encode(wanted, contents));
  }

  lemma {:induction false} ServedFetch(address: Address, git: Git, b: Budget, wanted: seq<Wanted>, answer: Bytes)
    requires b.consumed <= MAX_ARCHIVE_BYTES && b.calls < |git| && answer != ""
    requires Serves(git[b.calls], InputOf(wanted), answer)
    ensures var f, total := Fetch(address, git, b, wanted), b.consumed + |answer|;
            && (f.contents == if total <= MAX_ARCHIVE_BYTES then Decode(address, answer, wanted) else None)
            && (f.contents.Some? ==> f.budget == Budget(b.calls + 1, total))
  {
    var d := Received(git, b, wanted);
    assert d.result == if |answer| <= MAX_ARCHIVE_BYTES - b.consumed then Some(P.CommandResult(0, answer, ""))
               else None;
  }

  lemma {:induction false} EncodesSome(wanted: seq<Wanted>, contents: seq<Bytes>)
    requires wanted != [] && |wanted| == |contents|
    ensures |Encode(wanted, contents)| > 0
  {
    assert |Frame(wanted[0], Decimal(|contents[0]|), contents[0])| > 0;
  }

  /* ------------------------------------------------------------------ the tree below a level */

  /**
   * What the repository has for a commit: the commit object, its trees level by level in the order in
   * which the walk comes to them, and the contents of its files in the order in which they are found.
   */
  datatype History = History(head: Bytes, levels: seq<seq<Bytes>>, contents: seq<Bytes>)

  /** A tree from some level down: its entries in the order they are read, its files, and what reading it costs. */
  datatype Subtree = Subtree(entries: seq<Placed>, files: seq<Ref>, cost: Budget)

  /** One more level on top: one more process, and what it prints. */
  function OnTop(u: Unicode, dirs: seq<Dir>, trees: seq<Bytes>, below: Subtree): Subtree
    requires |dirs| == |trees|
  {
    Subtree(LevelEntries(dirs, trees) + below.entries, LevelFiles(u, dirs, trees) + below.files,
            Budget(below.cost.calls + 1, below.cost.consumed + |Encode(TreesWanted(dirs), trees)|))
  }

  /** Every tree of the level is within its limit and well formed. */
  predicate LevelReadable(dirs: seq<Dir>, trees: seq<Bytes>) {
    AllSmall(TreesWanted(dirs), trees) && AllParse(trees)
  }

  /** The subtree of a readable level, from that of the next. */
  function OverNext(u: Unicode, dirs: seq<Dir>, trees: seq<Bytes>, below: Option<Subtree>): Option<Subtree>
    requires |dirs| == |trees|
  {
    if LevelReadable(dirs, trees) && below.Some? then Some(OnTop(u, dirs, trees, below.value)) else None
  }

  /** The tree from the `i`-th level down, when every tree in it is readable. */
  function Below(u: Unicode, levels: seq<seq<Bytes>>, i: nat, dirs: seq<Dir>): Option<Subtree>
    requires i <= |levels|
    decreases |levels| - i
  {
    if dirs == [] then Some(Subtree([], [], Budget(0, 0)))
    else if i == |levels| || |levels[i]| != |dirs| then None
    else OverNext(u, dirs, levels[i], Below(u, levels, i + 1, LevelDirs(u, dirs, levels[i])))
  }

  /** Every level that the walk comes to is answered honestly, with trees that have the addresses asked for. */
  ghost predicate ServedWalk(u: Unicode, address: Address, git: Git, calls: nat, levels: seq<seq<Bytes>>, i: nat,
                             dirs: seq<Dir>)
    requires i <= |levels|
    decreases |levels| - i
  {
    dirs != [] ==>
      && i < |levels| && Addressed(address, dirs, levels[i])
      && ServesNext(git, calls, TreesWanted(dirs), levels[i])
      && (LevelReadable(dirs, levels[i]) ==>
            ServedWalk(u, address, git, calls + 1, levels, i + 1, LevelDirs(u, dirs, levels[i])))
  }

  /* ---- the addresses that trees hold are plain ---- */

  predicate PlainDirs(dirs: seq<Dir>) {
    forall d <- dirs :: HexText(d.oid)
  }

  predicate PlainRefs(refs: seq<Ref>) {
    forall r <- refs :: HexText(r.oid)
  }

  lemma {:induction false} HexDigits(b: Bytes)
    ensures |Hex(b)| == 2 * |b| && forall c <- Hex(b) :: IsDigit(c) || 'a' <= c <= 'f'
    decreases |b|
  {
    if b != "" {
      HexDigits(b[1..]);
    }
  }

  lemma {:induction false} EntriesPlain(u: Unicode, prefix: string, es: seq<RawEntry>)
    requires forall e <- es :: |e.id| == ID_BYTES
    ensures PlainDirs(DirsIn(u, prefix, es)) && PlainRefs(FilesIn(u, prefix, es))
    decreases |es|
  {
    if es != [] {
      HexDigits(es[0].id);
      assert es[0] in es && forall e <- es[1..] :: e in es;
      EntriesPlain(u, prefix, es[1..]);
    }
  }

  lemma {:induction false} LevelPlain(u: Unicode, dirs: seq<Dir>, trees: seq<Bytes>)
    requires |dirs| == |trees| && AllParse(trees)
    ensures PlainDirs(LevelDirs(u, dirs, trees)) && PlainRefs(LevelFiles(u, dirs, trees))
    decreases |dirs|
  {
    if dirs != [] {
      assert trees[0] in trees && forall t <- trees[1..] :: t in trees;
      var es := ParseTree(trees[0]).value;
      ParsedTree(trees[0], es);
      assert forall e <- es :: EntryShaped(e);
      EntriesPlain(u, dirs[0].prefix, es);
      LevelPlain(u, dirs[1..], trees[1..]);
    }
  }

  /** Whatever the database, the walk asks for nothing but plain addresses. */
  lemma {:induction false} WalkPlain(u: Unicode, address: Address, git: Git, b: Budget, scan: Scan)
    requires b.consumed <= MAX_ARCHIVE_BYTES && PlainRefs(scan.blobs)
    ensures var w := Walk(u, address, git, b, scan); w.scan.Some? ==> PlainRefs(w.scan.value.blobs)
    decreases MAX_ARCHIVE_BYTES - b.consumed
  {
    if scan.next != [] {
      var f := Fetch(address, git, b, TreesWanted(scan.next));
      FetchAdvances(address, git, b, TreesWanted(scan.next));
      if f.contents.Some? && ScanTrees(u, scan.(next := []), scan.next, f.contents.value).Some? {
        LevelAdds(u, scan.(next := []), scan.next, f.contents.value);
        LevelPlain(u, scan.next, f.contents.value);
        WalkPlain(u, address, git, f.budget, ScanTrees(u, scan.(next := []), scan.next, f.contents.value).value);
      }
    }
  }

  lemma {:induction false} TreesNamed(address: Address, dirs: seq<Dir>, trees: seq<Bytes>)
    requires Addressed(address, dirs, trees) && PlainDirs(dirs)
    ensures Named(address, TreesWanted(dirs), trees)
  {
    forall k | 0 <= k < |dirs|
      ensures HexText(dirs[k].oid)
    {
      assert dirs[k] in dirs;
    }
  }

  /* ------------------------------------------------------------------ the walk */

  /** The entries can be added to the scan one after the other. */
  predicate Takes(u: Unicode, scan: Scan, ps: seq<Placed>) {
    ScanPlaced(u, scan.(next := []), ps).Some?
  }

  lemma {:induction false} TakesIff(u: Unicode, scan: Scan, ps: seq<Placed>)
    ensures Takes(u, scan, ps) <==> Acceptable(u, scan, ps)
  {
    PlacedIff(u, scan.(next := []), ps);
  }

  lemma {:induction false} TakesNext(u: Unicode, s: Scan, ps: seq<Placed>)
    ensures Takes(u, s, ps) <==> ScanPlaced(u, s, ps).Some?
  {
    TakesIff(u, s, ps);
    PlacedIff(u, s, ps);
  }

  lemma {:induction false} TakesAppend(u: Unicode, scan: Scan, a: seq<Placed>, b: seq<Placed>)
    ensures var first := ScanPlaced(u, scan.(next := []), a);
            Takes(u, scan, a + b) <==> first.Some? && Takes(u, first.value, b)
  {
    PlacedAppend(u, scan.(next := []), a, b);
    if ScanPlaced(u, scan.(next := []), a).Some? {
      TakesNext(u, ScanPlaced(u, scan.(next := []), a).value, b);
    }
  }

  /** The tree below is readable, fits the bytes that are left, and all its entries can be added. */
  predicate Fits(u: Unicode, b: Budget, scan: Scan, t: Option<Subtree>) {
    t.Some? && b.consumed + t.value.cost.consumed <= MAX_ARCHIVE_BYTES && Takes(u, scan, t.value.entries)
  }

  /** What an honest walk accepts, and what it then holds and has spent. */
  predicate WalksTo(u: Unicode, b: Budget, scan: Scan, t: Option<Subtree>, w: Walked) {
    && (w.scan.Some? <==> Fits(u, b, scan, t))
    && (w.scan.Some? ==>
          && w.scan.value.blobs == scan.blobs + t.value.files
          && w.budget == Budget(b.calls + t.value.cost.calls, b.consumed + t.value.cost.consumed))
  }

  /** One level: it is accepted exactly when it is readable, fits the bytes, and its entries are acceptable. */
  lemma {:induction false} HonestLevel(u: Unicode, address: Address, git: Git, b: Budget, scan: Scan, trees: seq<Bytes>)
    requires b.consumed <= MAX_ARCHIVE_BYTES && scan.next != [] && PlainDirs(scan.next)
    requires Addressed(address, scan.next, trees) && ServesNext(git, b.calls, TreesWanted(scan.next), trees)
    ensures var f, level := Fetch(address, git, b, TreesWanted(scan.next)), scan.(next := []);
            var total := b.consumed + |Encode(TreesWanted(scan.next), trees)|;
            && (f.contents == if total <= MAX_ARCHIVE_BYTES && AllSmall(TreesWanted(scan.next), trees)
                   then Some(trees) else None)
            && (f.contents.Some? ==> f.budget == Budget(b.calls + 1, total))
            && (AllParse(trees) ==>
                 ScanTrees(u, level, scan.next, trees) == ScanPlaced(u, level, LevelEntries(scan.next, trees)))
            && (!AllParse(trees) ==> ScanTrees(u, level, scan.next, trees).None?)
  {
    TreesNamed(address, scan.next, trees);
    HonestFetch(address, git, b, TreesWanted(scan.next), trees);
    LevelAcceptedIff(u, scan.(next := []), scan.next, trees);
    if AllParse(trees) {
      LevelIsPlaced(u, scan.(next := []), scan.next, trees);
    }
  }

  lemma {:induction false} WalkStep(u: Unicode, address: Address, git: Git, b: Budget, scan: Scan, trees: seq<Bytes>)
    requires b.consumed <= MAX_ARCHIVE_BYTES && scan.next != [] && |trees| == |scan.next|
    requires Fetch(address, git, b, TreesWanted(scan.next)).contents.Some? ==>
               Fetch(address, git, b, TreesWanted(scan.next)).contents.value == trees
    ensures var f := Fetch(address, git, b, TreesWanted(scan.next));
            var s := ScanTrees(u, scan.(next := []), scan.next, trees);
            && f.budget.consumed <= MAX_ARCHIVE_BYTES
            && (f.contents.Some? && s.Some? ==>
                 Walk(u, address, git, b, scan) == Walk(u, address, git, f.budget, s.value))
            && (f.contents.None? || s.None? ==> Walk(u, address, git, b, scan).scan.None?)
  {
    FetchAdvances(address, git, b, TreesWanted(scan.next));
  }

  lemma {:induction false} HonestWalk(u: Unicode, address: Address, git: Git, b: Budget, scan: Scan,
                                      levels: seq<seq<Bytes>>, i: nat)
    requires b.consumed <= MAX_ARCHIVE_BYTES && PlainDirs(scan.next) && i <= |levels|
    requires ServedWalk(u, address, git, b.calls, levels, i, scan.next)
    ensures WalksTo(u, b, scan, Below(u, levels, i, scan.next), Walk(u, address, git, b, scan))
    decreases |levels| - i, 1
  {
    if scan.next == [] {
      assert scan.blobs + [] == scan.blobs;
    } else {
      var dirs, trees := scan.next, levels[i];
      HonestLevel(u, address, git, b, scan, trees);
      WalkStep(u, address, git, b, scan, trees);
      var f, s := Fetch(address, git, b, TreesWanted(dirs)), ScanTrees(u, scan.(next := []), dirs, trees);
      if f.contents.Some? && s.Some? {
        NextLevel(u, scan, trees, s.value);
        HonestNext(u, address, git, b, scan, levels, i, s.value, f.budget);
      } else {
        WalksNot(u, b, scan, trees, Below(u, levels, i + 1, LevelDirs(u, dirs, trees)));
      }
    }
  }

  /** From an accepted level to the next one. */
  lemma {:induction false} HonestNext(u: Unicode, address: Address, git: Git, b: Budget, scan: Scan,
                                      levels: seq<seq<Bytes>>, i: nat, s: Scan, after: Budget)
    requires i < |levels| && |scan.next| == |levels[i]| && LevelReadable(scan.next, levels[i])
    requires after == Budget(b.calls + 1, b.consumed + |Encode(TreesWanted(scan.next), levels[i])|)
             && after.consumed <= MAX_ARCHIVE_BYTES
    requires s.blobs == scan.blobs + LevelFiles(u, scan.next, levels[i]) && PlainDirs(s.next)
    requires ScanPlaced(u, scan.(next := []), LevelEntries(scan.next, levels[i])) == Some(s)
    requires ServedWalk(u, address, git, after.calls, levels, i + 1, s.next)
    ensures WalksTo(u, b, scan, OverNext(u, scan.next, levels[i], Below(u, levels, i + 1, s.next)),
                Walk(u, address, git, after, s))
    decreases |levels| - i, 0
  {
    HonestWalk(u, address, git, after, s, levels, i + 1);
    WalksOn(u, b, scan, levels[i], s, Below(u, levels, i + 1, s.next), Walk(u, address, git, after, s));
  }

  /** What the scan of an accepted level holds. */
  lemma {:induction false} NextLevel(u: Unicode, scan: Scan, trees: seq<Bytes>, s: Scan)
    requires |scan.next| == |trees| && ScanTrees(u, scan.(next := []), scan.next, trees) == Some(s) && AllParse(trees)
    ensures s.next == LevelDirs(u, scan.next, trees) && PlainDirs(s.next)
    ensures s.blobs == scan.blobs + LevelFiles(u, scan.next, trees)
    ensures ScanPlaced(u, scan.(next := []), LevelEntries(scan.next, trees)) == Some(s)
  {
    LevelAdds(u, scan.(next := []), scan.next, trees);
    LevelPlain(u, scan.next, trees);
    LevelIsPlaced(u, scan.(next := []), scan.next, trees);
  }

  /** The rest of the walk from the next level is the rest from this one. */
  lemma {:induction false} WalksOn(u: Unicode, b: Budget, scan: Scan, trees: seq<Bytes>, s: Scan,
                                   below: Option<Subtree>, w: Walked)
    requires |scan.next| == |trees| && LevelReadable(scan.next, trees)
    requires ScanPlaced(u, scan.(next := []), LevelEntries(scan.next, trees)) == Some(s)
    requires s.blobs == scan.blobs + LevelFiles(u, scan.next, trees)
    requires WalksTo(u, Budget(b.calls + 1, b.consumed + |Encode(TreesWanted(scan.next), trees)|), s, below, w)
    ensures WalksTo(u, b, scan, OverNext(u, scan.next, trees, below), w)
  {
    if below.Some? {
      TakesAppend(u, scan, LevelEntries(scan.next, trees), below.value.entries);
      Associates(scan.blobs, LevelFiles(u, scan.next, trees), below.value.files);
    }
  }

  /** A level that is not readable, does not fit, or whose entries cannot be added, is where nothing fits. */
  lemma {:induction false} WalksNot(u: Unicode, b: Budget, scan: Scan, trees: seq<Bytes>, below: Option<Subtree>)
    requires |scan.next| == |trees|
    requires LevelReadable(scan.next, trees) ==>
               || b.consumed + |Encode(TreesWanted(scan.next), trees)| > MAX_ARCHIVE_BYTES
               || ScanPlaced(u, scan.(next := []), LevelEntries(scan.next, trees)).None?
    ensures !Fits(u, b, scan, OverNext(u, scan.next, trees, below))
  {
    if below.Some? {
      TakesAppend(u, scan, LevelEntries(scan.next, trees), below.value.entries);
    }
  }

  /* ------------------------------------------------------------------ the whole recovery */

  /** The first level: the tree that the commit names. */
  function Top(head: Bytes): seq<Dir>
    requires TreeOfCommit(head).Some?
  {
    [Dir("", TreeOfCommit(head).value)]
  }

  /** The commit's tree, when the commit and all trees are readable. */
  function CommitTree(u: Unicode, r: History): Option<Subtree> {
    if |r.head| <= MAX_OBJECT_BYTES && TreeOfCommit(r.head).Some? then Below(u, r.levels, 0, Top(r.head)) else None
  }

  /** Everything that an accepted recovery must satisfy. */
  predicate Admissible(u: Unicode, commit: string, r: History) {
    && CommitTree(u, r).Some?
    && var t := CommitTree(u, r).value;
    && Acceptable(u, Nothing, t.entries)
    && t.files != [] && AllSmall(BlobsWanted(t.files), r.contents)
    && |Encode([Wanted(commit, "commit")], [r.head])| + t.cost.consumed + |Encode(BlobsWanted(t.files), r.contents)|
       <= MAX_ARCHIVE_BYTES
  }

  /** Git answers all three stages honestly, as far as the recovery comes to ask. */
  ghost predicate ServedRecovery(u: Unicode, address: Address, git: Git, commit: string, r: History) {
    && address("commit", r.head) == commit && ServesNext(git, 0, [Wanted(commit, "commit")], [r.head])
    && (|r.head| <= MAX_OBJECT_BYTES && TreeOfCommit(r.head).Some? ==>
         ServedWalk(u, address, git, 1, r.levels, 0, Top(r.head)))
    && (CommitTree(u, r).Some? ==>
          ServedBlobs(address, git, 1 + CommitTree(u, r).value.cost.calls, CommitTree(u, r).value.files, r.contents))
  }

  ghost predicate ServedBlobs(address: Address, git: Git, calls: nat, blobs: seq<Ref>, contents: seq<Bytes>) {
    && |blobs| == |contents| && (forall k :: 0 <= k < |blobs| ==> address("blob", contents[k]) == blobs[k].oid)
    && (blobs != [] ==> ServesNext(git, calls, BlobsWanted(blobs), contents))
  }

  lemma {:induction false} BlobsNamed(address: Address, git: Git, calls: nat, blobs: seq<Ref>, contents: seq<Bytes>)
    requires ServedBlobs(address, git, calls, blobs, contents) && PlainRefs(blobs)
    ensures Named(address, BlobsWanted(blobs), contents)
  {
    forall k | 0 <= k < |blobs|
      ensures HexText(blobs[k].oid)
    {
      assert blobs[k] in blobs;
    }
  }

  lemma {:induction false} HonestBlobs(address: Address, git: Git, tree: string, w: Walked, contents: seq<Bytes>)
    requires w.scan.Some? && w.budget.consumed <= MAX_ARCHIVE_BYTES && PlainRefs(w.scan.value.blobs)
    requires ServedBlobs(address, git, w.budget.calls, w.scan.value.blobs, contents)
    ensures var blobs := w.scan.value.blobs;
            RecoverBlobs(address, git, tree, w).recovered
            == if && blobs != [] && AllSmall(BlobsWanted(blobs), contents)
                  && w.budget.consumed + |Encode(BlobsWanted(blobs), contents)| <= MAX_ARCHIVE_BYTES
               then Some(Recovered(FilesFrom(blobs, contents), tree, blobs)) else None
  {
    var blobs := w.scan.value.blobs;
    if blobs != [] {
      BlobsNamed(address, git, w.budget.calls, blobs, contents);
      HonestFetch(address, git, w.budget, BlobsWanted(blobs), contents);
    }
  }

  /** The files at their paths, with the contents that their addresses name. */
  function HonestFiles(u: Unicode, r: History): Recovered
    requires CommitTree(u, r).Some? && |CommitTree(u, r).value.files| == |r.contents|
  {
    var files := CommitTree(u, r).value.files;
    Recovered(FilesFrom(files, r.contents), TreeOfCommit(r.head).value, files)
  }

  /** With the commit read, the walk and what is left for the files. */
  lemma {:induction false} HonestTrees(u: Unicode, address: Address, git: Git, commit: string, r: History, b: Budget)
    requires ServedRecovery(u, address, git, commit, r) && |r.head| <= MAX_OBJECT_BYTES && TreeOfCommit(r.head).Some?
    requires b.calls == 1 && b.consumed <= MAX_ARCHIVE_BYTES
    ensures var w := Walk(u, address, git, b, StartAt(TreeOfCommit(r.head).value));
            && WalksTo(u, b, StartAt(TreeOfCommit(r.head).value), CommitTree(u, r), w)
               && w.budget.consumed <= MAX_ARCHIVE_BYTES
            && (w.scan.Some? ==> PlainRefs(w.scan.value.blobs) && w.scan.value.blobs == CommitTree(u, r).value.files)
  {
    var start := StartAt(TreeOfCommit(r.head).value);
    HonestWalk(u, address, git, b, start, r.levels, 0);
    WalkBudget(u, address, git, b, start);
    WalkPlain(u, address, git, b, start);
  }

  lemma {:induction false} HonestFromHead(u: Unicode, address: Address, git: Git, commit: string, r: History, b: Budget)
    requires ServedRecovery(u, address, git, commit, r) && |r.head| <= MAX_OBJECT_BYTES && TreeOfCommit(r.head).Some?
    requires b == Budget(1, |Encode([Wanted(commit, "commit")], [r.head])|) && b.consumed <= MAX_ARCHIVE_BYTES
    ensures var w := Walk(u, address, git, b, StartAt(TreeOfCommit(r.head).value));
            && w.budget.consumed <= MAX_ARCHIVE_BYTES
            && RecoverBlobs(address, git, TreeOfCommit(r.head).value, w).recovered
               == if Admissible(u, commit, r) then Some(HonestFiles(u, r)) else None
  {
    var start := StartAt(TreeOfCommit(r.head).value);
    HonestTrees(u, address, git, commit, r, b);
    var w := Walk(u, address, git, b, start);
    if CommitTree(u, r).Some? {
      TakesIff(u, start, CommitTree(u, r).value.entries);
    }
    if w.scan.Some? {
      HonestBlobs(address, git, TreeOfCommit(r.head).value, w, r.contents);
    }
  }

  /**
   * Against an honest database the recovery is exact: it accepts if and only if the commit and every
   * tree are well formed and within their limits, every entry is acceptable, there is a file, no file
   * is above its limit, and all that was printed fits the byte budget; and it then returns every file
   * below the commit with its content.
   */
  lemma {:induction false} HonestRecoveryIff(u: Unicode, address: Address, git: Git, commit: string, r: History)
    requires HexText(commit) && ServedRecovery(u, address, git, commit, r)
    ensures Recover(u, address, git, commit).recovered == if Admissible(u, commit, r) then Some(HonestFiles(u, r))
                else None
  {
    var wanted := [Wanted(commit, "commit")];
    HonestFetch(address, git, Budget(0, 0), wanted, [r.head]);
    var f := Fetch(address, git, Budget(0, 0), wanted);
    FetchAdvances(address, git, Budget(0, 0), wanted);
    if f.contents.Some? && TreeOfCommit(r.head).Some? {
      HonestFromHead(u, address, git, commit, r, f.budget);
    }
  }
}
