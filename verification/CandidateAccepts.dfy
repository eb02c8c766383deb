/** Which patches are applied and which are shown, said of the original files alone and of no order of changes. */
module CandidateAccepts {
  import opened Basics
  import opened SourcePaths
  import opened Snapshot
  import opened SnapshotArchive
  import opened Candidate

  /* ------------------------------------------------------------------ one change */

  /** The permission bits of the new file: stated, or those of the file before it, or 644. */
  function Bits(c: Change, before: Option<SourceFile>): nat {
    match c.mode
    case Regular644 => 6 * 64 + 4 * 8 + 4
    case Executable755 => 7 * 64 + 5 * 8 + 5
    case _ => if before.Some? then before.value.mode else 6 * 64 + 4 * 8 + 4
  }

  /** What a change leaves where `before` was. */
  function AfterChange(u: Unicode, c: Change, before: Option<SourceFile>): Option<SourceFile> {
    match c.content
    case None => None
    case Some(text) => Some(SourceFile(c.path, u.encode(text), Bits(c, before)))
  }

  lemma {:induction false} NewFileIs(u: Unicode, c: Change, before: Option<SourceFile>)
    ensures NewFile(u, c, before) == AfterChange(u, c, before)
  {
  }

  ghost predicate Canonical(u: Unicode, path: string) {
    exists parts :: PartsOk(u, path, parts)
  }

  /** The change can be made: a deletion of a file that is there, or at most 256 KiB in a known mode. */
  ghost predicate Makeable(u: Unicode, c: Change, before: Option<SourceFile>) {
    && Canonical(u, c.path)
    && match c.content
       case None => before.Some?
       case Some(text) => |u.encode(text)| <= 262144 && !c.mode.OtherMode?
  }

  lemma {:induction false} MakeableIff(u: Unicode, files: seq<SourceFile>, c: Change)
    requires Lookup(files, c.path).Some? ==> FileOk(u, Lookup(files, c.path).value)
    ensures Applicable(u, files, c) <==> Makeable(u, c, Lookup(files, c.path))
  {
    PathOkIff(u, c.path);
  }

  /* ------------------------------------------------------------------ the applied patch */

  /** `built` holds what every change leaves at its path, and the original files everywhere else. */
  ghost predicate Outcome(u: Unicode, base: seq<SourceFile>, changes: seq<Change>, built: seq<SourceFile>) {
    && DistinctPaths(built)
    && (forall c <- changes :: Lookup(built, c.path) == AfterChange(u, c, Lookup(base, c.path)))
    && forall path :: !ChangesPath(changes, path) ==> Lookup(built, path) == Lookup(base, path)
  }

  lemma {:induction false} AppliesIff(u: Unicode, base: seq<SourceFile>, changes: seq<Change>, n: nat)
    requires n <= |changes| && FilesOk(u, base) && DistinctPaths(base) && DistinctTargets(changes)
    ensures ApplyAll(u, base, changes[..n]).Some?
            <==> forall k :: 0 <= k < n ==> Makeable(u, changes[k], Lookup(base, changes[k].path))
    decreases n
  {
    if n > 0 {
      AppliesIff(u, base, changes, n - 1);
      assert changes[..n][..n - 1] == changes[..n - 1];
      if ApplyAll(u, base, changes[..n - 1]).Some? {
        NextApplies(u, base, changes, n - 1);
      }
    }
  }

  lemma {:induction false} NextApplies(u: Unicode, base: seq<SourceFile>, changes: seq<Change>, n: nat)
    requires n < |changes| && FilesOk(u, base) && DistinctPaths(base) && DistinctTargets(changes)
    requires ApplyAll(u, base, changes[..n]).Some?
    ensures Applicable(u, ApplyAll(u, base, changes[..n]).value, changes[n])
            <==> Makeable(u, changes[n], Lookup(base, changes[n].path))
  {
    var path := changes[n].path;
    UntouchedPath(u, base, changes[..n], path);
    assert !ChangesPath(changes[..n], path);
    LookupNamed(base, path);
    MakeableIff(u, ApplyAll(u, base, changes[..n]).value, changes[n]);
  }

  lemma {:induction false} AppliedOutcome(u: Unicode, base: seq<SourceFile>, changes: seq<Change>)
    requires DistinctPaths(base) && DistinctTargets(changes) && ApplyAll(u, base, changes).Some?
    ensures Outcome(u, base, changes, ApplyAll(u, base, changes).value)
  {
    var built := ApplyAll(u, base, changes).value;
    UntouchedPath(u, base, changes, "");
    forall c | c in changes
      ensures Lookup(built, c.path) == AfterChange(u, c, Lookup(base, c.path))
    {
      var k :| 0 <= k < |changes| && changes[k] == c;
      ChangedPathHolds(u, base, changes, k);
      NewFileIs(u, c, Lookup(base, c.path));
    }
    forall path | !ChangesPath(changes, path)
      ensures Lookup(built, path) == Lookup(base, path)
    {
      UntouchedPath(u, base, changes, path);
    }
  }

  lemma {:induction false} Once(files: seq<SourceFile>, f: SourceFile)
    requires DistinctPaths(files)
    ensures multiset(files)[f] == if f in files then 1 else 0
    decreases |files|
  {
    if files != [] {
      var n := |files| - 1;
      assert files == files[..n] + [files[n]];
      Once(files[..n], f);
    }
  }

  /** Two lists of distinct paths that hold the same at every path are permutations. */
  lemma {:induction false} SameEverywhere(a: seq<SourceFile>, b: seq<SourceFile>)
    requires DistinctPaths(a) && DistinctPaths(b) && forall path :: Lookup(a, path) == Lookup(b, path)
    ensures multiset(a) == multiset(b)
  {
    forall f
      ensures multiset(a)[f] == multiset(b)[f]
    {
      Once(a, f);
      Once(b, f);
      LookupNamed(a, f.path);
      LookupNamed(b, f.path);
      if f in a { LookupOf(a, f); }
      if f in b { LookupOf(b, f); }
    }
  }

  /** What is a snapshot in one order is one in every order. */
  lemma {:induction false} PermutedSnapshot(u: Unicode, a: seq<SourceFile>, b: seq<SourceFile>)
    requires DistinctPaths(a) && DistinctPaths(b) && multiset(a) == multiset(b) && SnapshotOk(u, a)
    ensures SnapshotOk(u, b)
  {
    SameElements(a, b);
    SortOrders(a);
    SortOrders(b);
    SortElements(a);
    SortElements(b);
    OrderedUnique(Sort(a), Sort(b));
    TotalSort(a);
    TotalSort(b);
    DistinctFolds(u, b);
  }

  lemma {:induction false} OneOutcome(u: Unicode, base: seq<SourceFile>, changes: seq<Change>, a: seq<SourceFile>,
                                      b: seq<SourceFile>)
    requires Outcome(u, base, changes, a) && Outcome(u, base, changes, b)
    ensures multiset(a) == multiset(b)
  {
    forall path
      ensures Lookup(a, path) == Lookup(b, path)
    {
      if ChangesPath(changes, path) {
        var c :| c in changes && c.path == path;
      }
    }
    SameEverywhere(a, b);
  }

  /** The bytes that the first `n` changes send. */
  function SentTo(u: Unicode, changes: seq<Change>, n: nat): nat
    requires n <= |changes|
  {
    if n == 0 then 0 else
      SentTo(u, changes, n - 1)
      + if changes[n - 1].content.Some? then |u.encode(changes[n - 1].content.value)| else 0
  }

  lemma {:induction false} SentIs(u: Unicode, changes: seq<Change>, n: nat)
    requires n <= |changes|
    ensures PatchBytes(u, changes[..n]) == SentTo(u, changes, n)
    decreases n
  {
    if n > 0 {
      SentIs(u, changes, n - 1);
      assert changes[..n][..n - 1] == changes[..n - 1];
    }
  }

  /** The patch, the surface and the base that go with each other. */
  ghost predicate Presented(u: Unicode, h: Hashing, base: seq<SourceFile>, patch: Patch, surface: seq<string>) {
    && patch.approved && patch.intact && patch.allowed && patch.baseDigest == TreeDigest(h, base)
    && |surface| > 0 && (forall path <- surface :: Canonical(u, path))
    && |patch.changes| > 0 && SentTo(u, patch.changes, |patch.changes|) <= 2097152
    && forall j, k :: 0 <= j < k < |patch.changes| ==> Fold(u, patch.changes[j].path) != Fold(u, patch.changes[k].path)
  }

  lemma {:induction false} PresentedIff(u: Unicode, h: Hashing, base: seq<SourceFile>, patch: Patch,
                                        surface: seq<string>)
    ensures Preparable(u, h, base, patch, surface) <==> Presented(u, h, base, patch, surface)
  {
    SentIs(u, patch.changes, |patch.changes|);
    assert patch.changes[..|patch.changes|] == patch.changes;
    forall path | path in surface
      ensures PathOk(u, path) <==> Canonical(u, path)
    {
      PathOkIff(u, path);
    }
  }

  /**
   * A candidate is prepared exactly when the patch is approved, intact, allowed, of this base and
   * within its bytes, every change can be made to the original file at its path, and the files that
   * all of them leave are a snapshot; these files, in whatever order, are the candidate.
   */
  lemma {:induction false} PreparedIff(u: Unicode, h: Hashing, base: seq<SourceFile>, patch: Patch,
                                       surface: seq<string>)
    requires SnapshotOk(u, base)
    ensures Prepare(u, h, base, patch, surface).Some?
            <==> && Presented(u, h, base, patch, surface)
                 && (forall k :: 0 <= k < |patch.changes| ==>
                       Makeable(u, patch.changes[k], Lookup(base, patch.changes[k].path)))
                 && exists built :: Outcome(u, base, patch.changes, built) && SnapshotOk(u, built)
    ensures forall built ::
              Prepare(u, h, base, patch, surface).Some? && Outcome(u, base, patch.changes, built) ==>
                multiset(built) == multiset(Prepare(u, h, base, patch, surface).value.files)
  {
    SameFoldDifferent(u, base);
    PreparedFrom(u, h, base, patch, surface);
    if Presented(u, h, base, patch, surface) {
      AppliesIff(u, base, patch.changes, |patch.changes|);
      assert patch.changes[..|patch.changes|] == patch.changes;
      if ApplyAll(u, base, patch.changes).Some? {
        AppliedAccepted(u, base, patch.changes);
      }
    }
  }

  lemma {:induction false} PreparedFrom(u: Unicode, h: Hashing, base: seq<SourceFile>, patch: Patch,
                                        surface: seq<string>)
    ensures var p, applied := Prepare(u, h, base, patch, surface), ApplyAll(u, base, patch.changes);
            && (p.Some? <==> Presented(u, h, base, patch, surface) && applied.Some? && SnapshotOk(u, applied.value))
            && (p.Some? ==> p.value.files == applied.value)
    ensures Presented(u, h, base, patch, surface) ==> DistinctTargets(patch.changes)
  {
    PresentedIff(u, h, base, patch, surface);
  }

  lemma {:induction false} AppliedAccepted(u: Unicode, base: seq<SourceFile>, changes: seq<Change>)
    requires DistinctPaths(base) && DistinctTargets(changes) && ApplyAll(u, base, changes).Some?
    ensures SnapshotOk(u, ApplyAll(u, base, changes).value)
            <==> exists built :: Outcome(u, base, changes, built) && SnapshotOk(u, built)
    ensures forall built ::
              Outcome(u, base, changes, built) ==> multiset(built) == multiset(ApplyAll(u, base, changes).value)
  {
    var applied := ApplyAll(u, base, changes).value;
    AppliedOutcome(u, base, changes);
    forall built | Outcome(u, base, changes, built)
      ensures multiset(built) == multiset(applied) && (SnapshotOk(u, built) ==> SnapshotOk(u, applied))
    {
      OneOutcome(u, base, changes, built, applied);
      if SnapshotOk(u, built) {
        PermutedSnapshot(u, built, applied);
      }
    }
  }

  /* ------------------------------------------------------------------ the shown patch */

  function Feeds(text: string): nat {
    if text == "" then 0 else Feeds(text[1..]) + if text[0] == '\n' then 1 else 0
  }

  /** A line for every LF, and one for text after the last. */
  function Lines(text: string): nat {
    Feeds(text) + if text != "" && text[|text| - 1] != '\n' then 1 else 0
  }

  lemma {:induction false} FeedsAfter(head: string, rest: string)
    requires '\n' !in head
    ensures Feeds(head + rest) == Feeds(rest)
    decreases |head|
  {
    if head == "" {
      assert head + rest == rest;
    } else {
      assert (head + rest)[1..] == head[1..] + rest && head[0] in head;
      FeedsAfter(head[1..], rest);
    }
  }

  lemma {:induction false} SplitNext(head: string, more: string)
    requires '\n' !in head
    ensures var text := head + ['\n'] + more;
            && Feeds(text) == Feeds(more) + 1 && SplitOn(text, '\n') == [head] + SplitOn(more, '\n')
            && text[|text| - 1] == if more == "" then '\n' else more[|more| - 1]
  {
    var text, rest := head + ['\n'] + more, ['\n'] + more;
    assert text == head + rest && rest[1..] == more;
    FeedsAfter(head, rest);
    BeforeAt(head, '\n', more);
    assert text[|head| + 1..] == more;
  }

  lemma {:induction false} SplitFeeds(text: string)
    ensures var parts := SplitOn(text, '\n');
            && |parts| == Feeds(text) + 1
            && (parts[|parts| - 1] == "" <==> text == "" || text[|text| - 1] == '\n')
    decreases |text|
  {
    var head := Before(text, '\n');
    if |head| < |text| {
      var more := text[|head| + 1..];
      assert text == head + ['\n'] + more;
      SplitNext(head, more);
      SplitFeeds(more);
    } else {
      FeedsAfter(text, "");
      assert head == text && text + "" == text && SplitOn(text, '\n') == [text];
      assert text != "" ==> text[|text| - 1] in head;
    }
  }

  lemma {:induction false} LinesAre(text: string)
    ensures LineCount(text) == Lines(text)
  {
    SplitFeeds(text);
  }

  /** A file that a person can be shown: at most 256 KiB of text in at most 4000 lines. */
  predicate Viewable(u: Unicode, f: Option<SourceFile>) {
    f.Some? ==>
      && |f.value.content| <= 262144 && '\0' !in f.value.content && u.decode(f.value.content).Some?
      && Lines(u.decode(f.value.content).value) <= 4000
  }

  /** The change can be shown next to the original: text both times, on a path that is the original's or is new. */
  ghost predicate Reviewable(u: Unicode, base: seq<SourceFile>, c: Change) {
    var before := Lookup(base, c.path);
    var after := AfterChange(u, c, before);
    && !c.binary && !c.mode.OtherMode?
    && (before.None? ==> c.content.Some? && forall f <- base :: Fold(u, f.path) != Fold(u, c.path))
    && (after.Some? ==>
          Canonical(u, c.path) && (after.value.mode == 6 * 64 + 4 * 8 + 4 || after.value.mode == 7 * 64 + 5 * 8 + 5))
    && Viewable(u, before) && Viewable(u, after)
  }

  lemma {:induction false} ReviewableIff(u: Unicode, base: seq<SourceFile>, c: Change)
    ensures Comparable(u, base, c) <==> Reviewable(u, base, c)
  {
    var before := Lookup(base, c.path);
    NewFileIs(u, c, before);
    PathOkIff(u, c.path);
    if before.Some? && u.decode(before.value.content).Some? {
      LinesAre(u.decode(before.value.content).value);
    }
    var after := AfterChange(u, c, before);
    if after.Some? && u.decode(after.value.content).Some? {
      LinesAre(u.decode(after.value.content).value);
    }
  }

  function LinesOf(u: Unicode, f: Option<SourceFile>): nat {
    if f.Some? && u.decode(f.value.content).Some? then Lines(u.decode(f.value.content).value) else 0
  }

  function BytesOf(u: Unicode, f: Option<SourceFile>): nat {
    if f.Some? && u.decode(f.value.content).Some? then |f.value.content| else 0
  }

  /** Lines and bytes on both sides of the first `n` changes. */
  function LinesTo(u: Unicode, base: seq<SourceFile>, changes: seq<Change>, n: nat): nat
    requires n <= |changes|
  {
    if n == 0 then 0 else
      var before := Lookup(base, changes[n - 1].path);
      LinesTo(u, base, changes, n - 1) + LinesOf(u, before) + LinesOf(u, AfterChange(u, changes[n - 1], before))
  }

  function BytesTo(u: Unicode, base: seq<SourceFile>, changes: seq<Change>, n: nat): nat
    requires n <= |changes|
  {
    if n == 0 then 0 else
      var before := Lookup(base, changes[n - 1].path);
      BytesTo(u, base, changes, n - 1) + BytesOf(u, before) + BytesOf(u, AfterChange(u, changes[n - 1], before))
  }

  lemma {:induction false} SidesAre(u: Unicode, f: Option<SourceFile>)
    ensures SideLines(SideOf(u, f)) == LinesOf(u, f) && SideBytes(SideOf(u, f)) == BytesOf(u, f)
  {
    if f.Some? && u.decode(f.value.content).Some? {
      LinesAre(u.decode(f.value.content).value);
    }
  }

  lemma {:induction false} TotalsAre(u: Unicode, base: seq<SourceFile>, changes: seq<Change>, n: nat)
    requires n <= |changes|
    ensures TotalLines(ShowAll(u, base, changes[..n])) == LinesTo(u, base, changes, n)
    ensures TotalBytes(ShowAll(u, base, changes[..n])) == BytesTo(u, base, changes, n)
    decreases n
  {
    if n > 0 {
      TotalsAre(u, base, changes, n - 1);
      ShownNext(u, base, changes, n - 1);
      var before := Lookup(base, changes[n - 1].path);
      SidesAre(u, before);
      SidesAre(u, AfterChange(u, changes[n - 1], before));
      NewFileIs(u, changes[n - 1], before);
    }
  }

  lemma {:induction false} AllReviewable(u: Unicode, base: seq<SourceFile>, changes: seq<Change>, n: nat)
    requires n <= |changes|
    ensures AllComparable(u, base, changes[..n])
            <==> forall k :: 0 <= k < n ==> Reviewable(u, base, changes[k])
    decreases n
  {
    if n > 0 {
      AllReviewable(u, base, changes, n - 1);
      ReviewableIff(u, base, changes[n - 1]);
      assert changes[..n][..n - 1] == changes[..n - 1];
    }
  }

  /** The changes of a patch that a person can read as a whole. */
  ghost predicate Readable(u: Unicode, base: seq<SourceFile>, changes: seq<Change>) {
    && (forall k :: 0 <= k < |changes| ==> Reviewable(u, base, changes[k]))
    && LinesTo(u, base, changes, |changes|) <= 20000 && BytesTo(u, base, changes, |changes|) <= 2097152
  }

  lemma {:induction false} ReadableIff(u: Unicode, base: seq<SourceFile>, changes: seq<Change>)
    ensures WithinBudgets(u, base, changes) <==> Readable(u, base, changes)
  {
    TotalsAre(u, base, changes, |changes|);
    AllReviewable(u, base, changes, |changes|);
    assert changes[..|changes|] == changes;
  }

  /** A comparison is made exactly when the patch is intact and of this base, and small and clear enough to be read. */
  lemma {:induction false} ComparedIff(u: Unicode, h: Hashing, base: seq<SourceFile>, patch: Patch,
                                       surface: seq<string>)
    ensures var changes := patch.changes;
            Compare(u, h, base, patch, surface).Some?
            <==> && patch.intact && patch.acceptable && patch.baseDigest == TreeDigest(h, base)
                 && |surface| > 0 && 1 <= |changes| <= 20 && Readable(u, base, changes)
                 && forall j, k :: 0 <= j < k < |changes| ==> Fold(u, changes[j].path) != Fold(u, changes[k].path)
  {
    ReadableIff(u, base, patch.changes);
    assert Compare(u, h, base, patch, surface).Some?
           <==> && TreeDigest(h, base) == patch.baseDigest && patch.intact && surface != [] && patch.acceptable
                && 1 <= |patch.changes| <= 20 && DistinctChanges(u, patch.changes)
                && WithinBudgets(u, base, patch.changes);
  }

  /** The side shows the file: its text, its bytes and its mode; or nothing, when there is none. */
  predicate Shows(u: Unicode, f: Option<SourceFile>, side: Option<Side>) {
    match (f, side)
    case (None, None) => true
    case (Some(file), Some(s)) =>
      u.decode(file.content) == Some(s.text) && s.byteLength == |file.content| && s.mode == file.mode
    case _ => false
  }

  /** What is shown of each change: the original file at its path, what the change leaves, and whether they differ. */
  lemma {:induction false} ComparedAs(u: Unicode, h: Hashing, base: seq<SourceFile>, patch: Patch, surface: seq<string>,
                                      k: nat)
    requires Compare(u, h, base, patch, surface).Some? && k < |patch.changes|
    ensures var shown := Compare(u, h, base, patch, surface).value; var c := patch.changes[k];
            && |shown| == |patch.changes| && shown[k].path == c.path
            && Shows(u, Lookup(base, c.path), shown[k].before)
            && Shows(u, AfterChange(u, c, Lookup(base, c.path)), shown[k].after)
            && (shown[k].changed <==> Lookup(base, c.path) != AfterChange(u, c, Lookup(base, c.path)))
  {
    ComparedIff(u, h, base, patch, surface);
    NewFileIs(u, patch.changes[k], Lookup(base, patch.changes[k].path));
  }
}
