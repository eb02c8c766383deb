/**
 * Applying an approved patch, and the separate comparison that a human reviews before approving it.
 *
 * The patch policy's verdicts, the approval check and the patch digest are facts of the patch record
 * (`Patch`); the applied bytes, the shown bytes and their agreement are what is modelled here.
 */
module Candidate {
  import opened Basics
  import opened SourcePaths
  import opened Snapshot
  import opened SnapshotArchive

  const MAX_CHANGE_BYTES: nat := 256 * 1024
  const MAX_PATCH_BYTES: nat := 2 * 1024 * 1024
  const MAX_COMPARISON_FILES: nat := 20
  const MAX_COMPARISON_BYTES: nat := 2 * 1024 * 1024
  const MAX_COMPARISON_LINES: nat := 20000
  const MAX_FILE_LINES: nat := 4000

  datatype GitMode = Unstated | Regular644 | Executable755 | OtherMode(text: string)

  datatype Change = Change(path: string, content: Option<string>, mode: GitMode, binary: bool)

  /**
   * `intact` is the recorded digest of the changes; `approved`, `allowed` and `acceptable` are the
   * approval's and the policy's verdicts.
   */
  datatype Patch = Patch(changes: seq<Change>, baseDigest: string, intact: bool, approved: bool, allowed: bool,
      acceptable: bool)

  function Lookup(files: seq<SourceFile>, path: string): Option<SourceFile> {
    if files == [] then None
    else if files[0].path == path then Some(files[0])
    else Lookup(files[1..], path)
  }

  /** A stated mode, or the prior file's, or the plain one. */
  function ModeFor(c: Change, prior: Option<SourceFile>): nat {
    match c.mode
    case Regular644 => PLAIN_MODE
    case Executable755 => EXECUTABLE_MODE
    case _ => if prior.Some? then prior.value.mode else PLAIN_MODE
  }

  /** The file that a change leaves at its path. */
  function NewFile(u: Unicode, c: Change, prior: Option<SourceFile>): Option<SourceFile> {
    if c.content.None? then None else Some(SourceFile(c.path, u.encode(c.content.value), ModeFor(c, prior)))
  }

  /* ------------------------------------------------------------------ preparing the candidate */

  /** The dictionary of entries, in insertion order. */
  function Put(files: seq<SourceFile>, f: SourceFile): seq<SourceFile> {
    if files == [] then [f]
    else if files[0].path == f.path then [f] + files[1..]
    else [files[0]] + Put(files[1..], f)
  }

  function Remove(files: seq<SourceFile>, path: string): seq<SourceFile> {
    if files == [] then []
    else if files[0].path == path then files[1..]
    else [files[0]] + Remove(files[1..], path)
  }

  predicate Applicable(u: Unicode, files: seq<SourceFile>, c: Change) {
    && PathOk(u, c.path)
    && (c.content.None? ==> Lookup(files, c.path).Some?)
    && (c.content.Some? ==>
          && |u.encode(c.content.value)| <= MAX_CHANGE_BYTES && !c.mode.OtherMode?
          && FileOk(u, NewFile(u, c, Lookup(files, c.path)).value))
  }

  function ApplyOne(u: Unicode, files: seq<SourceFile>, c: Change): seq<SourceFile> {
    match NewFile(u, c, Lookup(files, c.path))
    case None => Remove(files, c.path)
    case Some(f) => Put(files, f)
  }

  function PatchBytes(u: Unicode, changes: seq<Change>): nat {
    if changes == [] then 0 else
      PatchBytes(u, changes[..|changes| - 1]) + if changes[|changes| - 1].content.Some?
          then |u.encode(changes[|changes| - 1].content.value)| else 0
  }

  /** Every change applied in order, when each can be. */
  function ApplyAll(u: Unicode, files: seq<SourceFile>, changes: seq<Change>): Option<seq<SourceFile>> {
    if changes == [] then Some(files) else
      match ApplyAll(u, files, changes[..|changes| - 1])
      case None => None
      case Some(fs) =>
        if Applicable(u, fs, changes[|changes| - 1]) then Some(ApplyOne(u, fs, changes[|changes| - 1])) else None
  }

  predicate DistinctChanges(u: Unicode, changes: seq<Change>) {
    forall i, j :: 0 <= i < j < |changes| ==> Fold(u, changes[i].path) != Fold(u, changes[j].path)
  }

  /** The paths whose file differs between the two snapshots. */
  function ChangedPaths(before: seq<SourceFile>, after: seq<SourceFile>): set<string> {
    set f | f in before + after && Lookup(before, f.path) != Lookup(after, f.path) :: f.path
  }

  datatype Prepared = Prepared(files: seq<SourceFile>, changed: set<string>)

  /** What `prepare_candidate` demands of its arguments. */
  predicate Preparable(u: Unicode, h: Hashing, base: seq<SourceFile>, patch: Patch, surface: seq<string>) {
    && patch.approved && TreeDigest(h, base) == patch.baseDigest && patch.intact
    && surface != [] && patch.changes != [] && (forall p <- surface :: PathOk(u, p)) && patch.allowed
    && DistinctChanges(u, patch.changes) && PatchBytes(u, patch.changes) <= MAX_PATCH_BYTES
  }

  function Prepare(u: Unicode, h: Hashing, base: seq<SourceFile>, patch: Patch,
                   surface: seq<string>): Option<Prepared> {
    if Preparable(u, h, base, patch, surface) then Built(u, base, ApplyAll(u, base, patch.changes)) else None
  }

  /** The candidate, when the changes applied and what they leave is a snapshot. */
  function Built(u: Unicode, base: seq<SourceFile>, applied: Option<seq<SourceFile>>): Option<Prepared> {
    match applied
    case None => None
    case Some(files) => if SnapshotOk(u, files) then Some(Prepared(files, ChangedPaths(base, files))) else None
  }

  /* ------------------------------------------------------------------ the comparison */

  datatype Side = Side(text: string, byteLength: nat, mode: nat)

  datatype Shown = Shown(path: string, before: Option<Side>, after: Option<Side>, changed: bool)

  /** One line per LF, and a last one for what follows it. */
  function LineCount(text: string): nat {
    if text == "" then 0 else
      var parts := SplitOn(text, '\n');
      |parts| - (if parts[|parts| - 1] == "" then 1 else 0)
  }

  predicate Showable(u: Unicode, f: Option<SourceFile>) {
    f.Some? ==>
      && |f.value.content| <= MAX_CHANGE_BYTES && '\0' !in f.value.content && u.decode(f.value.content).Some?
      && LineCount(u.decode(f.value.content).value) <= MAX_FILE_LINES
  }

  function SideOf(u: Unicode, f: Option<SourceFile>): Option<Side> {
    if f.None? || u.decode(f.value.content).None? then None
    else Some(Side(u.decode(f.value.content).value, |f.value.content|, f.value.mode))
  }

  function SideLines(side: Option<Side>): nat {
    if side.Some? then LineCount(side.value.text) else 0
  }

  function SideBytes(side: Option<Side>): nat {
    if side.Some? then side.value.byteLength else 0
  }

  predicate Comparable(u: Unicode, base: seq<SourceFile>, c: Change) {
    var prior := Lookup(base, c.path);
    && (prior.None? ==> forall f <- base :: Fold(u, f.path) != Fold(u, c.path))
    && (c.content.None? ==> prior.Some?)
    && !c.binary && !c.mode.OtherMode?
    && (c.content.Some? ==> FileOk(u, NewFile(u, c, prior).value))
    && Showable(u, prior) && Showable(u, NewFile(u, c, prior))
  }

  predicate AllComparable(u: Unicode, base: seq<SourceFile>, changes: seq<Change>) {
    changes != [] ==> AllComparable(u, base, changes[..|changes| - 1]) && Comparable(u, base, changes[|changes| - 1])
  }

  lemma {:induction false} ComparableAt(u: Unicode, base: seq<SourceFile>, changes: seq<Change>, k: nat)
    requires AllComparable(u, base, changes) && k < |changes|
    ensures Comparable(u, base, changes[k])
    decreases |changes|
  {
    if k < |changes| - 1 {
      ComparableAt(u, base, changes[..|changes| - 1], k);
    }
  }

  function ShowOne(u: Unicode, base: seq<SourceFile>, c: Change): Shown {
    var prior := Lookup(base, c.path);
    var next := NewFile(u, c, prior);
    Shown(c.path, SideOf(u, prior), SideOf(u, next), prior != next)
  }

  function TotalLines(shown: seq<Shown>): nat {
    if shown == [] then 0 else
      TotalLines(shown[..|shown| - 1]) + SideLines(shown[|shown| - 1].before) + SideLines(shown[|shown| - 1].after)
  }

  function TotalBytes(shown: seq<Shown>): nat {
    if shown == [] then 0 else
      TotalBytes(shown[..|shown| - 1]) + SideBytes(shown[|shown| - 1].before) + SideBytes(shown[|shown| - 1].after)
  }

  function ShowAll(u: Unicode, base: seq<SourceFile>, changes: seq<Change>): (shown: seq<Shown>)
    ensures |shown| == |changes| && forall k :: 0 <= k < |changes| ==> shown[k] == ShowOne(u, base, changes[k])
  {
    if changes == [] then []
    else ShowAll(u, base, changes[..|changes| - 1]) + [ShowOne(u, base, changes[|changes| - 1])]
  }

  /** What `compare_source` demands. */
  predicate ComparableAll(u: Unicode, h: Hashing, base: seq<SourceFile>, patch: Patch, surface: seq<string>) {
    && TreeDigest(h, base) == patch.baseDigest && patch.intact
    && surface != [] && 1 <= |patch.changes| <= MAX_COMPARISON_FILES && patch.acceptable
    && DistinctChanges(u, patch.changes) && AllComparable(u, base, patch.changes)
    && TotalLines(ShowAll(u, base, patch.changes)) <= MAX_COMPARISON_LINES
    && TotalBytes(ShowAll(u, base, patch.changes)) <= MAX_COMPARISON_BYTES
  }

  function Compare(u: Unicode, h: Hashing, base: seq<SourceFile>, patch: Patch,
                   surface: seq<string>): Option<seq<Shown>> {
    if ComparableAll(u, h, base, patch, surface) then Some(ShowAll(u, base, patch.changes)) else None
  }

  /* ------------------------------------------------------------------ what applying does at each path */

  lemma {:induction false} LookupPut(files: seq<SourceFile>, f: SourceFile, path: string)
    ensures Lookup(Put(files, f), path) == if path == f.path then Some(f) else Lookup(files, path)
    decreases |files|
  {
    if files != [] && files[0].path != f.path {
      LookupPut(files[1..], f, path);
      assert Put(files, f)[1..] == Put(files[1..], f);
    } else if files != [] {
      assert ([f] + files[1..])[1..] == files[1..];
    }
  }

  lemma {:induction false} LookupRemove(files: seq<SourceFile>, gone: string, path: string)
    requires DistinctPaths(files)
    ensures Lookup(Remove(files, gone), path) == if path == gone then None else Lookup(files, path)
    decreases |files|
  {
    if files != [] {
      if files[0].path == gone {
        AbsentLater(files[1..], gone);
      } else {
        LookupRemove(files[1..], gone, path);
        assert Remove(files, gone)[1..] == Remove(files[1..], gone);
      }
    }
  }

  lemma {:induction false} AbsentLater(files: seq<SourceFile>, path: string)
    requires forall f <- files :: f.path != path
    ensures Lookup(files, path).None?
    decreases |files|
  {
    if files != [] {
      AbsentLater(files[1..], path);
    }
  }

  lemma {:induction false} AbsentIff(files: seq<SourceFile>, path: string)
    ensures Lookup(files, path).None? <==> forall f <- files :: f.path != path
    decreases |files|
  {
    if files != [] {
      AbsentIff(files[1..], path);
      assert files == [files[0]] + files[1..];
    }
  }

  lemma {:induction false} OthersLater(files: seq<SourceFile>)
    requires files != [] && DistinctPaths(files)
    ensures DistinctPaths(files[1..]) && forall g <- files[1..] :: g.path != files[0].path
  {
    assert forall k :: 0 <= k < |files| - 1 ==> files[1..][k] == files[k + 1];
  }

  lemma {:induction false} DistinctCons(first: SourceFile, more: seq<SourceFile>)
    requires DistinctPaths(more) && forall g <- more :: g.path != first.path
    ensures DistinctPaths([first] + more)
  {
    var all := [first] + more;
    forall i, j | 0 <= i < j < |all|
      ensures all[i].path != all[j].path
    {
      assert all[j] == more[j - 1] && more[j - 1] in more;
      if i > 0 {
        assert all[i] == more[i - 1];
      }
    }
  }

  lemma {:induction false} PutDistinct(files: seq<SourceFile>, f: SourceFile)
    requires DistinctPaths(files)
    ensures DistinctPaths(Put(files, f))
    ensures forall g <- Put(files, f) :: g == f || g in files
    decreases |files|
  {
    if files != [] && files[0].path != f.path {
      PutDistinct(files[1..], f);
      assert forall g <- files[1..] :: g in files;
      OthersLater(files);
      DistinctCons(files[0], Put(files[1..], f));
    }
  }

  lemma {:induction false} RemoveDistinct(files: seq<SourceFile>, gone: string)
    requires DistinctPaths(files)
    ensures DistinctPaths(Remove(files, gone))
    ensures forall g <- Remove(files, gone) :: g in files
    decreases |files|
  {
    if files != [] && files[0].path != gone {
      RemoveDistinct(files[1..], gone);
      assert forall g <- files[1..] :: g in files;
      OthersLater(files);
      DistinctCons(files[0], Remove(files[1..], gone));
    }
  }

  /** One change: its path holds the new file or nothing, and every other path what it held. */
  lemma {:induction false} ApplyOneAt(u: Unicode, files: seq<SourceFile>, c: Change, path: string)
    requires DistinctPaths(files)
    ensures DistinctPaths(ApplyOne(u, files, c))
    ensures Lookup(ApplyOne(u, files, c), path)
         == if path == c.path then NewFile(u, c, Lookup(files, c.path)) else Lookup(files, path)
  {
    match NewFile(u, c, Lookup(files, c.path))
    case None =>
      LookupRemove(files, c.path, path);
      RemoveDistinct(files, c.path);
    case Some(f) =>
      LookupPut(files, f, path);
      PutDistinct(files, f);
  }

  predicate ChangesPath(changes: seq<Change>, path: string) {
    exists c <- changes :: c.path == path
  }

  /** A path that no change names keeps its file. */
  lemma {:induction false} UntouchedPath(u: Unicode, files: seq<SourceFile>, changes: seq<Change>, path: string)
    requires DistinctPaths(files) && ApplyAll(u, files, changes).Some?
    ensures DistinctPaths(ApplyAll(u, files, changes).value)
    ensures !ChangesPath(changes, path) ==> Lookup(ApplyAll(u, files, changes).value, path) == Lookup(files, path)
    decreases |changes|
  {
    if changes != [] {
      var n := |changes| - 1;
      UntouchedPath(u, files, changes[..n], path);
      ApplyOneAt(u, ApplyAll(u, files, changes[..n]).value, changes[n], path);
      assert changes[n] in changes && forall c <- changes[..n] :: c in changes;
    }
  }

  predicate DistinctTargets(changes: seq<Change>) {
    forall i, j :: 0 <= i < j < |changes| ==> changes[i].path != changes[j].path
  }

  /** With distinct paths, each change sees the original file at its path and decides what is there in the end. */
  lemma {:induction false} ChangedPathHolds(u: Unicode, files: seq<SourceFile>, changes: seq<Change>, k: nat)
    requires DistinctPaths(files) && DistinctTargets(changes) && k < |changes| && ApplyAll(u, files, changes).Some?
    ensures Lookup(ApplyAll(u, files, changes).value, changes[k].path)
                == NewFile(u, changes[k], Lookup(files, changes[k].path))
    decreases |changes|
  {
    var n := |changes| - 1;
    var before := ApplyAll(u, files, changes[..n]).value;
    UntouchedPath(u, files, changes[..n], changes[k].path);
    ApplyOneAt(u, before, changes[n], changes[k].path);
    if k < n {
      ChangedPathHolds(u, files, changes[..n], k);
    } else {
      assert !ChangesPath(changes[..n], changes[n].path);
    }
  }

  /* ------------------------------------------------------------------ reviewed equals built */

  /** The `k`-th entry of the comparison against the base and the candidate. */
  predicate Faithful(u: Unicode, base: seq<SourceFile>, built: seq<SourceFile>, s: Shown) {
    && s.before == SideOf(u, Lookup(base, s.path)) && s.after == SideOf(u, Lookup(built, s.path))
    && (s.changed <==> Lookup(base, s.path) != Lookup(built, s.path))
  }

  /**
   * When the comparison and the preparation both accept one base and one patch, every shown `before`
   * and `after` is the base's and the candidate's file at that path, every path that is not shown is
   * unchanged, and the entries flagged as changed are exactly the candidate's changed paths.
   */
  lemma {:induction false} ReviewedEqualsBuilt(u: Unicode, h: Hashing, base: seq<SourceFile>, patch: Patch,
                                               surface: seq<string>)
    requires SnapshotOk(u, base)
    requires Compare(u, h, base, patch, surface).Some? && Prepare(u, h, base, patch, surface).Some?
    ensures var shown := Compare(u, h, base, patch, surface).value; var p := Prepare(u, h, base, patch, surface).value;
            && (forall s <- shown :: Faithful(u, base, p.files, s))
            && (forall path :: (forall s <- shown :: s.path != path) ==> Lookup(base, path) == Lookup(p.files, path))
            && (forall path :: path in p.changed <==> exists s <- shown :: s.path == path && s.changed)
  {
    var shown := Compare(u, h, base, patch, surface).value;
    var p := Prepare(u, h, base, patch, surface).value;
    SameFoldDifferent(u, base);
    assert DistinctTargets(patch.changes);
    EntriesFaithful(u, base, patch.changes, p.files);
    OthersUnchanged(u, base, patch.changes, p.files);
    FlagsExact(base, p.files, shown);
  }

  lemma {:induction false} EntriesFaithful(u: Unicode, base: seq<SourceFile>, changes: seq<Change>,
                                           built: seq<SourceFile>)
    requires DistinctPaths(base) && DistinctTargets(changes) && ApplyAll(u, base, changes) == Some(built)
    ensures forall s <- ShowAll(u, base, changes) :: Faithful(u, base, built, s)
  {
    var shown := ShowAll(u, base, changes);
    forall s | s in shown
      ensures Faithful(u, base, built, s)
    {
      var k :| 0 <= k < |shown| && shown[k] == s;
      ChangedPathHolds(u, base, changes, k);
    }
  }

  lemma {:induction false} OthersUnchanged(u: Unicode, base: seq<SourceFile>, changes: seq<Change>,
                                           built: seq<SourceFile>)
    requires DistinctPaths(base) && ApplyAll(u, base, changes) == Some(built)
    ensures forall path ::
              (forall s <- ShowAll(u, base, changes) :: s.path != path) ==> Lookup(base, path) == Lookup(built, path)
  {
    var shown := ShowAll(u, base, changes);
    forall path | forall s <- shown :: s.path != path
      ensures Lookup(base, path) == Lookup(built, path)
    {
      assert forall k :: 0 <= k < |changes| ==> shown[k] in shown && shown[k].path == changes[k].path;
      UntouchedPath(u, base, changes, path);
    }
  }

  lemma {:induction false} ChangedIff(before: seq<SourceFile>, after: seq<SourceFile>, path: string)
    ensures path in ChangedPaths(before, after) <==> Lookup(before, path) != Lookup(after, path)
  {
    AbsentIff(before, path);
    AbsentIff(after, path);
    if Lookup(before, path) != Lookup(after, path) {
      assert exists f <- before + after :: f.path == path;
    }
  }

  lemma {:induction false} FlagsExact(base: seq<SourceFile>, built: seq<SourceFile>, shown: seq<Shown>)
    requires forall s <- shown :: s.changed <==> Lookup(base, s.path) != Lookup(built, s.path)
    requires forall path :: (forall s <- shown :: s.path != path) ==> Lookup(base, path) == Lookup(built, path)
    ensures forall path :: path in ChangedPaths(base, built) <==> exists s <- shown :: s.path == path && s.changed
  {
    forall path
      ensures path in ChangedPaths(base, built) <==> exists s <- shown :: s.path == path && s.changed
    {
      ChangedIff(base, built, path);
    }
  }

  /** The reviewed text and mode are, byte for byte, the file that is built; a shown deletion is absent. */
  lemma {:induction false} ShownIsBuilt(u: Unicode, h: Hashing, base: seq<SourceFile>, patch: Patch,
                                        surface: seq<string>, s: Shown)
    requires SourcePaths.Lawful(u) && SnapshotOk(u, base)
    requires Compare(u, h, base, patch, surface).Some? && Prepare(u, h, base, patch, surface).Some?
    requires s in Compare(u, h, base, patch, surface).value
    ensures var built := Prepare(u, h, base, patch, surface).value.files;
            Lookup(built, s.path)
            == if s.after.Some? then Some(SourceFile(s.path, u.encode(s.after.value.text), s.after.value.mode))
                else None
  {
    var shown := Compare(u, h, base, patch, surface).value;
    var k :| 0 <= k < |shown| && shown[k] == s;
    var c := patch.changes[k];
    SameFoldDifferent(u, base);
    assert DistinctTargets(patch.changes);
    ChangedPathHolds(u, base, patch.changes, k);
    ComparableAt(u, base, patch.changes, k);
    var next := NewFile(u, c, Lookup(base, c.path));
    if next.Some? {
      assert u.encode(u.decode(next.value.content).value) == next.value.content;
    }
  }

  /**
   * The comparison and the preparation are tied to one base only by its tree digest, which leaves
   * modes open. With two bases of one digest the contents shown are still the contents built; the
   * mode shown is the mode built exactly when the change states it, or the path is new, or the two
   * bases agree on it.
   */
  lemma {:induction false} DigestLeavesModes(u: Unicode, h: Hashing, shownBase: seq<SourceFile>,
                                             builtBase: seq<SourceFile>, c: Change)
    requires SnapshotOk(u, shownBase) && SnapshotOk(u, builtBase) && SnapshotArchive.CollisionFree(h)
    requires TreeDigest(h, shownBase) == TreeDigest(h, builtBase) && c.content.Some?
    ensures var a, b := Lookup(shownBase, c.path), Lookup(builtBase, c.path);
            && (a.Some? <==> b.Some?) && (a.Some? ==> a.value.content == b.value.content)
            && NewFile(u, c, a).value.content == NewFile(u, c, b).value.content
            && (NewFile(u, c, a) == NewFile(u, c, b)
                <==> c.mode == Regular644 || c.mode == Executable755 || a.None? || a.value.mode == b.value.mode)
  {
    TreeDigestDetermines(u, h, shownBase, builtBase);
    SameFoldDifferent(u, shownBase);
    SameFoldDifferent(u, builtBase);
    LookupContents(shownBase, builtBase, c.path);
    LookupContents(builtBase, shownBase, c.path);
    ModesDecide(u, c, Lookup(shownBase, c.path), Lookup(builtBase, c.path));
  }

  /** Of two files of one name, only the modes can make a difference to the new file. */
  lemma {:induction false} ModesDecide(u: Unicode, c: Change, a: Option<SourceFile>, b: Option<SourceFile>)
    requires c.content.Some? && (a.Some? <==> b.Some?)
    ensures NewFile(u, c, a).value.content == NewFile(u, c, b).value.content
    ensures NewFile(u, c, a) == NewFile(u, c, b)
            <==> c.mode == Regular644 || c.mode == Executable755 || a.None? || a.value.mode == b.value.mode
  {
  }

  lemma {:induction false} LookupNamed(files: seq<SourceFile>, path: string)
    ensures Lookup(files, path).Some? ==> Lookup(files, path).value in files && Lookup(files, path).value.path == path
  {
    if files != [] && files[0].path != path {
      LookupNamed(files[1..], path);
    }
  }

  lemma {:induction false} LookupOf(files: seq<SourceFile>, f: SourceFile)
    requires DistinctPaths(files) && f in files
    ensures Lookup(files, f.path) == Some(f)
  {
    if files[0] != f {
      assert f in files[1..];
      LookupOf(files[1..], f);
    }
  }

  lemma {:induction false} LookupContents(a: seq<SourceFile>, b: seq<SourceFile>, path: string)
    requires DistinctPaths(a) && DistinctPaths(b) && ContentsIn(a, b)
    ensures Lookup(a, path).Some? ==>
              Lookup(b, path).Some? && Lookup(b, path).value.content == Lookup(a, path).value.content
  {
    LookupNamed(a, path);
    if Lookup(a, path).Some? {
      var f := Lookup(a, path).value;
      var g :| g in b && g.path == f.path && g.content == f.content;
      LookupOf(b, g);
    }
  }

  /* ------------------------------------------------------------------ the two loops */

  /** The folded paths of a patch, when no two are equal. */
  method CheckDistinct(u: Unicode, changes: seq<Change>) returns (distinct: bool)
    ensures distinct <==> DistinctChanges(u, changes)
  {
    var seen: set<string> := {};
    var i := 0;
    while i < |changes|
      invariant 0 <= i <= |changes|
      invariant forall x <- seen :: exists k :: 0 <= k < i && Fold(u, changes[k].path) == x
      invariant forall k :: 0 <= k < i ==> Fold(u, changes[k].path) in seen
      invariant DistinctChanges(u, changes[..i])
    {
      var folded := Fold(u, changes[i].path);
      if folded in seen {
        return false;
      }
      seen := seen + {folded};
      i := i + 1;
    }
    assert changes[..i] == changes;
    return true;
  }

  lemma {:induction false} ApplyPrefix(u: Unicode, base: seq<SourceFile>, changes: seq<Change>, n: nat)
    requires n <= |changes|
    ensures ApplyAll(u, base, changes[..n]).None? ==> ApplyAll(u, base, changes).None?
    ensures PatchBytes(u, changes[..n]) <= PatchBytes(u, changes)
    decreases |changes| - n
  {
    if n < |changes| {
      ApplyPrefix(u, base, changes, n + 1);
      assert changes[..n + 1][..n] == changes[..n];
    } else {
      assert changes[..n] == changes;
    }
  }

  /** One change to the dictionary of entries. */
  method ApplyChange(u: Unicode, entries: seq<SourceFile>, c: Change) returns (r: Option<seq<SourceFile>>)
    requires PathOk(u, c.path)
    ensures r == if Applicable(u, entries, c) then Some(ApplyOne(u, entries, c)) else None
  {
    var prior := Lookup(entries, c.path);
    if c.content.None? {
      return if prior.None? then None else Some(Remove(entries, c.path));
    }
    var content := u.encode(c.content.value);
    if |content| > MAX_CHANGE_BYTES || c.mode.OtherMode? {
      return None;
    }
    var file := SourceFile(c.path, content, ModeFor(c, prior));
    return if FileOk(u, file) then Some(Put(entries, file)) else None;
  }

  /** The loop that applies the changes. */
  method ApplyChanges(u: Unicode, base: seq<SourceFile>, changes: seq<Change>) returns (r: Option<seq<SourceFile>>)
    ensures r == if PatchBytes(u, changes) <= MAX_PATCH_BYTES then ApplyAll(u, base, changes) else None
  {
    var entries, bytes := base, 0;
    var i := 0;
    while i < |changes|
      invariant 0 <= i <= |changes|
      invariant ApplyAll(u, base, changes[..i]) == Some(entries)
                && bytes == PatchBytes(u, changes[..i]) <= MAX_PATCH_BYTES
    {
      var c := changes[i];
      assert changes[..i + 1][..i] == changes[..i];
      ApplyPrefix(u, base, changes, i + 1);
      var canonical := CheckPath(u, c.path);
      if !canonical {
        return None;
      }
      if c.content.Some? {
        bytes := bytes + |u.encode(c.content.value)|;
        if bytes > MAX_PATCH_BYTES {
          return None;
        }
      }
      var next := ApplyChange(u, entries, c);
      if next.None? {
        return None;
      }
      entries := next.value;
      i := i + 1;
    }
    assert changes[..i] == changes;
    return Some(entries);
  }

  /** `prepare_candidate`. */
  method PrepareCandidate(u: Unicode, h: Hashing, base: seq<SourceFile>, patch: Patch, surface: seq<string>)
    returns (r: Option<Prepared>)
    requires SourcePaths.Lawful(u) && SnapshotOk(u, base)
    ensures r == Prepare(u, h, base, patch, surface)
  {
    if !patch.approved || TreeDigest(h, base) != patch.baseDigest || !patch.intact {
      return None;
    }
    if surface == [] || patch.changes == [] || (exists p <- surface :: !PathOk(u, p)) || !patch.allowed {
      return None;
    }
    var distinct := CheckDistinct(u, patch.changes);
    if !distinct {
      return None;
    }
    SameFoldDifferent(u, base);
    r := BuildCandidate(u, base, patch.changes);
  }

  /** Applying and constructing, once everything about the patch was checked. */
  method BuildCandidate(u: Unicode, base: seq<SourceFile>, changes: seq<Change>) returns (r: Option<Prepared>)
    requires SourcePaths.Lawful(u) && FilesOk(u, base) && DistinctPaths(base)
    ensures r == if PatchBytes(u, changes) <= MAX_PATCH_BYTES then Built(u, base, ApplyAll(u, base, changes)) else None
  {
    var files := ApplyChanges(u, base, changes);
    if files.None? {
      return None;
    }
    AppliedOk(u, base, changes);
    var ok := Construct(u, files.value);
    if !ok {
      return None;
    }
    return Some(Prepared(files.value, ChangedPaths(base, files.value)));
  }

  /** Every entry is a file that its constructor accepted. */
  lemma {:induction false} AppliedOk(u: Unicode, base: seq<SourceFile>, changes: seq<Change>)
    requires FilesOk(u, base) && DistinctPaths(base) && ApplyAll(u, base, changes).Some?
    ensures FilesOk(u, ApplyAll(u, base, changes).value) && DistinctPaths(ApplyAll(u, base, changes).value)
    decreases |changes|
  {
    if changes != [] {
      var n := |changes| - 1;
      AppliedOk(u, base, changes[..n]);
      var before := ApplyAll(u, base, changes[..n]).value;
      match NewFile(u, changes[n], Lookup(before, changes[n].path))
      case None => RemoveDistinct(before, changes[n].path);
      case Some(f) => PutDistinct(before, f);
    }
  }

  lemma {:induction false} ShownPrefix(u: Unicode, base: seq<SourceFile>, changes: seq<Change>, n: nat)
    requires n <= |changes|
    ensures TotalLines(ShowAll(u, base, changes[..n])) <= TotalLines(ShowAll(u, base, changes))
    ensures TotalBytes(ShowAll(u, base, changes[..n])) <= TotalBytes(ShowAll(u, base, changes))
    decreases |changes| - n
  {
    if n < |changes| {
      ShownPrefix(u, base, changes, n + 1);
      ShownNext(u, base, changes, n);
    } else {
      assert changes[..n] == changes;
    }
  }

  lemma {:induction false} ShownNext(u: Unicode, base: seq<SourceFile>, changes: seq<Change>, n: nat)
    requires n < |changes|
    ensures var now, s := ShowAll(u, base, changes[..n]), ShowOne(u, base, changes[n]);
            && ShowAll(u, base, changes[..n + 1]) == now + [s]
            && TotalLines(now + [s]) == TotalLines(now) + SideLines(s.before) + SideLines(s.after)
            && TotalBytes(now + [s]) == TotalBytes(now) + SideBytes(s.before) + SideBytes(s.after)
  {
    var now, s := ShowAll(u, base, changes[..n]), ShowOne(u, base, changes[n]);
    assert changes[..n + 1][..n] == changes[..n];
    assert (now + [s])[..|now|] == now;
  }

  /** `compare_source`. The budgets are checked as the sides are added. */
  method CompareSource(u: Unicode, h: Hashing, base: seq<SourceFile>, patch: Patch, surface: seq<string>)
    returns (r: Option<seq<Shown>>)
    ensures r == Compare(u, h, base, patch, surface)
  {
    var changes := patch.changes;
    if TreeDigest(h, base) != patch.baseDigest || !patch.intact {
      return None;
    }
    if surface == [] || !(1 <= |changes| <= MAX_COMPARISON_FILES) || !patch.acceptable {
      return None;
    }
    var distinct := CheckDistinct(u, changes);
    if !distinct {
      return None;
    }
    r := CompareChanges(u, base, changes);
  }

  /** One side of one entry. */
  method CheckSide(u: Unicode, f: Option<SourceFile>) returns (ok: bool)
    ensures ok <==> Showable(u, f)
  {
    if f.None? {
      return true;
    }
    if |f.value.content| > MAX_CHANGE_BYTES || '\0' in f.value.content {
      return false;
    }
    var text := u.decode(f.value.content);
    return text.Some? && LineCount(text.value) <= MAX_FILE_LINES;
  }

  /** The checks of one change against the original. */
  method CheckChange(u: Unicode, base: seq<SourceFile>, c: Change) returns (ok: bool)
    ensures ok <==> Comparable(u, base, c)
  {
    var prior := Lookup(base, c.path);
    if prior.None? && exists f <- base :: Fold(u, f.path) == Fold(u, c.path) {
      return false;
    }
    if c.content.None? && prior.None? {
      return false;
    }
    if c.binary || c.mode.OtherMode? {
      return false;
    }
    var next := NewFile(u, c, prior);
    if next.Some? && !FileOk(u, next.value) {
      return false;
    }
    var before := CheckSide(u, prior);
    var after := CheckSide(u, next);
    return before && after;
  }

  predicate WithinBudgets(u: Unicode, base: seq<SourceFile>, changes: seq<Change>) {
    && AllComparable(u, base, changes)
    && TotalLines(ShowAll(u, base, changes)) <= MAX_COMPARISON_LINES
    && TotalBytes(ShowAll(u, base, changes)) <= MAX_COMPARISON_BYTES
  }

  datatype Tally = Tally(files: seq<Shown>, lines: nat, bytes: nat)

  function Add(t: Tally, s: Shown): Tally {
    Tally(t.files + [s], t.lines + SideLines(s.before) + SideLines(s.after),
        t.bytes + SideBytes(s.before) + SideBytes(s.after))
  }

  predicate InBudget(t: Tally) {
    t.lines <= MAX_COMPARISON_LINES && t.bytes <= MAX_COMPARISON_BYTES
  }

  /** The tally of the first `n` changes, all of them comparable. */
  predicate Tallies(u: Unicode, base: seq<SourceFile>, changes: seq<Change>, n: nat, t: Tally)
    requires n <= |changes|
  {
    && AllComparable(u, base, changes[..n]) && t.files == ShowAll(u, base, changes[..n])
    && t.lines == TotalLines(t.files) && t.bytes == TotalBytes(t.files)
  }

  lemma {:induction false} TallyNext(u: Unicode, base: seq<SourceFile>, changes: seq<Change>, n: nat, t: Tally)
    requires n < |changes| && Tallies(u, base, changes, n, t) && Comparable(u, base, changes[n])
    ensures Tallies(u, base, changes, n + 1, Add(t, ShowOne(u, base, changes[n])))
  {
    ShownNext(u, base, changes, n);
    assert changes[..n + 1][..n] == changes[..n];
  }

  /** Totals only grow, so an entry that is refused refuses the whole. */
  lemma {:induction false} TallyBounded(u: Unicode, base: seq<SourceFile>, changes: seq<Change>, n: nat, t: Tally)
    requires n < |changes| && Tallies(u, base, changes, n, t) && WithinBudgets(u, base, changes)
    ensures Comparable(u, base, changes[n]) && InBudget(Add(t, ShowOne(u, base, changes[n])))
  {
    ShownNext(u, base, changes, n);
    ShownPrefix(u, base, changes, n + 1);
    ComparableAt(u, base, changes, n);
  }

  lemma {:induction false} TallyDone(u: Unicode, base: seq<SourceFile>, changes: seq<Change>, t: Tally)
    requires Tallies(u, base, changes, |changes|, t) && InBudget(t)
    ensures WithinBudgets(u, base, changes) && t.files == ShowAll(u, base, changes)
  {
    assert changes[..|changes|] == changes;
  }

  lemma {:induction false} TallyStart(u: Unicode, base: seq<SourceFile>, changes: seq<Change>)
    ensures Tallies(u, base, changes, 0, Tally([], 0, 0)) && InBudget(Tally([], 0, 0))
  {
  }

  /** The loop of the comparison. */
  method CompareChanges(u: Unicode, base: seq<SourceFile>, changes: seq<Change>) returns (r: Option<seq<Shown>>)
    ensures r == if WithinBudgets(u, base, changes) then Some(ShowAll(u, base, changes)) else None
  {
    var tally := Tally([], 0, 0);
    TallyStart(u, base, changes);
    var i := 0;
    while i < |changes|
      invariant 0 <= i <= |changes| && Tallies(u, base, changes, i, tally) && InBudget(tally)
    {
      var s := ShowOne(u, base, changes[i]);
      if WithinBudgets(u, base, changes) {
        TallyBounded(u, base, changes, i, tally);
      }
      var ok := CheckChange(u, base, changes[i]);
      if !ok {
        return None;
      }
      TallyNext(u, base, changes, i, tally);
      tally := Add(tally, s);
      if !InBudget(tally) {
        return None;
      }
      i := i + 1;
    }
    TallyDone(u, base, changes, tally);
    return Some(tally.files);
  }
}
