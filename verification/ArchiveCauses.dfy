/**
 * What every change of an archive's rows took, told by the events of the run: which worker did what
 * before, with which permissions, and in what state it found the rows and the store.
 */
module ArchiveCauses {
  import opened Basics
  import Snapshot
  import opened ArchiveLifecycle
  import opened ArchiveRuns

  /** The state after the events. */
  function After(hash: Bytes -> string, es: seq<Event>): Store {
    Run(hash, Start, es)
  }

  lemma {:induction false} RunLast(hash: Bytes -> string, s: Store, es: seq<Event>)
    requires es != []
    ensures Run(hash, s, es) == Step(hash, Run(hash, s, es[..|es| - 1]), es[|es| - 1])
    decreases |es|
  {
    if |es| > 1 {
      RunLast(hash, Step(hash, s, es[0]), es[1..]);
      assert es[1..][..|es| - 2] == es[..|es| - 1][1..];
    } else {
      assert es[1..] == [] && es[..0] == [];
    }
  }

  /** The worker does nothing else at the moment. */
  predicate Free(s: Store, w: nat) {
    !(w in s.retainers || w in s.retirers || w in s.readers)
  }

  /* ------------------------------------------------------------------ the upload */

  /** The `n`-th event is an owner's upload intent that was in order when it came. */
  predicate Intends(hash: Bytes -> string, es: seq<Event>, n: nat) {
    && n < |es| && es[n].IntendRetention? && es[n].owned && es[n].current
    && 1 <= |es[n].bytes| <= Snapshot.MAX_ARCHIVE_BYTES
    && var s := After(hash, es[..n]);
       && s.attempt == Dispatchable(true) && s.epoch == es[n].epoch && s.archive.None?
       && s.readers == map[] && Free(s, es[n].worker)
  }

  lemma {:induction false} ArchiveRow(hash: Bytes -> string, s: Store, e: Event)
    requires s.archive.None? && Step(hash, s, e).archive.Some?
    ensures e.IntendRetention? && e.owned && e.current && 1 <= |e.bytes| <= Snapshot.MAX_ARCHIVE_BYTES
    ensures s.attempt == Dispatchable(true) && s.epoch == e.epoch && s.readers == map[] && Free(s, e.worker)
    ensures Step(hash, s, e).archive == Some(Archive(hash(e.bytes), |e.bytes|, Quarantined))
  {
  }

  /** There is an archive row only by such an intent, and it names the intent's bytes. */
  lemma {:induction false} ArchiveCaused(hash: Bytes -> string, es: seq<Event>) returns (n: nat)
    requires After(hash, es).archive.Some?
    ensures Intends(hash, es, n)
    ensures After(hash, es).archive.value.digest == hash(es[n].bytes)
    ensures After(hash, es).archive.value.size == |es[n].bytes|
    decreases |es|
  {
    var last, before := |es| - 1, es[..|es| - 1];
    RunLast(hash, Start, es);
    if After(hash, before).archive.None? {
      ArchiveRow(hash, After(hash, before), es[last]);
      n := last;
    } else {
      n := ArchiveCaused(hash, before);
      IdentityKept(hash, After(hash, before), es[last]);
      assert before[..n] == es[..n];
    }
  }

  /* ------------------------------------------------------------------ the promotion */

  /** What a retaining worker holds is what its intent recorded. */
  predicate RetainersInv(hash: Bytes -> string, s: Store) {
    forall w <- s.retainers :: Recorded(hash, s, s.retainers[w].bytes)
  }

  lemma {:induction false} RunKeepsRetainers(hash: Bytes -> string, s: Store, es: seq<Event>)
    requires RetainersInv(hash, s)
    ensures RetainersInv(hash, Run(hash, s, es))
    decreases |es|
  {
    if es != [] {
      RunKeepsRetainers(hash, Step(hash, s, es[0]), es[1..]);
    }
  }

  /** At the `j`-th event the worker read its upload back, byte count and digest. */
  predicate ReadsBackUpload(hash: Bytes -> string, es: seq<Event>, j: nat, w: nat, bytes: Bytes) {
    && j < |es| && es[j] == CheckUpload(w)
    && var s := After(hash, es[..j]);
       && w in s.retainers && s.retainers[w].Uploading? && s.retainers[w].bytes == bytes
       && s.cell.Payload? && |s.cell.bytes| == |bytes| && hash(s.cell.bytes) == hash(bytes)
  }

  lemma {:induction false} CheckedRow(hash: Bytes -> string, s: Store, e: Event, w: nat)
    requires w in Step(hash, s, e).retainers && Step(hash, s, e).retainers[w].Checked?
    ensures w in s.retainers && s.retainers[w].bytes == Step(hash, s, e).retainers[w].bytes
    ensures || s.retainers[w].Checked?
            || (e == CheckUpload(w) && s.retainers[w].Uploading? && s.cell.Payload?
                && |s.cell.bytes| == |s.retainers[w].bytes| && hash(s.cell.bytes) == hash(s.retainers[w].bytes))
  {
  }

  lemma {:induction false} CheckedCaused(hash: Bytes -> string, es: seq<Event>, w: nat) returns (j: nat)
    requires w in After(hash, es).retainers && After(hash, es).retainers[w].Checked?
    ensures ReadsBackUpload(hash, es, j, w, After(hash, es).retainers[w].bytes)
    decreases |es|
  {
    var last, before := |es| - 1, es[..|es| - 1];
    RunLast(hash, Start, es);
    CheckedRow(hash, After(hash, before), es[last], w);
    if After(hash, before).retainers[w].Checked? {
      j := CheckedCaused(hash, before, w);
      assert before[..j] == es[..j];
    } else {
      j := last;
    }
  }

  /** The `n`-th event promotes: by the owner, with the build receipt, from quarantine, and before any retirement. */
  predicate Promotes(hash: Bytes -> string, es: seq<Event>, n: nat, digest: string) {
    && n < |es| && es[n].Promote? && es[n].owned && es[n].current && es[n].receipt
    && var s := After(hash, es[..n]);
       && s.attempt == Dispatchable(true) && s.retirement.None? && s.readers == map[]
       && s.archive.Some? && s.archive.value.state.Quarantined? && s.archive.value.digest == digest
       && es[n].worker in s.retainers && s.retainers[es[n].worker].Checked?
       && hash(s.retainers[es[n].worker].bytes) == digest
  }

  lemma {:induction false} BuiltRow(hash: Bytes -> string, s: Store, e: Event)
    requires !s.attempt.Built? && Step(hash, s, e).attempt.Built?
    ensures e.Promote? && e.owned && e.current && e.receipt && e.worker in s.retainers
    ensures s.retainers[e.worker].Checked? && s.attempt == Dispatchable(true)
    ensures s.retirement.None? && s.readers == map[]
    ensures s.archive.Some? && s.archive.value.state.Quarantined?
    ensures s.archive.value.digest == hash(s.retainers[e.worker].bytes) == Step(hash, s, e).attempt.artifactDigest
  {
  }

  lemma {:induction false} BuiltStays(hash: Bytes -> string, s: Store, e: Event)
    requires s.attempt.Built?
    ensures Step(hash, s, e).attempt == s.attempt
  {
  }

  /** An attempt is built only by such a promotion, after the promoter read the upload back. */
  lemma {:induction false} BuiltCaused(hash: Bytes -> string, es: seq<Event>) returns (j: nat, n: nat)
    requires After(hash, es).attempt.Built?
    ensures j < n && Promotes(hash, es, n, After(hash, es).attempt.artifactDigest)
    ensures ReadsBackUpload(hash, es, j, es[n].worker, After(hash, es[..n]).retainers[es[n].worker].bytes)
    decreases |es|
  {
    var last, before := |es| - 1, es[..|es| - 1];
    RunLast(hash, Start, es);
    if After(hash, before).attempt.Built? {
      BuiltStays(hash, After(hash, before), es[last]);
      j, n := BuiltCaused(hash, before);
      assert before[..n] == es[..n] && before[..j] == es[..j];
    } else {
      BuiltRow(hash, After(hash, before), es[last]);
      n := last;
      j := CheckedCaused(hash, before, es[last].worker);
      assert before[..j] == es[..j];
    }
  }

  /* ------------------------------------------------------------------ reading */

  /** The `i`-th event locks the rows of a retained, built archive for a reader in time. */
  predicate Locks(hash: Bytes -> string, es: seq<Event>, i: nat, w: nat, digest: string, size: nat) {
    && i < |es| && es[i] == BeginRead(w, true)
    && var s := After(hash, es[..i]);
       && Free(s, w) && s.retirement.None? && s.archive == Some(Archive(digest, size, Retained))
       && s.attempt == Built(digest)
  }

  predicate Fetches(hash: Bytes -> string, es: seq<Event>, j: nat, w: nat, r: Reading) {
    && j < |es| && es[j] == Fetch(w) && After(hash, es[..j]).cell == Payload(r.bytes)
    && |r.bytes| == r.size && hash(r.bytes) == r.digest
  }

  lemma {:induction false} VisibleRow(hash: Bytes -> string, s: Store, e: Event, w: nat)
    requires w in Step(hash, s, e).readers && w !in s.readers
    ensures e == BeginRead(w, true) && Free(s, w) && s.retirement.None? && s.archive.Some?
    ensures s.archive.value.state.Retained? && s.attempt == Built(s.archive.value.digest)
    ensures Step(hash, s, e).readers[w] == Visible(s.archive.value.digest, s.archive.value.size)
  {
  }

  lemma {:induction false} ReaderRow(hash: Bytes -> string, s: Store, e: Event, w: nat)
    requires w in Step(hash, s, e).readers && w in s.readers
    ensures || Step(hash, s, e).readers[w] == s.readers[w]
            || (e == Fetch(w) && s.readers[w].Visible? && s.cell.Payload?
                && Step(hash, s, e).readers[w] == Fetched(s.readers[w].digest, s.readers[w].size, s.cell.bytes)
                && |s.cell.bytes| == s.readers[w].size && hash(s.cell.bytes) == s.readers[w].digest)
  {
  }

  /** A reader got its locks in order; if it has the bytes, it fetched them after that. */
  lemma {:induction false} ReaderCaused(hash: Bytes -> string, es: seq<Event>, w: nat) returns (i: nat, j: nat)
    requires w in After(hash, es).readers
    ensures var r := After(hash, es).readers[w];
            && Locks(hash, es, i, w, r.digest, r.size)
            && (r.Fetched? ==> i < j && Fetches(hash, es, j, w, Reading(r.digest, r.size, r.bytes)))
    decreases |es|
  {
    var last, before := |es| - 1, es[..|es| - 1];
    RunLast(hash, Start, es);
    if w !in After(hash, before).readers {
      VisibleRow(hash, After(hash, before), es[last], w);
      i, j := last, last;
    } else {
      ReaderRow(hash, After(hash, before), es[last], w);
      i, j := ReaderCaused(hash, before, w);
      assert before[..i] == es[..i] && (j <= last ==> before[..j] == es[..j]);
      if After(hash, es).readers[w] != After(hash, before).readers[w] {
        j := last;
      }
    }
  }

  lemma {:induction false} ResultRow(hash: Bytes -> string, s: Store, e: Event, r: Reading)
    requires r in Step(hash, s, e).results && r !in s.results
    ensures e.EndRead? && e.current && e.worker in s.readers
    ensures s.readers[e.worker] == Fetched(r.digest, r.size, r.bytes)
  {
  }

  /** Every successful read took its locks, fetched the very bytes, and was still current at its end. */
  lemma {:induction false} ReadCaused(hash: Bytes -> string, es: seq<Event>, r: Reading)
    returns (w: nat, i: nat, j: nat, k: nat)
    requires r in After(hash, es).results
    ensures i < j < k < |es| && es[k] == EndRead(w, true)
    ensures Locks(hash, es, i, w, r.digest, r.size) && Fetches(hash, es, j, w, r)
    decreases |es|
  {
    var last, before := |es| - 1, es[..|es| - 1];
    RunLast(hash, Start, es);
    if r in After(hash, before).results {
      w, i, j, k := ReadCaused(hash, before, r);
    } else {
      ResultRow(hash, After(hash, before), es[last], r);
      w, k := es[last].worker, last;
      i, j := ReaderCaused(hash, before, w);
    }
    LockedAndFetched(hash, es, i, j, w, r);
  }

  lemma {:induction false} LockedAndFetched(hash: Bytes -> string, es: seq<Event>, i: nat, j: nat, w: nat, r: Reading)
    requires es != [] && i < |es| && j < |es|
    requires Locks(hash, es[..|es| - 1], i, w, r.digest, r.size) && Fetches(hash, es[..|es| - 1], j, w, r)
    ensures Locks(hash, es, i, w, r.digest, r.size) && Fetches(hash, es, j, w, r)
  {
    var before := es[..|es| - 1];
    assert before[..i] == es[..i] && before[..j] == es[..j];
  }

  /* ------------------------------------------------------------------ retirement */

  /** The `n`-th event begins a retirement, of an expired archive that nobody reads. */
  predicate Retires(hash: Bytes -> string, es: seq<Event>, n: nat) {
    && n < |es| && es[n].MarkRetirement? && es[n].expired
    && var s := After(hash, es[..n]);
       && s.retirement.None? && s.archive.Some? && s.readers == map[] && Free(s, es[n].worker)
  }

  lemma {:induction false} RetirementRow(hash: Bytes -> string, s: Store, e: Event)
    requires RowsInv(hash, s) && s.retirement.None? && Step(hash, s, e).retirement.Some?
    ensures e.MarkRetirement? && e.expired && s.archive.Some? && s.readers == map[] && Free(s, e.worker)
    ensures Step(hash, s, e).retirement == Some(false)
  {
  }

  /** Nothing is ever retired but by a call that found its archive expired. */
  lemma {:induction false} RetirementCaused(hash: Bytes -> string, es: seq<Event>) returns (n: nat)
    requires After(hash, es).retirement.Some?
    ensures Retires(hash, es, n)
    decreases |es|
  {
    var last, before := |es| - 1, es[..|es| - 1];
    RunLast(hash, Start, es);
    RunKeepsReaders(hash, Start, before);
    if After(hash, before).retirement.None? {
      RetirementRow(hash, After(hash, before), es[last]);
      n := last;
    } else {
      n := RetirementCaused(hash, before);
      assert before[..n] == es[..n];
    }
  }

  predicate Sweeps(es: seq<Event>) {
    exists e <- es :: e.MarkRetirement? && e.expired
  }

  /** A run in which no sweep finds the archive expired goes as if there were no sweeps. */
  lemma {:induction false} UnexpiredUntouched(hash: Bytes -> string, es: seq<Event>)
    requires !Sweeps(es)
    ensures After(hash, es).retirement.None? && After(hash, es).retirers == map[]
    ensures After(hash, es) == After(hash, WithoutSweeps(es))
    decreases |es|
  {
    RunKeepsReaders(hash, Start, es);
    if After(hash, es).retirement.Some? {
      var n := RetirementCaused(hash, es);
    }
    if es != [] {
      var before, e := es[..|es| - 1], es[|es| - 1];
      assert !Sweeps(before) && e in es;
      UnexpiredUntouched(hash, before);
      RunLast(hash, Start, es);
      if e.MarkRetirement? {
        Unmarked(hash, After(hash, before), e);
        assert WithoutSweeps(before) + [] == WithoutSweeps(before);
      } else {
        RunLast(hash, Start, WithoutSweeps(before) + [e]);
        assert (WithoutSweeps(before) + [e])[..|WithoutSweeps(before)|] == WithoutSweeps(before);
      }
    }
  }

  function WithoutSweeps(es: seq<Event>): seq<Event> {
    if es == [] then [] else
      WithoutSweeps(es[..|es| - 1]) + if es[|es| - 1].MarkRetirement? then [] else [es[|es| - 1]]
  }

  lemma {:induction false} Unmarked(hash: Bytes -> string, s: Store, e: Event)
    requires s.retirement.None? && e.MarkRetirement? && !e.expired
    ensures Step(hash, s, e) == s
  {
  }

  /** The `m`-th event marks the worker as a retirer. */
  predicate Marks(hash: Bytes -> string, es: seq<Event>, m: nat, w: nat) {
    && m < |es| && es[m].MarkRetirement? && es[m].worker == w && After(hash, es[..m]).retirement != Some(true)
    && After(hash, es[..m]).readers == map[] && Free(After(hash, es[..m]), w)
  }

  /** And the `j`-th finds the tombstone that it sent for. */
  predicate Verifies(hash: Bytes -> string, es: seq<Event>, m: nat, j: nat, w: nat) {
    Marks(hash, es, m, w) && m < j < |es| && es[j] == VerifyTombstone(w) && After(hash, es[..j]).cell == Tombstone
  }

  lemma {:induction false} RetirerRow(hash: Bytes -> string, s: Store, e: Event, w: nat)
    requires w in Step(hash, s, e).retirers && (w !in s.retirers || s.retirers[w] != Step(hash, s, e).retirers[w])
    ensures if Step(hash, s, e).retirers[w].Verified? then
              e == VerifyTombstone(w) && s.cell == Tombstone && w in s.retirers && s.retirers[w].Marked?
            else e.MarkRetirement? && e.worker == w && s.retirement != Some(true) && s.readers == map[] && Free(s, w)
  {
  }

  lemma {:induction false} MarkedCaused(hash: Bytes -> string, es: seq<Event>, w: nat) returns (m: nat)
    requires w in After(hash, es).retirers
    ensures Marks(hash, es, m, w)
    decreases |es|
  {
    var last, before := |es| - 1, es[..|es| - 1];
    RunLast(hash, Start, es);
    if w !in After(hash, before).retirers {
      RetirerRow(hash, After(hash, before), es[last], w);
      m := last;
    } else {
      m := MarkedCaused(hash, before, w);
      assert before[..m] == es[..m];
    }
  }

  lemma {:induction false} VerifiedCaused(hash: Bytes -> string, es: seq<Event>, w: nat) returns (m: nat, j: nat)
    requires w in After(hash, es).retirers && After(hash, es).retirers[w].Verified?
    ensures Verifies(hash, es, m, j, w)
    decreases |es|
  {
    var last, before := |es| - 1, es[..|es| - 1];
    RunLast(hash, Start, es);
    if w in After(hash, before).retirers && After(hash, before).retirers[w].Verified? {
      m, j := VerifiedCaused(hash, before, w);
    } else {
      RetirerRow(hash, After(hash, before), es[last], w);
      j := last;
      m := MarkedCaused(hash, before, w);
    }
    assert before[..m] == es[..m] && before[..j] == es[..j];
  }

  lemma {:induction false} CompletedRow(hash: Bytes -> string, s: Store, e: Event)
    requires s.retirement != Some(true) && Step(hash, s, e).retirement == Some(true)
    ensures e.CompleteRetirement? && e.worker in s.retirers && s.retirers[e.worker].Verified? && s.readers == map[]
  {
  }

  /** A retirement is complete only after an expired archive was marked and a retirer saw the tombstone. */
  lemma {:induction false} RetiredCaused(hash: Bytes -> string, es: seq<Event>)
    returns (n: nat, m: nat, j: nat, k: nat)
    requires After(hash, es).retirement == Some(true)
    ensures Retires(hash, es, n) && j < k < |es| && es[k].CompleteRetirement?
    ensures Verifies(hash, es, m, j, es[k].worker) && After(hash, es[..k]).readers == map[]
    decreases |es|
  {
    n := RetirementCaused(hash, es);
    m, j, k := CompletionCaused(hash, es);
  }

  lemma {:induction false} CompletionCaused(hash: Bytes -> string, es: seq<Event>) returns (m: nat, j: nat, k: nat)
    requires After(hash, es).retirement == Some(true)
    ensures j < k < |es| && es[k].CompleteRetirement?
    ensures Verifies(hash, es, m, j, es[k].worker) && After(hash, es[..k]).readers == map[]
    decreases |es|
  {
    var last, before := |es| - 1, es[..|es| - 1];
    RunLast(hash, Start, es);
    if After(hash, before).retirement == Some(true) {
      m, j, k := CompletionCaused(hash, before);
    } else {
      CompletedRow(hash, After(hash, before), es[last]);
      k := last;
      m, j := VerifiedCaused(hash, before, es[last].worker);
    }
    assert before[..m] == es[..m] && before[..j] == es[..j] && before[..k] == es[..k];
  }

  /** A tombstone is sent only by a marked retirer. */
  lemma {:induction false} TombstoneSent(hash: Bytes -> string, es: seq<Event>) returns (m: nat, n: nat, w: nat)
    requires After(hash, es).tombs > 0
    ensures Marks(hash, es, m, w) && m < n < |es| && es[n] == SendTombstone(w)
    decreases |es|
  {
    var last, before := |es| - 1, es[..|es| - 1];
    RunLast(hash, Start, es);
    if After(hash, before).tombs > 0 {
      m, n, w := TombstoneSent(hash, before);
    } else {
      TombRow(hash, After(hash, before), es[last]);
      n, w := last, es[last].worker;
      m := MarkedCaused(hash, before, w);
    }
    MarksMore(hash, es, m, w);
  }

  lemma {:induction false} TombRow(hash: Bytes -> string, s: Store, e: Event)
    requires s.tombs == 0 && Step(hash, s, e).tombs > 0
    ensures e.SendTombstone? && e.worker in s.retirers
  {
  }

  lemma {:induction false} MarksMore(hash: Bytes -> string, es: seq<Event>, m: nat, w: nat)
    requires es != [] && Marks(hash, es[..|es| - 1], m, w)
    ensures Marks(hash, es, m, w)
  {
    assert es[..|es| - 1][..m] == es[..m];
  }

  /* ------------------------------------------------------------------ the attempt, the locks, the workers */

  /** The event ends a running attempt: a fence, or the beginning of a retirement. */
  predicate Ends(hash: Bytes -> string, es: seq<Event>, n: nat) {
    && n < |es| && (es[n].FenceAttempt? || Retires(hash, es, n))
    && After(hash, es[..n]).attempt.Dispatchable? && After(hash, es[..n]).readers == map[]
  }

  lemma {:induction false} ClosedRow(hash: Bytes -> string, s: Store, e: Event)
    requires RowsInv(hash, s) && !s.attempt.Closed? && Step(hash, s, e).attempt.Closed?
    ensures s.attempt.Dispatchable? && s.readers == map[] && Step(hash, s, e).epoch == s.epoch + 1
    ensures || e.FenceAttempt?
            || (e.MarkRetirement? && e.expired && s.retirement.None? && s.archive.Some? && Free(s, e.worker))
  {
  }

  lemma {:induction false} ClosedCaused(hash: Bytes -> string, es: seq<Event>) returns (n: nat)
    requires After(hash, es).attempt.Closed?
    ensures Ends(hash, es, n)
    decreases |es|
  {
    var last, before := |es| - 1, es[..|es| - 1];
    RunLast(hash, Start, es);
    RunKeepsReaders(hash, Start, before);
    if After(hash, before).attempt.Closed? {
      n := ClosedCaused(hash, before);
    } else {
      ClosedRow(hash, After(hash, before), es[last]);
      n := last;
    }
    assert before[..n] == es[..n];
  }

  /** An attempt runs only once it was authorised, and under its first epoch. */
  lemma {:induction false} DispatchCaused(hash: Bytes -> string, es: seq<Event>)
    ensures After(hash, es).attempt == Dispatchable(true) || After(hash, es).attempt.Built? ==> AuthorizeDispatch in es
    ensures After(hash, es).epoch == if After(hash, es).attempt.Closed? then 2 else 1
    decreases |es|
  {
    if es != [] {
      DispatchCaused(hash, es[..|es| - 1]);
      RunLast(hash, Start, es);
      assert es[|es| - 1] in es;
    }
  }

  /** Whatever locks the attempt for update waits for the readers. */
  lemma {:induction false} ReadersWaitedFor(hash: Bytes -> string, s: Store, e: Event)
    requires s.readers != map[]
    ensures var t := Step(hash, s, e);
            && t.attempt == s.attempt && t.epoch == s.epoch && t.archive == s.archive && t.retirement == s.retirement
            && t.retainers.Keys <= s.retainers.Keys && t.retirers.Keys <= s.retirers.Keys
  {
  }

  /** A worker does one thing at a time. */
  predicate OneRole(s: Store) {
    && (forall w <- s.retainers :: w !in s.retirers && w !in s.readers)
    && (forall w <- s.retirers :: w !in s.readers)
  }

  lemma {:induction false} StepKeepsRoles(hash: Bytes -> string, s: Store, e: Event)
    requires OneRole(s)
    ensures OneRole(Step(hash, s, e))
  {
    var t := Step(hash, s, e);
    if e.IntendRetention? || e.MarkRetirement? || e.BeginRead? {
      assert forall w :: w != e.worker ==>
          (w in t.retainers ==> w in s.retainers) && (w in t.retirers ==> w in s.retirers)
          && (w in t.readers ==> w in s.readers);
    } else {
      assert t.retainers.Keys <= s.retainers.Keys && t.retirers.Keys <= s.retirers.Keys
             && t.readers.Keys <= s.readers.Keys;
    }
  }

  lemma {:induction false} RunKeepsRoles(hash: Bytes -> string, s: Store, es: seq<Event>)
    requires OneRole(s)
    ensures OneRole(Run(hash, s, es))
    decreases |es|
  {
    if es != [] {
      StepKeepsRoles(hash, s, es[0]);
      RunKeepsRoles(hash, Step(hash, s, es[0]), es[1..]);
    }
  }

  /* ------------------------------------------------------------------ the whole life */

  /** From the start, any acceptable bytes can be retained and built, by any worker. */
  lemma {:induction false} CanBeBuilt(hash: Bytes -> string, w: nat, bytes: Bytes)
    requires 1 <= |bytes| <= Snapshot.MAX_ARCHIVE_BYTES
    ensures var s := After(hash, BuildSteps(w, bytes));
            && s.attempt == Built(hash(bytes)) && s.archive == Some(Archive(hash(bytes), |bytes|, Retained))
            && s.retirement.None? && s.readers == map[] && Free(s, w)
  {
    var e := BuildSteps(w, bytes);
    RunSplit(hash, Start, e[..3], e[3..]);
    assert e[..3] == [e[0], e[1], e[2]] && e[..3] + e[3..] == e && e[3..] == [e[3]] + [e[4]] && [e[4]] + [] == [e[4]];
    CanBeUploaded(hash, w, bytes);
    var s3 := After(hash, e[..3]);
    RunNext(hash, s3, e[3], [e[4]]);
    RunNext(hash, Step(hash, s3, e[3]), e[4], []);
    UploadIsBuilt(hash, s3, w, bytes);
  }

  lemma {:induction false} UploadIsBuilt(hash: Bytes -> string, s: Store, w: nat, bytes: Bytes)
    requires s == Store(Dispatchable(true), 1, Some(Archive(hash(bytes), |bytes|, Quarantined)), None, Payload(bytes),
                        multiset{}, 0, map[w := Uploading(1, bytes)], map[], map[], [])
    ensures var t := Step(hash, Step(hash, s, CheckUpload(w)), Promote(w, true, true, true));
            && t.attempt == Built(hash(bytes)) && t.archive == Some(Archive(hash(bytes), |bytes|, Retained))
            && t.retirement.None? && t.readers == map[] && Free(t, w)
  {
    assert Step(hash, s, CheckUpload(w)).retainers == map[w := Checked(1, bytes)];
  }

  lemma {:induction false} CanBeUploaded(hash: Bytes -> string, w: nat, bytes: Bytes)
    requires 1 <= |bytes| <= Snapshot.MAX_ARCHIVE_BYTES
    ensures After(hash, BuildSteps(w, bytes)[..3])
            == Store(Dispatchable(true), 1, Some(Archive(hash(bytes), |bytes|, Quarantined)), None, Payload(bytes),
                     multiset{}, 0, map[w := Uploading(1, bytes)], map[], map[], [])
  {
    var e := BuildSteps(w, bytes);
    assert e[..3] == [e[0], e[1], e[2]];
    RunThree(hash, Start, e[0], e[1], e[2]);
    var s2 := Step(hash, Step(hash, Start, e[0]), e[1]);
    assert s2.puts == multiset{bytes} && s2.retainers == map[w := Uploading(1, bytes)];
  }

  function BuildSteps(w: nat, bytes: Bytes): seq<Event> {
    [AuthorizeDispatch, IntendRetention(w, 1, bytes, true, true), ApplyPut(bytes), CheckUpload(w),
     Promote(w, true, true, true)]
  }

  lemma {:induction false} RunSplit(hash: Bytes -> string, s: Store, es: seq<Event>, more: seq<Event>)
    ensures Run(hash, s, es + more) == Run(hash, Run(hash, s, es), more)
    decreases |es|
  {
    if es == [] {
      assert es + more == more;
    } else {
      assert (es + more)[0] == es[0] && (es + more)[1..] == es[1..] + more;
      RunSplit(hash, Step(hash, s, es[0]), es[1..], more);
    }
  }

  /** And then expire, and be retired for ever. */
  lemma {:induction false} CanBeRetired(hash: Bytes -> string, es: seq<Event>, w: nat)
    requires After(hash, es).retirement.None? && After(hash, es).archive.Some?
    requires After(hash, es).readers == map[] && Free(After(hash, es), w)
    ensures var s := After(hash, es + [MarkRetirement(w, true), Crash(w)]);
            && s.retirement == Some(false) && s.archive == After(hash, es).archive && Free(s, w)
            && (After(hash, es).attempt.Dispatchable? ==> s.attempt.Closed?)
  {
    var e0, e1 := MarkRetirement(w, true), Crash(w);
    RunSplit(hash, Start, es, [e0, e1]);
    RunNext(hash, After(hash, es), e0, [e1]);
    RunNext(hash, Step(hash, After(hash, es), e0), e1, []);
    assert [e0] + [e1] == [e0, e1] && [e1] + [] == [e1];
  }
}
