/** What every interleaving of retaining, reading and retiring workers guarantees. */
module ArchiveRuns {
  import opened Basics
  import opened ArchiveLifecycle

  /* ------------------------------------------------------------------ what holds whatever the store returns */

  predicate RowsInv(hash: Bytes -> string, s: Store) {
    && (s.retirement.Some? ==> s.archive.Some? && !s.attempt.Dispatchable?)
    && (s.retirement == Some(true) ==> s.archive.Some? && s.archive.value.state.Deleted?)
    && (s.archive.None? ==> s.attempt.Dispatchable? || s.attempt.Closed?)
    && (s.archive.Some? && s.archive.value.state.Retained? ==> s.attempt == Built(s.archive.value.digest))
    && (s.attempt.Built? ==>
         s.archive.Some? && s.attempt.artifactDigest == s.archive.value.digest && !s.archive.value.state.Quarantined?)
    && (s.archive.Some? && s.archive.value.state.Deleted? ==> s.retirement == Some(true))
    && (s.retirement.None? ==> s.tombs == 0 && s.retirers == map[])
  }

  /** A reader holds its locks: the row it saw is still the row. */
  predicate ReaderInv(hash: Bytes -> string, s: Store) {
    && (forall w <- s.readers :: s.archive.Some? && s.archive.value.state.Retained? && s.retirement.None?
          && s.readers[w].digest == s.archive.value.digest && s.readers[w].size == s.archive.value.size
          && (s.readers[w].Fetched? ==> Sound(hash, s.readers[w].bytes, s.readers[w].size, s.readers[w].digest)))
    && (forall r <- s.results :: Sound(hash, r.bytes, r.size, r.digest) && s.archive.Some?
          && r.digest == s.archive.value.digest && r.size == s.archive.value.size)
  }

  lemma {:induction false} StepKeepsRows(hash: Bytes -> string, s: Store, e: Event)
    requires RowsInv(hash, s)
    ensures RowsInv(hash, Step(hash, s, e))
  {
  }

  lemma {:induction false} StepKeepsReaders(hash: Bytes -> string, s: Store, e: Event)
    requires RowsInv(hash, s) && ReaderInv(hash, s)
    ensures ReaderInv(hash, Step(hash, s, e))
  {
  }

  lemma {:induction false} RunKeepsReaders(hash: Bytes -> string, s: Store, es: seq<Event>)
    requires RowsInv(hash, s) && ReaderInv(hash, s)
    ensures RowsInv(hash, Run(hash, s, es)) && ReaderInv(hash, Run(hash, s, es))
    decreases |es|
  {
    if es != [] {
      StepKeepsRows(hash, s, es[0]);
      StepKeepsReaders(hash, s, es[0]);
      RunKeepsReaders(hash, Step(hash, s, es[0]), es[1..]);
    }
  }

  /** Every successful read returned bytes that match the recorded digest and size, whatever the store did. */
  lemma {:induction false} ReadsMatch(hash: Bytes -> string, es: seq<Event>, r: Reading)
    requires r in Run(hash, Start, es).results
    ensures var s := Run(hash, Start, es);
            && s.archive.Some? && r.digest == s.archive.value.digest && r.size == s.archive.value.size
            && |r.bytes| == r.size && hash(r.bytes) == r.digest
  {
    RunKeepsReaders(hash, Start, es);
  }

  /** A read that completes does so while no retirement intent exists, and its archive is retained and built. */
  lemma {:induction false} ReadPrecedesIntent(hash: Bytes -> string, es: seq<Event>, e: Event)
    requires Step(hash, Run(hash, Start, es), e).results != Run(hash, Start, es).results
    ensures var s := Run(hash, Start, es);
            s.retirement.None? && s.archive.Some? && s.archive.value.state.Retained?
            && s.attempt == Built(s.archive.value.digest)
  {
    RunKeepsReaders(hash, Start, es);
  }

  /** After the intent: no read succeeds, nothing is promoted or built, and the intent stays. */
  lemma {:induction false} NothingAfterIntent(hash: Bytes -> string, s: Store, more: seq<Event>)
    requires RowsInv(hash, s) && ReaderInv(hash, s) && s.retirement.Some?
    ensures var t := Run(hash, s, more);
            && t.retirement.Some? && (s.retirement.value ==> t.retirement.value)
            && t.results == s.results && t.attempt == s.attempt
            && s.archive.Some? && t.archive.Some?
            && (t.archive.value == s.archive.value || t.archive.value == s.archive.value.(state := Deleted))
    decreases |more|
  {
    if more != [] {
      StepKeepsRows(hash, s, more[0]);
      StepKeepsReaders(hash, s, more[0]);
      NothingAfterIntent(hash, Step(hash, s, more[0]), more[1..]);
    }
  }

  lemma {:induction false} IntentCloses(hash: Bytes -> string, es: seq<Event>, more: seq<Event>)
    requires Run(hash, Start, es).retirement.Some?
    ensures var s := Run(hash, Start, es); var t := Run(hash, s, more);
            && t.results == s.results && t.attempt == s.attempt
            && (t.archive.Some? && t.archive.value.state.Retained? ==> s.archive == t.archive)
  {
    RunKeepsReaders(hash, Start, es);
    NothingAfterIntent(hash, Run(hash, Start, es), more);
  }

  /* ------------------------------------------------------------------ with a store that keeps what it was given */

  predicate Recorded(hash: Bytes -> string, s: Store, bytes: Bytes) {
    s.archive.Some? && hash(bytes) == s.archive.value.digest && |bytes| == s.archive.value.size
  }

  /** Nothing but the recorded bytes is ever sent, uploaded or stored. */
  predicate RecordedInv(hash: Bytes -> string, s: Store) {
    && (s.cell.Payload? ==> Recorded(hash, s, s.cell.bytes))
    && (forall b <- s.puts :: Recorded(hash, s, b))
    && (forall w <- s.retainers :: Recorded(hash, s, s.retainers[w].bytes))
  }

  /** The payload stays until an intent, and a tombstone that was seen stays for good. */
  predicate TombInv(s: Store) {
    && (s.retirement.None? ==> !s.cell.Tombstone?)
    && (s.retirement.None? ==> forall w <- s.retainers :: s.retainers[w].Checked? ==> s.cell.Payload?)
    && (s.retirement.None? && s.archive.Some? && s.archive.value.state.Retained? ==> s.cell.Payload?)
    && (forall w <- s.retirers :: s.retirers[w].Verified? ==> s.cell.Tombstone?)
    && (s.retirement == Some(true) ==> s.cell.Tombstone?)
  }

  predicate CellInv(hash: Bytes -> string, s: Store) {
    RecordedInv(hash, s) && TombInv(s)
  }

  /** The digest and size of an archive row never change. */
  lemma {:induction false} IdentityKept(hash: Bytes -> string, s: Store, e: Event)
    requires s.archive.Some?
    ensures var t := Step(hash, s, e);
            t.archive.Some? && t.archive.value.digest == s.archive.value.digest
            && t.archive.value.size == s.archive.value.size
  {
  }

  /** Only the upload intent brings new bytes, and it is the archive's first row. */
  lemma {:induction false} NewBytes(hash: Bytes -> string, s: Store, e: Event, b: Bytes)
    requires !e.Corrupt?
    requires var t := Step(hash, s, e);
             b in t.puts || t.cell == Payload(b) || (exists w <- t.retainers :: t.retainers[w].bytes == b)
    ensures || b in s.puts || s.cell == Payload(b) || (exists w <- s.retainers :: s.retainers[w].bytes == b)
            || (e.IntendRetention? && e.bytes == b && Happens(hash, s, e))
  {
  }

  lemma {:induction false} RecordedKept(hash: Bytes -> string, s: Store, e: Event, b: Bytes)
    requires RecordedInv(hash, s) && !e.Corrupt?
    requires var t := Step(hash, s, e);
             b in t.puts || t.cell == Payload(b) || (exists w <- t.retainers :: t.retainers[w].bytes == b)
    ensures Recorded(hash, Step(hash, s, e), b)
  {
    NewBytes(hash, s, e, b);
    if s.archive.Some? { IdentityKept(hash, s, e); }
  }

  lemma {:induction false} TombKept(hash: Bytes -> string, s: Store, e: Event)
    requires RowsInv(hash, s) && TombInv(s) && !e.Corrupt?
    ensures TombInv(Step(hash, s, e))
  {
  }

  lemma {:induction false} StepKeepsCell(hash: Bytes -> string, s: Store, e: Event)
    requires RowsInv(hash, s) && CellInv(hash, s) && !e.Corrupt?
    ensures CellInv(hash, Step(hash, s, e))
  {
    var t := Step(hash, s, e);
    TombKept(hash, s, e);
    if t.cell.Payload? { RecordedKept(hash, s, e, t.cell.bytes); }
    forall b | b in t.puts
      ensures Recorded(hash, t, b)
    {
      RecordedKept(hash, s, e, b);
    }
    forall w | w in t.retainers
      ensures Recorded(hash, t, t.retainers[w].bytes)
    {
      RecordedKept(hash, s, e, t.retainers[w].bytes);
    }
  }

  lemma {:induction false} RunKeepsCell(hash: Bytes -> string, s: Store, es: seq<Event>)
    requires RowsInv(hash, s) && CellInv(hash, s) && Faithful(es)
    ensures RowsInv(hash, Run(hash, s, es)) && CellInv(hash, Run(hash, s, es))
    decreases |es|
  {
    if es != [] {
      StepKeepsRows(hash, s, es[0]);
      StepKeepsCell(hash, s, es[0]);
      RunKeepsCell(hash, Step(hash, s, es[0]), es[1..]);
    }
  }

  /**
   * Once a retirement is complete the key holds a tombstone for ever: late create-only writes,
   * further retirers and crashes change nothing.
   */
  lemma {:induction false} TombstoneForever(hash: Bytes -> string, es: seq<Event>, more: seq<Event>)
    requires Faithful(es) && Faithful(more) && Run(hash, Start, es).retirement == Some(true)
    ensures Run(hash, Run(hash, Start, es), more).cell == Tombstone
  {
    var s := Run(hash, Start, es);
    RunKeepsReaders(hash, Start, es);
    RunKeepsCell(hash, Start, es);
    NothingAfterIntent(hash, s, more);
    RunKeepsCell(hash, s, more);
  }

  lemma {:induction false} RunNext(hash: Bytes -> string, s: Store, e: Event, more: seq<Event>)
    ensures Run(hash, s, [e] + more) == Run(hash, Step(hash, s, e), more)
  {
    assert ([e] + more)[1..] == more;
  }

  lemma {:induction false} RunThree(hash: Bytes -> string, s: Store, e0: Event, e1: Event, e2: Event)
    ensures Run(hash, s, [e0, e1, e2]) == Step(hash, Step(hash, Step(hash, s, e0), e1), e2)
  {
    RunNext(hash, s, e0, [e1, e2]);
    RunNext(hash, Step(hash, s, e0), e1, [e2]);
    RunNext(hash, Step(hash, Step(hash, s, e0), e1), e2, []);
    assert [e0] + [e1, e2] == [e0, e1, e2] && [e1] + [e2] == [e1, e2] && [e2] + [] == [e2];
  }

  /** A built candidate that nobody has begun to retire can be read back, by any idle worker. */
  lemma {:induction false} BuiltIsReadable(hash: Bytes -> string, es: seq<Event>, w: nat)
    requires Faithful(es) && Idle(Run(hash, Start, es), w)
    requires Run(hash, Start, es).attempt.Built? && Run(hash, Start, es).retirement.None?
    ensures var s := Run(hash, Start, es);
            exists bytes :: Run(hash, s, [BeginRead(w, true), Fetch(w), EndRead(w, true)]).results
                         == s.results + [Reading(s.attempt.artifactDigest, |bytes|, bytes)]
                         && hash(bytes) == s.attempt.artifactDigest
  {
    RunKeepsReaders(hash, Start, es);
    RunKeepsCell(hash, Start, es);
    ReadsBack(hash, Run(hash, Start, es), w);
  }

  lemma {:induction false} ReadsBack(hash: Bytes -> string, s: Store, w: nat)
    requires RowsInv(hash, s) && CellInv(hash, s) && Idle(s, w) && s.attempt.Built? && s.retirement.None?
    ensures exists bytes :: Run(hash, s, [BeginRead(w, true), Fetch(w), EndRead(w, true)]).results
                         == s.results + [Reading(s.attempt.artifactDigest, |bytes|, bytes)]
                         && hash(bytes) == s.attempt.artifactDigest
  {
    var e0, e1, e2 := BeginRead(w, true), Fetch(w), EndRead(w, true);
    RunThree(hash, s, e0, e1, e2);
    var s1 := Step(hash, s, e0);
    assert s1.readers[w] == Visible(s.archive.value.digest, s.archive.value.size) && s1.cell == s.cell
           && s1.results == s.results;
    var s2 := Step(hash, s1, e1);
    assert s2.readers[w] == Fetched(s.archive.value.digest, s.archive.value.size, s.cell.bytes)
           && s2.results == s.results;
    assert Step(hash, s2, e2).results == s.results + [Reading(s.attempt.artifactDigest, |s.cell.bytes|, s.cell.bytes)];
  }

  /**
   * An intent left pending by a crash, or by other retirers at any point, can be finished by a later
   * call: any idle worker reaches completion, and the payload is gone.
   */
  lemma {:induction false} RetirementResumes(hash: Bytes -> string, es: seq<Event>, w: nat)
    requires Run(hash, Start, es).retirement == Some(false) && Idle(Run(hash, Start, es), w)
    ensures var s := Run(hash, Start, es);
            var t := Run(hash, Run(hash, s, [MarkRetirement(w, true), SendTombstone(w), ApplyTombstone]),
                         [VerifyTombstone(w), CompleteRetirement(w)]);
            t.retirement == Some(true) && t.cell == Tombstone && t.archive.Some? && t.archive.value.state == Deleted
  {
    RunKeepsReaders(hash, Start, es);
    Resumes(hash, Run(hash, Start, es), w);
  }

  lemma {:induction false} NoReaders(hash: Bytes -> string, s: Store)
    requires ReaderInv(hash, s) && s.retirement.Some?
    ensures s.readers == map[]
  {
    assert forall w :: w !in s.readers;
  }

  lemma {:induction false} Resumes(hash: Bytes -> string, s: Store, w: nat)
    requires RowsInv(hash, s) && ReaderInv(hash, s) && s.retirement == Some(false) && Idle(s, w)
    ensures var t := Run(hash, Run(hash, s, [MarkRetirement(w, true), SendTombstone(w), ApplyTombstone]),
                         [VerifyTombstone(w), CompleteRetirement(w)]);
            t.retirement == Some(true) && t.cell == Tombstone && t.archive.Some? && t.archive.value.state == Deleted
  {
    NoReaders(hash, s);
    var e0, e1, e2 := MarkRetirement(w, true), SendTombstone(w), ApplyTombstone;
    RunThree(hash, s, e0, e1, e2);
    var s1 := Step(hash, s, e0);
    assert s1.retirers[w] == Marked && s1.readers == map[] && s1.archive == s.archive;
    var s2 := Step(hash, s1, e1);
    assert s2.retirers[w] == Marked && s2.readers == map[] && s2.archive == s.archive;
    var s3 := Step(hash, s2, e2);
    assert s3.cell == Tombstone && s3.retirers[w] == Marked && s3.readers == map[] && s3.archive == s.archive;
    Finishes(hash, s3, w);
  }

  lemma {:induction false} Finishes(hash: Bytes -> string, s: Store, w: nat)
    requires w in s.retirers && s.retirers[w] == Marked && s.cell == Tombstone && s.readers == map[] && s.archive.Some?
    ensures var t := Run(hash, s, [VerifyTombstone(w), CompleteRetirement(w)]);
            t.retirement == Some(true) && t.cell == Tombstone && t.archive.Some? && t.archive.value.state == Deleted
  {
    var e3, e4 := VerifyTombstone(w), CompleteRetirement(w);
    RunNext(hash, s, e3, [e4]);
    RunNext(hash, Step(hash, s, e3), e4, []);
    assert [e3] + [e4] == [e3, e4] && [e4] + [] == [e4];
  }
}
