/**
 * One candidate archive from its upload intent to its permanent tombstone.
 *
 * A step is one committed transaction, or one action of the object store; any number of retaining,
 * reading and retiring workers interleave, and each may crash between its steps. A write that was
 * sent may be applied much later, or never. A reader holds share locks on the attempt and archive
 * rows from its visibility check to its end, so a transaction that locks the attempt for update
 * waits for it. `hash` is any digest function.
 */
module ArchiveLifecycle {
  import opened Basics
  import Snapshot

  type Bytes = string

  datatype Attempt = Dispatchable(dispatched: bool) | Built(artifactDigest: string) | Closed

  datatype ArchiveState = Quarantined | Retained | Deleted

  datatype Archive = Archive(digest: string, size: nat, state: ArchiveState)

  /** What the store holds under the archive's key; a tombstone is an empty object. */
  datatype Cell = Absent | Payload(bytes: Bytes) | Tombstone

  datatype RetainPhase = Uploading(epoch: nat, bytes: Bytes) | Checked(epoch: nat, bytes: Bytes)

  datatype RetirePhase = Marked | Verified

  datatype ReadPhase = Visible(digest: string, size: nat) | Fetched(digest: string, size: nat, bytes: Bytes)

  datatype Reading = Reading(digest: string, size: nat, bytes: Bytes)

  datatype Store = Store(
    attempt: Attempt, epoch: nat, archive: Option<Archive>, retirement: Option<bool>,
    cell: Cell, puts: multiset<Bytes>, tombs: nat,
    retainers: map<nat, RetainPhase>, retirers: map<nat, RetirePhase>, readers: map<nat, ReadPhase>,
    results: seq<Reading>)

  const Start := Store(Dispatchable(false), 1, None, None, Absent, multiset{}, 0, map[], map[], map[], [])

  /** `owned`, `current`, `expired` and `receipt` are what a transaction reads elsewhere: lease, clock, patch. */
  datatype Event =
    | AuthorizeDispatch
    | FenceAttempt
    | IntendRetention(worker: nat, epoch: nat, bytes: Bytes, owned: bool, current: bool)
    | ApplyPut(bytes: Bytes)
    | CheckUpload(worker: nat)
    | Promote(worker: nat, owned: bool, current: bool, receipt: bool)
    | BeginRead(worker: nat, current: bool)
    | Fetch(worker: nat)
    | EndRead(worker: nat, current: bool)
    | MarkRetirement(worker: nat, expired: bool)
    | SendTombstone(worker: nat)
    | ApplyTombstone
    | VerifyTombstone(worker: nat)
    | CompleteRetirement(worker: nat)
    | Crash(worker: nat)
    | Corrupt(cell: Cell)

  /* ------------------------------------------------------------------ guards */

  /** The attempt row can be locked for update. */
  predicate Lockable(s: Store) {
    s.readers == map[]
  }

  predicate Idle(s: Store, worker: nat) {
    worker !in s.retainers && worker !in s.retirers && worker !in s.readers
  }

  predicate Sound(hash: Bytes -> string, bytes: Bytes, size: nat, digest: string) {
    |bytes| == size && hash(bytes) == digest
  }

  predicate Happens(hash: Bytes -> string, s: Store, e: Event) {
    match e
    case AuthorizeDispatch => Lockable(s) && s.attempt == Dispatchable(false)
    case FenceAttempt => Lockable(s) && s.attempt.Dispatchable?
    case IntendRetention(w, epoch, bytes, owned, current) =>
      && Idle(s, w) && Lockable(s) && s.attempt == Dispatchable(true) && s.epoch == epoch && owned && current
      && s.archive.None? && 0 < |bytes| <= Snapshot.MAX_ARCHIVE_BYTES
    case ApplyPut(bytes) => bytes in s.puts
    case CheckUpload(w) =>
      && w in s.retainers && s.retainers[w].Uploading? && s.cell.Payload? && s.archive.Some?
      && Sound(hash, s.cell.bytes, |s.retainers[w].bytes|, hash(s.retainers[w].bytes))
    case Promote(w, owned, current, receipt) =>
      && w in s.retainers && s.retainers[w].Checked? && Lockable(s)
      && s.attempt == Dispatchable(true) && s.epoch == s.retainers[w].epoch && owned && current && receipt
      && s.retirement.None? && s.archive.Some? && s.archive.value.state.Quarantined?
      && s.archive.value.digest == hash(s.retainers[w].bytes)
    case BeginRead(w, current) =>
      && Idle(s, w) && s.archive.Some? && s.archive.value.state.Retained? && s.attempt == Built(s.archive.value.digest)
      && s.retirement.None? && current
    case Fetch(w) =>
      && w in s.readers && s.readers[w].Visible? && s.cell.Payload?
      && Sound(hash, s.cell.bytes, s.readers[w].size, s.readers[w].digest)
    case EndRead(w, current) => w in s.readers && s.readers[w].Fetched? && current
    case MarkRetirement(w, expired) =>
      Idle(s, w) && Lockable(s) && s.archive.Some? && (s.retirement == Some(false) || (s.retirement.None? && expired))
    case SendTombstone(w) => w in s.retirers && s.retirers[w].Marked?
    case ApplyTombstone => s.tombs > 0
    case VerifyTombstone(w) => w in s.retirers && s.retirers[w].Marked? && s.cell.Tombstone?
    case CompleteRetirement(w) => w in s.retirers && s.retirers[w].Verified? && Lockable(s) && s.archive.Some?
    case Crash(_) => true
    case Corrupt(_) => true
  }

  /* ------------------------------------------------------------------ effects, one row at a time */

  function AttemptNext(s: Store, e: Event): Attempt {
    match e
    case AuthorizeDispatch => Dispatchable(true)
    case FenceAttempt => Closed
    case Promote(_, _, _, _) => if s.archive.Some? then Built(s.archive.value.digest) else s.attempt
    // The retirement intent fences an attempt that is still running.
    case MarkRetirement(_, _) => if s.attempt.Dispatchable? && s.retirement.None? then Closed else s.attempt
    case _ => s.attempt
  }

  function ArchiveNext(hash: Bytes -> string, s: Store, e: Event): Option<Archive> {
    match e
    case IntendRetention(_, _, bytes, _, _) => Some(Archive(hash(bytes), |bytes|, Quarantined))
    case Promote(_, _, _, _) => if s.archive.Some? then Some(s.archive.value.(state := Retained)) else None
    case CompleteRetirement(_) => if s.archive.Some? then Some(s.archive.value.(state := Deleted)) else None
    case _ => s.archive
  }

  function CellNext(s: Store, e: Event): Cell {
    match e
    // Create-only: an object that is there, or a tombstone, refuses the write.
    case ApplyPut(bytes) => if s.cell.Absent? then Payload(bytes) else s.cell
    case ApplyTombstone => Tombstone
    case Corrupt(cell) => cell
    case _ => s.cell
  }

  function RetainersNext(s: Store, e: Event): map<nat, RetainPhase> {
    match e
    case IntendRetention(w, epoch, bytes, _, _) => s.retainers[w := Uploading(epoch, bytes)]
    case CheckUpload(w) =>
      if w in s.retainers then s.retainers[w := Checked(s.retainers[w].epoch, s.retainers[w].bytes)] else s.retainers
    case Promote(w, _, _, _) => s.retainers - {w}
    case Crash(w) => s.retainers - {w}
    case _ => s.retainers
  }

  function RetirersNext(s: Store, e: Event): map<nat, RetirePhase> {
    match e
    case MarkRetirement(w, _) => s.retirers[w := Marked]
    case VerifyTombstone(w) => s.retirers[w := Verified]
    case CompleteRetirement(w) => s.retirers - {w}
    case Crash(w) => s.retirers - {w}
    case _ => s.retirers
  }

  function ReadersNext(s: Store, e: Event): map<nat, ReadPhase> {
    match e
    case BeginRead(w, _) =>
      if s.archive.Some? then s.readers[w := Visible(s.archive.value.digest, s.archive.value.size)] else s.readers
    case Fetch(w) =>
      if w in s.readers && s.cell.Payload?
      then s.readers[w := Fetched(s.readers[w].digest, s.readers[w].size, s.cell.bytes)] else s.readers
    case EndRead(w, _) => s.readers - {w}
    case Crash(w) => s.readers - {w}
    case _ => s.readers
  }

  function ResultsNext(s: Store, e: Event): seq<Reading> {
    match e
    case EndRead(w, _) =>
      if w in s.readers && s.readers[w].Fetched?
      then s.results + [Reading(s.readers[w].digest, s.readers[w].size, s.readers[w].bytes)] else s.results
    case _ => s.results
  }

  function Effect(hash: Bytes -> string, s: Store, e: Event): Store {
    Store(
      AttemptNext(s, e),
      if e.FenceAttempt? || (e.MarkRetirement? && s.attempt.Dispatchable? && s.retirement.None?) then s.epoch + 1
      else s.epoch,
      ArchiveNext(hash, s, e),
      if e.CompleteRetirement? then Some(true)
      else if e.MarkRetirement? && s.retirement.None? then Some(false) else s.retirement,
      CellNext(s, e),
      if e.IntendRetention? then s.puts + multiset{e.bytes}
      else if e.ApplyPut? then s.puts - multiset{e.bytes} else s.puts,
      if e.SendTombstone? then s.tombs + 1 else if e.ApplyTombstone? && s.tombs > 0 then s.tombs - 1 else s.tombs,
      RetainersNext(s, e), RetirersNext(s, e), ReadersNext(s, e), ResultsNext(s, e))
  }

  function Step(hash: Bytes -> string, s: Store, e: Event): Store {
    if Happens(hash, s, e) then Effect(hash, s, e) else s
  }

  function Run(hash: Bytes -> string, s: Store, es: seq<Event>): Store
    decreases |es|
  {
    if es == [] then s else Run(hash, Step(hash, s, es[0]), es[1..])
  }

  predicate Faithful(es: seq<Event>) {
    forall e <- es :: !e.Corrupt?
  }

  /* ------------------------------------------------------------------ the transactions */

  /** The rows and the stored object; each method is one transaction, refused where it raises. */
  class Archives {
    const hash: Bytes -> string
    var attempt: Attempt
    var epoch: nat
    var archive: Option<Archive>
    var retirement: Option<bool>
    var cell: Cell
    var puts: multiset<Bytes>
    var tombs: nat
    var retainers: map<nat, RetainPhase>
    var retirers: map<nat, RetirePhase>
    var readers: map<nat, ReadPhase>
    ghost var results: seq<Reading>

    ghost function View(): Store
      reads this
    {
      Store(attempt, epoch, archive, retirement, cell, puts, tombs, retainers, retirers, readers, results)
    }

    constructor (hash: Bytes -> string)
      ensures this.hash == hash && View() == Start
    {
      this.hash := hash;
      attempt, epoch, archive, retirement := Dispatchable(false), 1, None, None;
      cell, puts, tombs := Absent, multiset{}, 0;
      retainers, retirers, readers, results := map[], map[], map[], [];
    }

    /** `retain_candidate`, up to the upload. */
    method IntendRetention(w: nat, claimed: nat, bytes: Bytes, owned: bool, current: bool) returns (refused: bool)
      requires Idle(View(), w) && Lockable(View())
      modifies this
      ensures refused == !Happens(hash, old(View()), Event.IntendRetention(w, claimed, bytes, owned, current))
      ensures View() == Step(hash, old(View()), Event.IntendRetention(w, claimed, bytes, owned, current))
    {
      if attempt != Dispatchable(true) || epoch != claimed || !owned {
        return true;
      }
      if archive.Some? || !current || bytes == "" || |bytes| > Snapshot.MAX_ARCHIVE_BYTES {
        return true;
      }
      archive := Some(Archive(hash(bytes), |bytes|, Quarantined));
      retainers := retainers[w := Uploading(claimed, bytes)];
      puts := puts + multiset{bytes};
      return false;
    }

    /** The store applies a conditional write. */
    method PutCreateOnly(bytes: Bytes)
      requires bytes in puts
      modifies this
      ensures View() == Step(hash, old(View()), ApplyPut(bytes))
    {
      puts := puts - multiset{bytes};
      if cell.Absent? {
        cell := Payload(bytes);
      }
    }

    /** `retain_candidate`, from the checked upload to the receipt. */
    method Promote(w: nat, owned: bool, current: bool, receipt: bool) returns (refused: bool)
      requires w in retainers && retainers[w].Checked? && Lockable(View())
      modifies this
      ensures refused == !Happens(hash, old(View()), Event.Promote(w, owned, current, receipt))
      ensures View() == Step(hash, old(View()), Event.Promote(w, owned, current, receipt))
    {
      var digest := hash(retainers[w].bytes);
      if attempt != Dispatchable(true) || epoch != retainers[w].epoch || !owned {
        return true;
      }
      if retirement.Some? || !current {
        return true;
      }
      if archive.None? || archive.value.digest != digest || !archive.value.state.Quarantined? || !receipt {
        return true;
      }
      archive := Some(archive.value.(state := Retained));
      attempt := Built(digest);
      retainers := retainers - {w};
      return false;
    }

    /** `read_retained_candidate`: the rows it locks. */
    method BeginRead(w: nat, current: bool) returns (refused: bool)
      requires Idle(View(), w)
      modifies this
      ensures refused == !Happens(hash, old(View()), Event.BeginRead(w, current))
      ensures View() == Step(hash, old(View()), Event.BeginRead(w, current))
    {
      if archive.None? || !archive.value.state.Retained? || attempt != Built(archive.value.digest)
      || retirement.Some? || !current {
        return true;
      }
      readers := readers[w := Visible(archive.value.digest, archive.value.size)];
      return false;
    }

    /** `retire_expired_candidate`, up to the tombstone; `false` where it returns without retiring. */
    method MarkRetirement(w: nat, expired: bool) returns (marked: bool)
      requires Idle(View(), w) && Lockable(View())
      modifies this
      ensures marked == Happens(hash, old(View()), Event.MarkRetirement(w, expired))
      ensures View() == Step(hash, old(View()), Event.MarkRetirement(w, expired))
    {
      if archive.None? {
        return false;
      }
      if retirement.None? {
        if !expired {
          return false;
        }
        retirement := Some(false);
        if attempt.Dispatchable? {
          attempt := Closed;
          epoch := epoch + 1;
        }
      } else if retirement.value {
        return false;
      }
      retirers := retirers[w := Marked];
      return true;
    }

    /** The second transaction of a retirement; a completion by another worker is kept. */
    method CompleteRetirement(w: nat)
      requires w in retirers && retirers[w].Verified? && Lockable(View()) && archive.Some? && retirement.Some?
      modifies this
      ensures View() == Step(hash, old(View()), Event.CompleteRetirement(w))
    {
      if !archive.value.state.Deleted? {
        archive := Some(archive.value.(state := Deleted));
      }
      assert archive == Some(old(archive).value.(state := Deleted));
      if !retirement.value {
        retirement := Some(true);
      }
      assert retirement == Some(true);
      retirers := retirers - {w};
    }
  }
}
