/**
 * Retaining a stopped attempt's evidence and evaluating it once, resumable after any crash.
 *
 * A step is one committed transaction, one unlocked read, or one action of the object store. Every
 * transaction that checks the attempt holds its run's row until it ends, so the two halves of an
 * object's transaction (write or compare, then promote) exclude the others; the object store and
 * the reads of the evaluation do not wait. Any number of calls interleave. A call that raises, or
 * whose process dies, is a crash: its open transaction is rolled back, what the store already took
 * stays, and a write whose reply was lost may be applied much later, or never.
 */
module Completion {
  import opened Basics

  const JOURNAL := "RUNNER_JOURNAL"

  type Bytes = string
  type Snapshot = string

  /** The stopped attempt, as the transactions compare it. */
  datatype Context = Context(manifest: string, epoch: nat, ticket: string)

  datatype Item = Item(kind: string, producer: string, contentType: string, bytes: Bytes)

  datatype State = Quarantined | Promoted | Rejected

  datatype Row = Row(
    kind: string, producer: string, digest: string, contentType: string, size: nat, key: string,
    manifest: string, epoch: nat, retained: bool, state: State)

  datatype Entry = Entry(id: nat, item: Item)

  datatype Identity = Identity(id: nat, kind: string, producer: string, digest: string)

  /**
   * What the protocol is given: the digest, this attempt's key prefix, the permitted content types,
   * the bundle built from closed evidence and a journal, the number of required artifacts, and the verdict.
   */
  datatype Env = Env(
    hash: Bytes -> string, prefix: string, permitted: (string, string) -> bool,
    bundle: (Context, Bytes) -> Option<seq<Item>>, required: Context -> nat,
    decide: (Context, seq<Item>, set<Identity>) -> Option<Snapshot>)

  /** Digests are injective and contain no slash; a bundle is a dictionary of the required kinds holding the journal. */
  ghost predicate Lawful(env: Env) {
    && (forall b, c :: env.hash(b) == env.hash(c) ==> b == c)
    && (forall b :: '/' !in env.hash(b))
    && (forall c, j :: env.bundle(c, j).Some? ==> BundleLaw(env, c, j, env.bundle(c, j).value))
  }

  ghost predicate BundleLaw(env: Env, c: Context, j: Bytes, items: seq<Item>) {
    && DistinctKinds(items) && |items| == env.required(c)
    && (exists k :: 0 <= k < |items| && items[k].kind == JOURNAL && items[k].bytes == j)
    && forall item <- items :: '/' !in item.kind
  }

  predicate DistinctKinds(items: seq<Item>) {
    forall i, j :: 0 <= i < j < |items| ==> items[i].kind != items[j].kind
  }

  function Key(env: Env, kind: string, digest: string): string {
    env.prefix + "/" + kind + "/" + digest
  }

  function KeyOf(env: Env, item: Item): string {
    Key(env, item.kind, env.hash(item.bytes))
  }

  function RowFor(env: Env, c: Context, item: Item): Row {
    Row(item.kind, item.producer, env.hash(item.bytes), item.contentType, |item.bytes|, KeyOf(env, item),
        c.manifest, c.epoch, true, Quarantined)
  }

  predicate Uploadable(env: Env, item: Item) {
    0 < |item.bytes| <= MAX_ARTIFACT_BYTES && env.permitted(item.kind, item.contentType)
  }

  predicate AllUploadable(env: Env, items: seq<Item>) {
    forall item <- items :: Uploadable(env, item)
  }

  /** A row that already holds exactly this item's reservation, still usable. */
  predicate Matches(env: Env, c: Context, row: Row, item: Item) {
    row.(state := Quarantined) == RowFor(env, c, item) && !row.state.Rejected?
  }

  function OfKind(rows: map<nat, Row>, kind: string): set<nat> {
    set id <- rows | rows[id].kind == kind
  }

  /* ------------------------------------------------------------------ the reservation */

  /** Each item either finds its own row, the only one of its kind, or has none of its kind and a fresh id. */
  predicate Reservable(env: Env, c: Context, rows: map<nat, Row>, items: seq<Item>, ids: seq<nat>) {
    && |ids| == |items| && (forall i, j :: 0 <= i < j < |ids| ==> ids[i] != ids[j])
    && forall k :: 0 <= k < |items| ==> ItemReservable(env, c, rows, items[k], ids[k])
  }

  predicate ItemReservable(env: Env, c: Context, rows: map<nat, Row>, item: Item, id: nat) {
    && Uploadable(env, item)
    && if id in rows then OfKind(rows, item.kind) == {id} && Matches(env, c, rows[id], item)
       else OfKind(rows, item.kind) == {}
  }

  function Reserved(env: Env, c: Context, rows: map<nat, Row>, items: seq<Item>, ids: seq<nat>): map<nat, Row>
    requires |ids| == |items|
  {
    if items == [] then rows else
      var n := |items| - 1;
      var before := Reserved(env, c, rows, items[..n], ids[..n]);
      if ids[n] in rows then before else before[ids[n] := RowFor(env, c, items[n])]
  }

  function Plan(items: seq<Item>, ids: seq<nat>): (p: seq<Entry>)
    requires |ids| == |items|
  {
    seq(|items|, k requires 0 <= k < |items| => Entry(ids[k], items[k]))
  }

  /* ------------------------------------------------------------------ the machine */

  datatype Phase =
    | Called(journal: Bytes)
    | Planning(journal: Bytes)
    | Writing(context: Context, plan: seq<Entry>, k: nat)
    | Placed(context: Context, plan: seq<Entry>, k: nat)
    | Evaluating
    | Returned(snapshot: Snapshot)

  /** `open` is the run's FINALIZING status; `handoff` is what an open run's normal STOP left, if it did. */
  datatype World = World(
    open: bool, handoff: Option<Context>, rows: map<nat, Row>, store: map<string, Bytes>,
    late: multiset<(string, Bytes)>, evaluation: Option<Snapshot>, holder: Option<nat>, workers: map<nat, Phase>)

  datatype Event =
    | Call(worker: nat, journal: Bytes)
    | ReadEvaluation(worker: nat)
    | Reserve(worker: nat, ids: seq<nat>)
    | Place(worker: nat, replied: bool)
    | Promote(worker: nat)
    | ReadAgain(worker: nat)
    | Finalize(worker: nat, journalRow: nat)
    | Crash(worker: nat)
    | Land(key: string, bytes: Bytes)
    // What others may do to the same run.
    | Withdraw(handoff: Option<Context>)
    | CloseRun
    | Purge(id: nat)
    | Reject(id: nat)
    | Disturb(key: string, cell: Option<Bytes>)

  function Start(c: Context): World {
    World(true, Some(c), map[], map[], multiset{}, None, None, map[])
  }

  predicate At(w: World, worker: nat) {
    worker in w.workers
  }

  /** `_context` accepts, without waiting for another transaction. */
  predicate Locks(w: World) {
    w.holder.None? && w.open && w.handoff.Some?
  }

  /** The row still describes exactly the bytes about to be written. */
  predicate Retainable(env: Env, c: Context, rows: map<nat, Row>, entry: Entry) {
    && entry.id in rows
    && var row := rows[entry.id];
       && row.retained && !row.state.Rejected?
       && row.key == KeyOf(env, entry.item) && row.digest == env.hash(entry.item.bytes)
       && row.contentType == entry.item.contentType && row.size == |entry.item.bytes|
       && row.manifest == c.manifest && row.epoch == c.epoch
  }

  predicate Writes(w: World, worker: nat) {
    At(w, worker) && w.workers[worker].Writing? && w.workers[worker].k < |w.workers[worker].plan|
  }

  predicate Places(w: World, worker: nat) {
    At(w, worker) && w.workers[worker].Placed? && w.workers[worker].k < |w.workers[worker].plan|
  }

  function Current(w: World, worker: nat): Entry
    requires Writes(w, worker) || Places(w, worker)
  {
    w.workers[worker].plan[w.workers[worker].k]
  }

  /** The object is absent and its row still only quarantined, so it is written. */
  predicate Puts(env: Env, w: World, e: Event) {
    && e.Place? && Writes(w, e.worker)
    && Locks(w) && w.handoff.value == w.workers[e.worker].context
    && var entry := Current(w, e.worker);
       && Retainable(env, w.handoff.value, w.rows, entry)
       && KeyOf(env, entry.item) !in w.store && w.rows[entry.id].state.Quarantined?
  }

  /** The object is already there with the same digest. */
  predicate Compares(env: Env, w: World, e: Event) {
    && e.Place? && Writes(w, e.worker)
    && Locks(w) && w.handoff.value == w.workers[e.worker].context
    && var entry := Current(w, e.worker);
       && Retainable(env, w.handoff.value, w.rows, entry)
       && KeyOf(env, entry.item) in w.store && env.hash(w.store[KeyOf(env, entry.item)]) == env.hash(entry.item.bytes)
  }

  /** `promote`: a promoted row stays as it is, a quarantined one needs the stored bytes to hash to its digest. */
  predicate Promotable(env: Env, c: Context, w: World, id: nat) {
    && id in w.rows && !w.rows[id].state.Rejected?
    && (w.rows[id].state.Quarantined? ==>
          w.rows[id].manifest == c.manifest && w.rows[id].key in w.store
          && env.hash(w.store[w.rows[id].key]) == w.rows[id].digest)
  }

  predicate JournalRow(rows: map<nat, Row>, id: nat) {
    id in rows && rows[id].kind == JOURNAL && forall i <- rows :: rows[i].kind == JOURNAL ==> id <= i
  }

  /** A row that is exactly one item of the bundle, promoted, with the item's bytes in the store. */
  predicate RowEvaluated(env: Env, c: Context, store: map<string, Bytes>, items: seq<Item>, row: Row) {
    exists k :: 0 <= k < |items| && row == RowFor(env, c, items[k]).(state := Promoted)
                && row.key in store && store[row.key] == items[k].bytes
  }

  predicate Evaluable(env: Env, c: Context, w: World, journalRow: nat) {
    && |w.rows| == env.required(c)
    && JournalRow(w.rows, journalRow) && w.rows[journalRow].key in w.store
    && env.bundle(c, w.store[w.rows[journalRow].key]).Some?
    && var items := env.bundle(c, w.store[w.rows[journalRow].key]).value;
       && (forall id <- w.rows :: RowEvaluated(env, c, w.store, items, w.rows[id]))
       && env.decide(c, items, Identities(w.rows)).Some?
  }

  function Identities(rows: map<nat, Row>): set<Identity> {
    set id <- rows :: Identity(id, rows[id].kind, rows[id].producer, rows[id].digest)
  }

  function Verdict(env: Env, w: World, journalRow: nat): Option<Snapshot>
    requires w.handoff.Some? && Evaluable(env, w.handoff.value, w, journalRow)
  {
    env.decide(w.handoff.value, env.bundle(w.handoff.value, w.store[w.rows[journalRow].key]).value, Identities(w.rows))
  }

  predicate Happens(env: Env, w: World, e: Event) {
    match e
    case Call(worker, _) => !At(w, worker)
    case ReadEvaluation(worker) => At(w, worker) && w.workers[worker].Called?
    case Reserve(worker, ids) =>
      && At(w, worker) && w.workers[worker].Planning? && Locks(w)
      && var bundle := env.bundle(w.handoff.value, w.workers[worker].journal);
         bundle.Some? && Reservable(env, w.handoff.value, w.rows, bundle.value, ids)
    case Place(_, _) => Puts(env, w, e) || Compares(env, w, e)
    case Promote(worker) =>
      w.holder == Some(worker) && Places(w, worker)
      && Promotable(env, w.workers[worker].context, w, Current(w, worker).id)
    case ReadAgain(worker) =>
      At(w, worker) && w.workers[worker].Writing? && w.workers[worker].k == |w.workers[worker].plan|
    case Finalize(worker, journalRow) =>
      At(w, worker) && w.workers[worker].Evaluating? && Locks(w) && Evaluable(env, w.handoff.value, w, journalRow)
    case Crash(worker) => At(w, worker)
    case Land(key, bytes) => (key, bytes) in w.late
    case Withdraw(_) => w.holder.None?
    case CloseRun => w.holder.None?
    case Purge(id) => w.holder.None? && id in w.rows
    case Reject(id) => w.holder.None? && id in w.rows && w.rows[id].state.Quarantined?
    case Disturb(_, _) => true
  }

  /* ------------------------------------------------------------------ effects, one table at a time */

  function RowsNext(env: Env, w: World, e: Event): map<nat, Row>
    requires Happens(env, w, e)
  {
    match e
    case Reserve(worker, ids) =>
      Reserved(env, w.handoff.value, w.rows, env.bundle(w.handoff.value, w.workers[worker].journal).value, ids)
    case Promote(worker) => var id := Current(w, worker).id; w.rows[id := w.rows[id].(state := Promoted)]
    case Purge(id) => w.rows[id := w.rows[id].(retained := false)]
    case Reject(id) => w.rows[id := w.rows[id].(state := Rejected)]
    case _ => w.rows
  }

  function StoreNext(env: Env, w: World, e: Event): map<string, Bytes>
    requires Happens(env, w, e)
  {
    match e
    case Place(worker, replied) =>
      if Puts(env, w, e) && replied
      then w.store[KeyOf(env, Current(w, worker).item) := Current(w, worker).item.bytes] else w.store
    case Land(key, bytes) => if key in w.store then w.store else w.store[key := bytes]
    case Disturb(key, cell) => if cell.Some? then w.store[key := cell.value] else w.store - {key}
    case _ => w.store
  }

  function LateNext(env: Env, w: World, e: Event): multiset<(string, Bytes)>
    requires Happens(env, w, e)
  {
    match e
    case Place(worker, replied) =>
      if Puts(env, w, e) && !replied
      then w.late + multiset{(KeyOf(env, Current(w, worker).item), Current(w, worker).item.bytes)} else w.late
    case Land(key, bytes) => w.late - multiset{(key, bytes)}
    case _ => w.late
  }

  function WorkersNext(env: Env, w: World, e: Event): map<nat, Phase>
    requires Happens(env, w, e)
  {
    match e
    case Call(worker, journal) => w.workers[worker := Called(journal)]
    case ReadEvaluation(worker) =>
      w.workers[worker := if w.evaluation.Some? then Returned(w.evaluation.value)
          else Planning(w.workers[worker].journal)]
    case Reserve(worker, ids) =>
      w.workers[worker := Writing(w.handoff.value,
          Plan(env.bundle(w.handoff.value, w.workers[worker].journal).value, ids), 0)]
    case Place(worker, replied) =>
      if Puts(env, w, e) && !replied then w.workers - {worker}
      else w.workers[worker := Placed(w.workers[worker].context, w.workers[worker].plan, w.workers[worker].k)]
    case Promote(worker) =>
      w.workers[worker := Writing(w.workers[worker].context, w.workers[worker].plan, w.workers[worker].k + 1)]
    case ReadAgain(worker) =>
      w.workers[worker := if w.evaluation.Some? then Returned(w.evaluation.value) else Evaluating]
    case Finalize(worker, journalRow) => w.workers[worker := Returned(Verdict(env, w, journalRow).value)]
    case Crash(worker) => w.workers - {worker}
    case _ => w.workers
  }

  function HolderNext(env: Env, w: World, e: Event): Option<nat>
    requires Happens(env, w, e)
  {
    match e
    case Place(worker, replied) => if Puts(env, w, e) && !replied then None else Some(worker)
    case Promote(_) => None
    case Crash(worker) => if w.holder == Some(worker) then None else w.holder
    case _ => w.holder
  }

  function Step(env: Env, w: World, e: Event): World {
    if !Happens(env, w, e) then w else
      World(
        w.open && !e.Finalize? && !e.CloseRun?,
        if e.Withdraw? then e.handoff else w.handoff,
        RowsNext(env, w, e), StoreNext(env, w, e), LateNext(env, w, e),
        if e.Finalize? then Verdict(env, w, e.journalRow) else w.evaluation,
        HolderNext(env, w, e), WorkersNext(env, w, e))
  }

  function Run(env: Env, w: World, es: seq<Event>): World
    decreases |es|
  {
    if es == [] then w else Run(env, Step(env, w, es[0]), es[1..])
  }
}
