/**
 * What every write, promotion and evaluation took, told by the events of the run: which worker was
 * called with which journal, what it reserved, and in what state it found run, rows and store.
 */
module CompletionCauses {
  import opened Basics
  import opened Completion
  import opened CompletionRuns

  /** The world after the events. */
  function After(env: Env, c: Context, es: seq<Event>): World {
    Run(env, Start(c), es)
  }

  lemma {:induction false} RunLast(env: Env, w: World, es: seq<Event>)
    requires es != []
    ensures Run(env, w, es) == Step(env, Run(env, w, es[..|es| - 1]), es[|es| - 1])
    decreases |es|
  {
    if |es| > 1 {
      RunLast(env, Step(env, w, es[0]), es[1..]);
      assert es[1..][..|es| - 2] == es[..|es| - 1][1..];
    } else {
      assert es[1..] == [] && es[..0] == [];
    }
  }

  /* ------------------------------------------------------------------ the call and its reservation */

  /** The `m`-th event is the worker's call, with this journal. */
  predicate Calls(es: seq<Event>, m: nat, worker: nat, journal: Bytes) {
    m < |es| && es[m] == Call(worker, journal)
  }

  lemma {:induction false} CallRow(env: Env, w: World, e: Event, worker: nat)
    requires At(Step(env, w, e), worker)
    requires Step(env, w, e).workers[worker].Called? || Step(env, w, e).workers[worker].Planning?
    ensures || (e == Call(worker, Step(env, w, e).workers[worker].journal) && !At(w, worker))
            || (At(w, worker) && (w.workers[worker].Called? || w.workers[worker].Planning?)
                && w.workers[worker].journal == Step(env, w, e).workers[worker].journal)
  {
  }

  lemma {:induction false} CallCaused(env: Env, c: Context, es: seq<Event>, worker: nat) returns (m: nat)
    requires At(After(env, c, es), worker)
    requires After(env, c, es).workers[worker].Called? || After(env, c, es).workers[worker].Planning?
    ensures Calls(es, m, worker, After(env, c, es).workers[worker].journal)
    decreases |es|
  {
    var last, before := |es| - 1, es[..|es| - 1];
    RunLast(env, Start(c), es);
    CallRow(env, After(env, c, before), es[last], worker);
    if es[last] == Call(worker, After(env, c, es).workers[worker].journal) {
      m := last;
    } else {
      m := CallCaused(env, c, before, worker);
    }
  }

  /** The run could be locked, and was still the one that the caller's context describes. */
  predicate Locked(w: World, x: Context) {
    w.open && w.holder.None? && w.handoff == Some(x)
  }

  /** The item may be stored at all. */
  predicate Storable(env: Env, item: Item) {
    1 <= |item.bytes| <= MAX_ARTIFACT_BYTES && env.permitted(item.kind, item.contentType)
  }

  /** The only row of the item's kind is exactly the item's, and not rejected; or there is none. */
  predicate Vacant(env: Env, x: Context, rows: map<nat, Row>, item: Item, id: nat) {
    if id in rows then
      && (forall i <- rows :: rows[i].kind == item.kind <==> i == id)
      && ExactRow(env, x, rows[id], item) && rows[id].retained && !rows[id].state.Rejected?
    else forall i <- rows :: rows[i].kind != item.kind
  }

  predicate ExactRow(env: Env, x: Context, row: Row, item: Item) {
    && row.kind == item.kind && row.producer == item.producer && row.contentType == item.contentType
    && row.digest == env.hash(item.bytes) && row.size == |item.bytes| && row.key == KeyOf(env, item)
    && row.manifest == x.manifest && row.epoch == x.epoch
  }

  /** The `n`-th event reserves `plan` for the bundle of this journal in one transaction. */
  ghost predicate Reserves(env: Env, c: Context, es: seq<Event>, n: nat, worker: nat, journal: Bytes, x: Context,
                           plan: seq<Entry>) {
    && n < |es| && es[n].Reserve? && es[n].worker == worker
    && Locked(After(env, c, es[..n]), x)
    && env.bundle(x, journal).Some? && |env.bundle(x, journal).value| == |plan|
    && (forall i, j :: 0 <= i < j < |plan| ==> plan[i].id != plan[j].id)
    && forall k :: 0 <= k < |plan| ==>
         && plan[k].item == env.bundle(x, journal).value[k] && Storable(env, plan[k].item)
         && Vacant(env, x, After(env, c, es[..n]).rows, plan[k].item, plan[k].id)
  }

  lemma {:induction false} ReserveRow(env: Env, w: World, e: Event, worker: nat)
    requires Planned(Step(env, w, e), worker) && !Planned(w, worker)
    ensures e.Reserve? && e.worker == worker && Happens(env, w, e) && At(w, worker) && w.workers[worker].Planning?
    ensures Step(env, w, e).workers[worker]
            == Writing(w.handoff.value, Plan(env.bundle(w.handoff.value, w.workers[worker].journal).value, e.ids), 0)
  {
  }

  predicate Planned(w: World, worker: nat) {
    At(w, worker) && (w.workers[worker].Writing? || w.workers[worker].Placed?)
  }

  lemma {:induction false} PlanStays(env: Env, w: World, e: Event, worker: nat)
    requires Planned(Step(env, w, e), worker) && Planned(w, worker)
    ensures Step(env, w, e).workers[worker].plan == w.workers[worker].plan
    ensures Step(env, w, e).workers[worker].context == w.workers[worker].context
  {
  }

  lemma {:induction false} ReservedItems(env: Env, w: World, e: Event)
    requires e.Reserve? && Happens(env, w, e)
    ensures var x, items := w.handoff.value, env.bundle(w.handoff.value, w.workers[e.worker].journal).value;
            var plan := Plan(items, e.ids);
            && Locked(w, x)
            && (forall i, j :: 0 <= i < j < |plan| ==> plan[i].id != plan[j].id)
            && forall k :: 0 <= k < |plan| ==>
                 && plan[k].item == items[k] && Storable(env, plan[k].item)
                 && Vacant(env, x, w.rows, plan[k].item, plan[k].id)
  {
    var x, items := w.handoff.value, env.bundle(w.handoff.value, w.workers[e.worker].journal).value;
    forall k | 0 <= k < |items|
      ensures Storable(env, items[k]) && Vacant(env, x, w.rows, items[k], e.ids[k])
    {
      assert ItemReservable(env, x, w.rows, items[k], e.ids[k]);
      ReservableIsVacant(env, x, w.rows, items[k], e.ids[k]);
    }
  }

  lemma {:induction false} ReservableIsVacant(env: Env, x: Context, rows: map<nat, Row>, item: Item, id: nat)
    requires ItemReservable(env, x, rows, item, id)
    ensures Storable(env, item) && Vacant(env, x, rows, item, id)
  {
    forall i | i in rows
      ensures rows[i].kind == item.kind <==> i in OfKind(rows, item.kind)
    {
    }
  }

  /** A worker with a plan was called, and reserved exactly that plan for that journal. */
  lemma {:induction false} PlanCaused(env: Env, c: Context, es: seq<Event>, worker: nat)
    returns (m: nat, n: nat, journal: Bytes)
    requires Planned(After(env, c, es), worker)
    ensures m < n && Calls(es, m, worker, journal)
    ensures var phase := After(env, c, es).workers[worker];
            Reserves(env, c, es, n, worker, journal, phase.context, phase.plan)
    decreases |es|
  {
    var last, before := |es| - 1, es[..|es| - 1];
    RunLast(env, Start(c), es);
    if Planned(After(env, c, before), worker) {
      PlanStays(env, After(env, c, before), es[last], worker);
      m, n, journal := PlanCaused(env, c, before, worker);
      assert before[..n] == es[..n];
    } else {
      ReserveRow(env, After(env, c, before), es[last], worker);
      ReservedItems(env, After(env, c, before), es[last]);
      n, journal := last, After(env, c, before).workers[worker].journal;
      m := CallCaused(env, c, before, worker);
    }
  }

  /* ------------------------------------------------------------------ writing */

  /** The worker is about to write the `k`-th object of its plan. */
  predicate AboutToWrite(w: World, worker: nat, x: Context, entry: Entry) {
    && At(w, worker) && w.workers[worker].Writing? && w.workers[worker].context == x
    && w.workers[worker].k < |w.workers[worker].plan| && w.workers[worker].plan[w.workers[worker].k] == entry
  }

  /** The run is locked for the context of the plan, and the row is still exactly the item's. */
  predicate MayStore(env: Env, w: World, worker: nat, x: Context, entry: Entry) {
    && AboutToWrite(w, worker, x, entry) && Locked(w, x)
    && entry.id in w.rows && w.rows[entry.id].retained && !w.rows[entry.id].state.Rejected?
    && w.rows[entry.id].digest == env.hash(entry.item.bytes) && w.rows[entry.id].key == KeyOf(env, entry.item)
    && w.rows[entry.id].contentType == entry.item.contentType && w.rows[entry.id].size == |entry.item.bytes|
    && w.rows[entry.id].manifest == x.manifest && w.rows[entry.id].epoch == x.epoch
  }

  /** The `n`-th event writes the item: nothing stood under its key, and its row was never promoted. */
  predicate Writes(env: Env, c: Context, es: seq<Event>, n: nat, worker: nat, x: Context, entry: Entry, replied: bool) {
    && n < |es| && es[n] == Place(worker, replied)
    && var w := After(env, c, es[..n]);
       && MayStore(env, w, worker, x, entry)
       && w.rows[entry.id].state.Quarantined? && KeyOf(env, entry.item) !in w.store
  }

  lemma {:induction false} PutRow(env: Env, w: World, e: Event)
    requires Puts(env, w, e)
    ensures var entry, x := Current(w, e.worker), w.handoff.value;
            && MayStore(env, w, e.worker, x, entry)
            && w.rows[entry.id].state.Quarantined? && KeyOf(env, entry.item) !in w.store
  {
  }

  /** A write that is still under way was sent by such an event. */
  lemma {:induction false} LateCaused(env: Env, c: Context, es: seq<Event>, key: string, bytes: Bytes)
    returns (n: nat, worker: nat, x: Context, entry: Entry)
    requires (key, bytes) in After(env, c, es).late
    ensures Writes(env, c, es, n, worker, x, entry, false)
    ensures key == KeyOf(env, entry.item) && bytes == entry.item.bytes
    decreases |es|
  {
    var last, before := |es| - 1, es[..|es| - 1];
    RunLast(env, Start(c), es);
    if (key, bytes) in After(env, c, before).late {
      n, worker, x, entry := LateCaused(env, c, before, key, bytes);
      assert before[..n] == es[..n];
    } else {
      var w := After(env, c, before);
      PutRow(env, w, es[last]);
      n, worker, x, entry := last, es[last].worker, w.handoff.value, Current(w, es[last].worker);
    }
  }

  lemma {:induction false} StoreRow(env: Env, w: World, e: Event, key: string)
    requires !e.Disturb? && key in Step(env, w, e).store && key !in w.store
    ensures || (Puts(env, w, e) && e.replied && key == KeyOf(env, Current(w, e.worker).item)
                && Step(env, w, e).store[key] == Current(w, e.worker).item.bytes)
            || (e.Land? && e.key == key && (key, e.bytes) in w.late && Step(env, w, e).store[key] == e.bytes)
  {
  }

  /**
   * In a store that nobody else touches, every object was written by a call for the first of its
   * items, whose run was open and locked for the context it had reserved under, and whose row was
   * retained, quarantined and exactly the item's.
   */
  lemma {:induction false} ObjectCaused(env: Env, c: Context, es: seq<Event>, key: string)
    returns (n: nat, worker: nat, x: Context, entry: Entry, replied: bool)
    requires Undisturbed(es) && key in After(env, c, es).store
    ensures Writes(env, c, es, n, worker, x, entry, replied)
    ensures key == KeyOf(env, entry.item) && After(env, c, es).store[key] == entry.item.bytes
    decreases |es|
  {
    var last, before := |es| - 1, es[..|es| - 1];
    var w, e := After(env, c, before), es[last];
    RunLast(env, Start(c), es);
    assert e in es;
    if key in w.store {
      StepGrows(env, w, e);
      n, worker, x, entry, replied := ObjectCaused(env, c, before, key);
      WritesMore(env, c, es, n, worker, x, entry, replied);
    } else {
      StoreRow(env, w, e, key);
      if e.Land? {
        replied := false;
        n, worker, x, entry := LateCaused(env, c, before, key, e.bytes);
        WritesMore(env, c, es, n, worker, x, entry, replied);
      } else {
        PutRow(env, w, e);
        n, worker, x, entry, replied := last, e.worker, w.handoff.value, Current(w, e.worker), true;
      }
    }
  }

  lemma {:induction false} WritesMore(env: Env, c: Context, es: seq<Event>, n: nat, worker: nat, x: Context,
                                      entry: Entry, replied: bool)
    requires es != [] && Writes(env, c, es[..|es| - 1], n, worker, x, entry, replied)
    ensures Writes(env, c, es, n, worker, x, entry, replied)
  {
    assert es[..|es| - 1][..n] == es[..n];
  }

  /* ------------------------------------------------------------------ promoting */

  /** The `n`-th event stored the object, or found it there with the item's digest. */
  predicate Places(env: Env, c: Context, es: seq<Event>, n: nat, worker: nat, x: Context, entry: Entry) {
    && n < |es| && es[n].Place? && es[n].worker == worker
    && var w := After(env, c, es[..n]);
       && MayStore(env, w, worker, x, entry)
       && if KeyOf(env, entry.item) in w.store
          then env.hash(w.store[KeyOf(env, entry.item)]) == env.hash(entry.item.bytes)
          else w.rows[entry.id].state.Quarantined? && es[n].replied
  }

  /** The worker holds the run's row in the middle of an object's transaction. */
  predicate InMiddle(w: World, worker: nat) {
    && At(w, worker) && w.workers[worker].Placed? && w.workers[worker].k < |w.workers[worker].plan|
  }

  lemma {:induction false} PlacedRow(env: Env, w: World, e: Event, worker: nat)
    requires InMiddle(Step(env, w, e), worker) && !(InMiddle(w, worker) && Step(env, w, e).workers == w.workers)
    requires !InMiddle(w, worker)
    ensures e.Place? && e.worker == worker && (Puts(env, w, e) || Compares(env, w, e)) && Completion.Writes(w, worker)
    ensures Step(env, w, e).workers[worker]
            == Placed(w.workers[worker].context, w.workers[worker].plan, w.workers[worker].k)
    ensures Puts(env, w, e) ==> e.replied
  {
  }

  lemma {:induction false} CompareRow(env: Env, w: World, e: Event)
    requires Compares(env, w, e)
    ensures var entry, x := Current(w, e.worker), w.handoff.value;
            && MayStore(env, w, e.worker, x, entry) && KeyOf(env, entry.item) in w.store
            && env.hash(w.store[KeyOf(env, entry.item)]) == env.hash(entry.item.bytes)
  {
  }

  lemma {:induction false} MiddleStays(env: Env, w: World, e: Event, worker: nat)
    requires InMiddle(Step(env, w, e), worker) && InMiddle(w, worker)
    ensures Step(env, w, e).workers[worker] == w.workers[worker]
  {
  }

  lemma {:induction false} MiddleCaused(env: Env, c: Context, es: seq<Event>, worker: nat) returns (n: nat)
    requires InMiddle(After(env, c, es), worker)
    ensures var phase := After(env, c, es).workers[worker];
            Places(env, c, es, n, worker, phase.context, phase.plan[phase.k])
    decreases |es|
  {
    var last, before := |es| - 1, es[..|es| - 1];
    var w, e := After(env, c, before), es[last];
    RunLast(env, Start(c), es);
    if InMiddle(w, worker) {
      MiddleStays(env, w, e, worker);
      n := MiddleCaused(env, c, before, worker);
      assert before[..n] == es[..n];
    } else {
      PlacedRow(env, w, e, worker);
      if Puts(env, w, e) { PutRow(env, w, e); } else { CompareRow(env, w, e); }
      n := last;
    }
  }

  predicate PromotedIn(rows: map<nat, Row>, id: nat) {
    id in rows && rows[id].state.Promoted?
  }

  lemma {:induction false} PromotedRow(env: Env, w: World, e: Event, id: nat)
    requires !PromotedIn(w.rows, id) && PromotedIn(Step(env, w, e).rows, id)
    ensures e.Promote? && w.holder == Some(e.worker) && InMiddle(w, e.worker)
    ensures w.workers[e.worker].plan[w.workers[e.worker].k].id == id && id in w.rows && w.rows[id].state.Quarantined?
    ensures w.rows[id].manifest == w.workers[e.worker].context.manifest
    ensures w.rows[id].key in w.store && env.hash(w.store[w.rows[id].key]) == w.rows[id].digest
  {
    if Happens(env, w, e) && e.Reserve? {
      ReservedIs(env, w.handoff.value, w.rows, env.bundle(w.handoff.value, w.workers[e.worker].journal).value, e.ids);
    }
  }

  /** The `p`-th event promotes the row of `entry`, after the stored bytes were read back under its digest. */
  predicate Promotes(env: Env, c: Context, es: seq<Event>, p: nat, worker: nat, x: Context, entry: Entry) {
    && p < |es| && es[p] == Promote(worker)
    && var w := After(env, c, es[..p]);
       && w.holder == Some(worker) && InMiddle(w, worker) && w.workers[worker].context == x
       && w.workers[worker].plan[w.workers[worker].k] == entry
       && entry.id in w.rows && w.rows[entry.id].state.Quarantined? && w.rows[entry.id].manifest == x.manifest
       && w.rows[entry.id].key in w.store
       && env.hash(w.store[w.rows[entry.id].key]) == w.rows[entry.id].digest
  }

  /** A row is promoted only in the transaction that stored or compared its object, once that was read back. */
  lemma {:induction false} PromotionCaused(env: Env, c: Context, es: seq<Event>, id: nat)
    returns (n: nat, p: nat, worker: nat, x: Context, entry: Entry)
    requires PromotedIn(After(env, c, es).rows, id)
    ensures n < p && entry.id == id
    ensures Places(env, c, es, n, worker, x, entry) && Promotes(env, c, es, p, worker, x, entry)
    decreases |es|
  {
    var last, before := |es| - 1, es[..|es| - 1];
    var w, e := After(env, c, before), es[last];
    RunLast(env, Start(c), es);
    if PromotedIn(w.rows, id) {
      n, p, worker, x, entry := PromotionCaused(env, c, before, id);
    } else {
      PromotedRow(env, w, e, id);
      worker, p := e.worker, last;
      x, entry := w.workers[worker].context, w.workers[worker].plan[w.workers[worker].k];
      n := MiddleCaused(env, c, before, worker);
    }
    assert before[..n] == es[..n] && before[..p] == es[..p];
  }

  /* ------------------------------------------------------------------ evaluating */

  /** The `n`-th event finds the whole plan of a call written, and no evaluation yet. */
  predicate Completes(env: Env, c: Context, es: seq<Event>, n: nat, worker: nat) {
    && n < |es| && es[n] == ReadAgain(worker)
    && var w := After(env, c, es[..n]);
       && w.evaluation.None? && At(w, worker) && w.workers[worker].Writing?
       && w.workers[worker].k == |w.workers[worker].plan|
  }

  lemma {:induction false} EvaluatingRow(env: Env, w: World, e: Event, worker: nat)
    requires At(Step(env, w, e), worker) && Step(env, w, e).workers[worker].Evaluating?
    ensures || (At(w, worker) && w.workers[worker].Evaluating?)
            || (e == ReadAgain(worker) && w.evaluation.None? && At(w, worker) && w.workers[worker].Writing?
                && w.workers[worker].k == |w.workers[worker].plan|)
  {
  }

  lemma {:induction false} EvaluatingCaused(env: Env, c: Context, es: seq<Event>, worker: nat) returns (n: nat)
    requires At(After(env, c, es), worker) && After(env, c, es).workers[worker].Evaluating?
    ensures Completes(env, c, es, n, worker)
    decreases |es|
  {
    var last, before := |es| - 1, es[..|es| - 1];
    RunLast(env, Start(c), es);
    EvaluatingRow(env, After(env, c, before), es[last], worker);
    if At(After(env, c, before), worker) && After(env, c, before).workers[worker].Evaluating? {
      n := EvaluatingCaused(env, c, before, worker);
    } else {
      n := last;
    }
    assert before[..n] == es[..n];
  }

  /** The stored journal's row is the only place the bundle is recomputed from, and every row is one of its items. */
  predicate WholeBundle(env: Env, w: World, x: Context, row: nat) {
    && row in w.rows && w.rows[row].kind == "RUNNER_JOURNAL" && w.rows[row].key in w.store
    && |w.rows| == env.required(x)
    && var bundle := env.bundle(x, w.store[w.rows[row].key]);
       && bundle.Some?
       && forall id <- w.rows :: exists k :: 0 <= k < |bundle.value| && RowIsItem(env, w, x, id, bundle.value[k])
  }

  predicate RowIsItem(env: Env, w: World, x: Context, id: nat, item: Item) {
    && id in w.rows && ExactRow(env, x, w.rows[id], item) && w.rows[id].retained && w.rows[id].state.Promoted?
    && w.rows[id].key in w.store && w.store[w.rows[id].key] == item.bytes
  }

  /** An open run, locked, with exactly the promoted bundle, whose verdict this is. */
  ghost predicate Decides(env: Env, w: World, row: nat, x: Context, verdict: Snapshot) {
    && Locked(w, x) && WholeBundle(env, w, x, row)
    && env.decide(x, env.bundle(x, w.store[w.rows[row].key]).value, Identities(w.rows)) == Some(verdict)
  }

  /** The `p`-th event evaluates such a run. */
  ghost predicate Evaluates(env: Env, c: Context, es: seq<Event>, p: nat, worker: nat, row: nat, x: Context,
                            verdict: Snapshot) {
    p < |es| && es[p] == Finalize(worker, row) && Decides(env, After(env, c, es[..p]), row, x, verdict)
  }

  lemma {:induction false} EvaluatedRow(env: Env, w: World, e: Event)
    requires e.Finalize? && Happens(env, w, e)
    ensures At(w, e.worker) && w.workers[e.worker].Evaluating?
    ensures Step(env, w, e).evaluation.Some? && w.handoff.Some?
    ensures Decides(env, w, e.journalRow, w.handoff.value, Step(env, w, e).evaluation.value)
  {
    var x := w.handoff.value;
    var items := env.bundle(x, w.store[w.rows[e.journalRow].key]).value;
    forall id | id in w.rows
      ensures exists k :: 0 <= k < |items| && RowIsItem(env, w, x, id, items[k])
    {
      assert RowEvaluated(env, x, w.store, items, w.rows[id]);
      var k :| 0 <= k < |items| && w.rows[id] == RowFor(env, x, items[k]).(state := Completion.State.Promoted)
               && w.rows[id].key in w.store && w.store[w.rows[id].key] == items[k].bytes;
      assert RowIsItem(env, w, x, id, items[k]);
    }
  }

  lemma {:induction false} EvaluationRow(env: Env, w: World, e: Event)
    requires Step(env, w, e).evaluation != w.evaluation
    ensures e.Finalize? && Happens(env, w, e)
  {
  }

  /** A run is evaluated only by a call that had written its whole plan, and on exactly the promoted bundle. */
  lemma {:induction false} EvaluationCaused(env: Env, c: Context, es: seq<Event>)
    returns (n: nat, p: nat, worker: nat, row: nat, x: Context)
    requires After(env, c, es).evaluation.Some?
    ensures n < p && Completes(env, c, es, n, worker)
    ensures Evaluates(env, c, es, p, worker, row, x, After(env, c, es).evaluation.value)
    decreases |es|
  {
    var last, before := |es| - 1, es[..|es| - 1];
    var w, e := After(env, c, before), es[last];
    RunLast(env, Start(c), es);
    if w.evaluation == After(env, c, es).evaluation {
      n, p, worker, row, x := EvaluationCaused(env, c, before);
      assert before[..n] == es[..n] && before[..p] == es[..p];
    } else {
      EvaluationRow(env, w, e);
      n, p, worker, row, x := EvaluatedNow(env, c, es);
    }
  }

  lemma {:induction false} EvaluatedNow(env: Env, c: Context, es: seq<Event>)
    returns (n: nat, p: nat, worker: nat, row: nat, x: Context)
    requires es != [] && es[|es| - 1].Finalize? && Happens(env, After(env, c, es[..|es| - 1]), es[|es| - 1])
    ensures n < p && Completes(env, c, es, n, worker) && After(env, c, es).evaluation.Some?
    ensures Evaluates(env, c, es, p, worker, row, x, After(env, c, es).evaluation.value)
  {
    p := |es| - 1;
    worker, row, x := EvaluatesNow(env, c, es);
    n := EvaluatingCaused(env, c, es[..p], worker);
    CompletesMore(env, c, es, n, worker);
  }

  lemma {:induction false} CompletesMore(env: Env, c: Context, es: seq<Event>, n: nat, worker: nat)
    requires es != [] && Completes(env, c, es[..|es| - 1], n, worker)
    ensures Completes(env, c, es, n, worker)
  {
    assert es[..|es| - 1][..n] == es[..n];
  }

  lemma {:induction false} EvaluatesNow(env: Env, c: Context, es: seq<Event>)
    returns (worker: nat, row: nat, x: Context)
    requires es != [] && es[|es| - 1].Finalize? && Happens(env, After(env, c, es[..|es| - 1]), es[|es| - 1])
    ensures After(env, c, es).evaluation.Some? && worker == es[|es| - 1].worker
    ensures Evaluates(env, c, es, |es| - 1, worker, row, x, After(env, c, es).evaluation.value)
  {
    var w, e := After(env, c, es[..|es| - 1]), es[|es| - 1];
    RunLast(env, Start(c), es);
    EvaluatedRow(env, w, e);
    worker, row, x := e.worker, e.journalRow, w.handoff.value;
  }

  /* ------------------------------------------------------------------ who holds the run */

  /** The run's row is held exactly by the one worker in the middle of an object's transaction. */
  predicate HolderInv(w: World) {
    && (forall worker <- w.workers :: w.workers[worker].Placed? <==> w.holder == Some(worker))
    && (w.holder.Some? ==> w.holder.value in w.workers)
  }

  lemma {:induction false} StepKeepsHolder(env: Env, w: World, e: Event)
    requires HolderInv(w)
    ensures HolderInv(Step(env, w, e))
  {
  }

  lemma {:induction false} RunKeepsHolder(env: Env, w: World, es: seq<Event>)
    requires HolderInv(w)
    ensures HolderInv(Run(env, w, es))
    decreases |es|
  {
    if es != [] {
      StepKeepsHolder(env, w, es[0]);
      RunKeepsHolder(env, Step(env, w, es[0]), es[1..]);
    }
  }

  /** In every run, while one transaction is open nothing but its own end changes run, handoff or rows. */
  lemma {:induction false} HolderExcludes(env: Env, c: Context, es: seq<Event>, e: Event)
    requires After(env, c, es).holder.Some? && e != Promote(After(env, c, es).holder.value)
    ensures var w, t := After(env, c, es), Step(env, After(env, c, es), e);
            && At(w, w.holder.value) && w.workers[w.holder.value].Placed?
            && t.open == w.open && t.handoff == w.handoff && t.rows == w.rows && t.evaluation == w.evaluation
            && (t.holder == w.holder || (e == Crash(w.holder.value) && t.holder.None? && !At(t, w.holder.value)))
  {
    RunKeepsHolder(env, Start(c), es);
  }

  /** A run is open until it is evaluated or closed; its handoff changes only by withdrawal; both wait for the row. */
  lemma {:induction false} OpenIff(env: Env, w: World, e: Event)
    ensures var t := Step(env, w, e);
            && (t.open <==> w.open && t.evaluation == w.evaluation && !(e.CloseRun? && w.holder.None?)
                            && !(e.Finalize? && Happens(env, w, e)))
            && t.handoff == if e.Withdraw? && w.holder.None? then e.handoff else w.handoff
  {
  }

  /** A write whose reply is lost ends its call and its transaction, and stays under way. */
  lemma {:induction false} LostReply(env: Env, w: World, e: Event)
    requires Puts(env, w, e) && !e.replied
    ensures var t, entry := Step(env, w, e), Current(w, e.worker);
            && !At(t, e.worker) && t.holder.None? && t.rows == w.rows && t.store == w.store
            && t.late == w.late + multiset{(KeyOf(env, entry.item), entry.item.bytes)}
  {
  }

  /** It lands only where nothing is. */
  lemma {:induction false} LandsIff(env: Env, w: World, key: string, bytes: Bytes)
    requires (key, bytes) in w.late
    ensures var t := Step(env, w, Land(key, bytes));
            && t.store == (if key in w.store then w.store else w.store[key := bytes])
            && t.late == w.late - multiset{(key, bytes)} && t.rows == w.rows && t.workers == w.workers
  {
  }
}
