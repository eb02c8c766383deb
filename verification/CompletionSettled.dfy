/**
 * What every crash leaves behind when all calls bring the same journal and nobody else touches the run:
 * a state from which one more call can always finish.
 */
module CompletionSettled {
  import opened Basics
  import opened Completion
  import opened CompletionRuns
  import opened CompletionResume

  /** Only calls with this journal, their crashes, and late writes. */
  predicate Quiet(journal: Bytes, e: Event) {
    && (e.Call? ==> e.journal == journal)
    && !e.Withdraw? && !e.CloseRun? && !e.Purge? && !e.Reject? && !e.Disturb?
  }

  predicate AllQuiet(journal: Bytes, es: seq<Event>) {
    forall e <- es :: Quiet(journal, e)
  }

  /** The row is the reservation of one of the items, which may be uploaded. */
  predicate IsItems(env: Env, c: Context, row: Row, items: seq<Item>) {
    exists k :: 0 <= k < |items| && IsItem(env, c, row, items[k])
  }

  predicate IsItem(env: Env, c: Context, row: Row, item: Item) {
    Matches(env, c, row, item) && Uploadable(env, item)
  }

  predicate RowsSettled(env: Env, c: Context, items: seq<Item>, rows: map<nat, Row>) {
    UniqueKinds(rows) && forall id <- rows :: IsItems(env, c, rows[id], items)
  }

  /** Under an item's key there are the item's bytes or nothing. */
  predicate StoreSettled(env: Env, items: seq<Item>, store: map<string, Bytes>) {
    forall k :: 0 <= k < |items| && KeyOf(env, items[k]) in store ==> store[KeyOf(env, items[k])] == items[k].bytes
  }

  predicate LateSettled(env: Env, items: seq<Item>, late: multiset<(string, Bytes)>) {
    forall put <- late, k :: 0 <= k < |items| && put.0 == KeyOf(env, items[k]) ==> put.1 == items[k].bytes
  }

  predicate PromotedStored(rows: map<nat, Row>, store: map<string, Bytes>) {
    forall id <- rows :: rows[id].state.Promoted? ==> rows[id].key in store
  }

  predicate PhaseSettled(c: Context, journal: Bytes, items: seq<Item>, phase: Phase) {
    match phase
    case Called(j) => j == journal
    case Planning(j) => j == journal
    case Writing(context, plan, k) => context == c && (forall i :: 0 <= i < |plan| ==> plan[i].item in items)
    case Placed(context, plan, k) => context == c && (forall i :: 0 <= i < |plan| ==> plan[i].item in items)
    case _ => true
  }

  predicate WorkersSettled(c: Context, journal: Bytes, items: seq<Item>, workers: map<nat, Phase>) {
    forall worker <- workers :: PhaseSettled(c, journal, items, workers[worker])
  }

  predicate Settled(env: Env, c: Context, journal: Bytes, items: seq<Item>, w: World) {
    && w.handoff == Some(c) && (w.evaluation.None? ==> w.open)
    && RowsSettled(env, c, items, w.rows) && StoreSettled(env, items, w.store) && LateSettled(env, items, w.late)
    && PromotedStored(w.rows, w.store) && WorkersSettled(c, journal, items, w.workers)
  }

  /* ------------------------------------------------------------------ every quiet step keeps it */

  /** Two items of one bundle share a key only if they are the same item. */
  lemma {:induction false} SameKey(env: Env, c: Context, journal: Bytes, items: seq<Item>, one: Item, other: Item)
    requires Lawful(env) && env.bundle(c, journal) == Some(items)
    requires one in items && other in items && KeyOf(env, one) == KeyOf(env, other)
    ensures one == other
  {
    assert BundleLaw(env, c, journal, items);
    KeyInjective(env, one.kind, env.hash(one.bytes), other.kind, env.hash(other.bytes));
  }

  lemma {:induction false} ReserveKeepsRows(env: Env, c: Context, items: seq<Item>, rows: map<nat, Row>, ids: seq<nat>)
    requires RowsSettled(env, c, items, rows) && Reservable(env, c, rows, items, ids) && DistinctKinds(items)
    ensures RowsSettled(env, c, items, Reserved(env, c, rows, items, ids))
  {
    ReservedUnique(env, c, rows, items, ids);
    ReservedIs(env, c, rows, items, ids);
    var r := Reserved(env, c, rows, items, ids);
    forall id | id in r
      ensures IsItems(env, c, r[id], items)
    {
      if id !in rows {
        NewRow(env, c, rows, items, ids, id);
        var k :| 0 <= k < |ids| && ids[k] == id && r[id] == RowFor(env, c, items[k]);
        assert ItemReservable(env, c, rows, items[k], ids[k]);
        assert IsItem(env, c, r[id], items[k]);
      }
    }
  }

  lemma {:induction false} PromoteKeepsRows(env: Env, c: Context, items: seq<Item>, rows: map<nat, Row>, id: nat)
    requires RowsSettled(env, c, items, rows) && id in rows
    ensures RowsSettled(env, c, items, rows[id := rows[id].(state := Promoted)])
  {
    var t := rows[id := rows[id].(state := Promoted)];
    forall i | i in t
      ensures IsItems(env, c, t[i], items)
    {
      assert IsItems(env, c, rows[i], items);
      var k :| 0 <= k < |items| && IsItem(env, c, rows[i], items[k]);
      assert IsItem(env, c, t[i], items[k]);
    }
  }

  lemma {:induction false} StepKeepsRows(env: Env, c: Context, journal: Bytes, items: seq<Item>, w: World, e: Event)
    requires Lawful(env) && env.bundle(c, journal) == Some(items)
    requires Settled(env, c, journal, items, w) && Quiet(journal, e)
    ensures RowsSettled(env, c, items, Step(env, w, e).rows)
  {
    if Happens(env, w, e) {
      if e.Reserve? {
        assert BundleLaw(env, c, journal, items);
        assert PhaseSettled(c, journal, items, w.workers[e.worker]);
        ReserveKeepsRows(env, c, items, w.rows, e.ids);
      } else if e.Promote? {
        PromoteKeepsRows(env, c, items, w.rows, Current(w, e.worker).id);
      }
    }
  }

  lemma {:induction false} PutKeepsStore(env: Env, c: Context, journal: Bytes, items: seq<Item>,
                                         store: map<string, Bytes>, item: Item)
    requires Lawful(env) && env.bundle(c, journal) == Some(items)
    requires StoreSettled(env, items, store) && item in items
    ensures StoreSettled(env, items, store[KeyOf(env, item) := item.bytes])
  {
    forall k | 0 <= k < |items| && KeyOf(env, items[k]) == KeyOf(env, item)
      ensures items[k] == item
    {
      SameKey(env, c, journal, items, items[k], item);
    }
  }

  lemma {:induction false} LostPutKeepsLate(env: Env, c: Context, journal: Bytes, items: seq<Item>,
                                            late: multiset<(string, Bytes)>, item: Item)
    requires Lawful(env) && env.bundle(c, journal) == Some(items)
    requires LateSettled(env, items, late) && item in items
    ensures LateSettled(env, items, late + multiset{(KeyOf(env, item), item.bytes)})
  {
    forall k | 0 <= k < |items| && KeyOf(env, items[k]) == KeyOf(env, item)
      ensures items[k] == item
    {
      SameKey(env, c, journal, items, items[k], item);
    }
  }

  lemma {:induction false} StepKeepsStore(env: Env, c: Context, journal: Bytes, items: seq<Item>, w: World, e: Event)
    requires Lawful(env) && env.bundle(c, journal) == Some(items)
    requires Settled(env, c, journal, items, w) && Quiet(journal, e)
    ensures StoreSettled(env, items, Step(env, w, e).store) && LateSettled(env, items, Step(env, w, e).late)
  {
    if Puts(env, w, e) {
      assert PhaseSettled(c, journal, items, w.workers[e.worker]);
      assert Happens(env, w, e);
      PutKeepsStore(env, c, journal, items, w.store, Current(w, e.worker).item);
      LostPutKeepsLate(env, c, journal, items, w.late, Current(w, e.worker).item);
    } else if Happens(env, w, e) && e.Land? {
      assert forall put <- Step(env, w, e).late :: put in w.late;
    }
  }

  lemma {:induction false} StepKeepsStored(env: Env, c: Context, journal: Bytes, items: seq<Item>, w: World, e: Event)
    requires PromotedStored(w.rows, w.store) && Quiet(journal, e)
    ensures PromotedStored(Step(env, w, e).rows, Step(env, w, e).store)
  {
    StepGrows(env, w, e);
    if Happens(env, w, e) && e.Reserve? {
      var bundle := env.bundle(w.handoff.value, w.workers[e.worker].journal).value;
      ReservedIs(env, w.handoff.value, w.rows, bundle, e.ids);
      forall id | id in Step(env, w, e).rows && id !in w.rows
        ensures Step(env, w, e).rows[id].state.Quarantined?
      {
        NewRow(env, w.handoff.value, w.rows, bundle, e.ids, id);
      }
    }
  }

  lemma {:induction false} StepKeepsWorkers(env: Env, c: Context, journal: Bytes, items: seq<Item>, w: World, e: Event)
    requires env.bundle(c, journal) == Some(items) && w.handoff == Some(c)
    requires WorkersSettled(c, journal, items, w.workers) && Quiet(journal, e)
    ensures WorkersSettled(c, journal, items, Step(env, w, e).workers)
  {
    if Happens(env, w, e) && !e.Land? {
      if At(w, e.worker) {
        assert PhaseSettled(c, journal, items, w.workers[e.worker]);
      }
      forall worker | worker in Step(env, w, e).workers && worker != e.worker
        ensures PhaseSettled(c, journal, items, Step(env, w, e).workers[worker])
      {
        assert Step(env, w, e).workers[worker] == w.workers[worker];
      }
    }
  }

  /** Every crash point of every interleaving of calls with one journal is settled. */
  lemma {:induction false} QuietRunsSettled(env: Env, c: Context, journal: Bytes, items: seq<Item>, w: World,
                                            es: seq<Event>)
    requires Lawful(env) && env.bundle(c, journal) == Some(items)
    requires Settled(env, c, journal, items, w) && AllQuiet(journal, es)
    ensures Settled(env, c, journal, items, Run(env, w, es))
    decreases |es|
  {
    if es != [] {
      assert es[0] in es;
      StepKeepsRows(env, c, journal, items, w, es[0]);
      StepKeepsStore(env, c, journal, items, w, es[0]);
      StepKeepsStored(env, c, journal, items, w, es[0]);
      StepKeepsWorkers(env, c, journal, items, w, es[0]);
      QuietRunsSettled(env, c, journal, items, Step(env, w, es[0]), es[1..]);
    }
  }

  lemma {:induction false} StartSettled(env: Env, c: Context, journal: Bytes, items: seq<Item>)
    ensures Settled(env, c, journal, items, Start(c))
  {
  }

  /* ------------------------------------------------------------------ what is evaluated */

  /** The journal's row names the bundle's journal, and the store holds it or nothing. */
  lemma {:induction false} JournalSettled(env: Env, c: Context, journal: Bytes, items: seq<Item>, w: World, row: nat)
    requires Lawful(env) && env.bundle(c, journal) == Some(items) && Settled(env, c, journal, items, w)
    requires JournalRow(w.rows, row) && w.rows[row].key in w.store
    ensures w.store[w.rows[row].key] == journal
  {
    assert BundleLaw(env, c, journal, items);
    assert IsItems(env, c, w.rows[row], items);
    var k :| 0 <= k < |items| && IsItem(env, c, w.rows[row], items[k]);
    var j :| 0 <= j < |items| && items[j].kind == JOURNAL && items[j].bytes == journal;
    assert k == j;
  }

  lemma {:induction false} AllRowsUploadable(env: Env, c: Context, items: seq<Item>, rows: map<nat, Row>,
                                             store: map<string, Bytes>)
    requires RowsSettled(env, c, items, rows) && DistinctKinds(items) && |rows| == |items|
    requires forall id <- rows :: RowEvaluated(env, c, store, items, rows[id])
    ensures AllUploadable(env, items)
  {
    EveryKindPresent(env, c, store, rows, items);
    forall item | item in items
      ensures Uploadable(env, item)
    {
      assert item.kind in ItemKinds(items);
      var id :| id in rows && rows[id].kind == item.kind;
      assert IsItems(env, c, rows[id], items);
      var k :| 0 <= k < |items| && IsItem(env, c, rows[id], items[k]);
      var m :| 0 <= m < |items| && items[m] == item;
      assert k == m;
    }
  }

  /**
   * Whatever the interleaving, the terminal transaction evaluates this journal's own bundle: it succeeds
   * only when every item may be uploaded, and with the verdict on exactly that bundle and those rows.
   */
  lemma {:induction false} QuietVerdict(env: Env, c: Context, journal: Bytes, items: seq<Item>, w: World, e: Event)
    requires Lawful(env) && env.bundle(c, journal) == Some(items)
    requires Settled(env, c, journal, items, w) && e.Finalize? && Happens(env, w, e)
    ensures AllUploadable(env, items)
    ensures Step(env, w, e).evaluation == env.decide(c, items, Identities(w.rows)) && Step(env, w, e).evaluation.Some?
  {
    assert BundleLaw(env, c, journal, items);
    JournalSettled(env, c, journal, items, w, e.journalRow);
    AllRowsUploadable(env, c, items, w.rows, w.store);
  }
}
