/** What the interleaved calls agree on, what an evaluation covers, and what a crash leaves to resume from. */
module CompletionResume {
  import opened Basics
  import opened Completion
  import opened CompletionRuns

  /* ------------------------------------------------------------------ the first journal wins */

  /** The attempt has at most one artifact of each kind. */
  predicate UniqueKinds(rows: map<nat, Row>) {
    forall a, b :: a in rows && b in rows && rows[a].kind == rows[b].kind ==> a == b
  }

  /** The row was reserved for exactly this item. */
  predicate Names(env: Env, row: Row, item: Item) {
    && row.kind == item.kind && row.producer == item.producer && row.digest == env.hash(item.bytes)
    && row.contentType == item.contentType && row.size == |item.bytes| && row.key == KeyOf(env, item)
  }

  predicate PlanHolds(env: Env, rows: map<nat, Row>, plan: seq<Entry>) {
    forall k :: 0 <= k < |plan| ==> plan[k].id in rows && Names(env, rows[plan[k].id], plan[k].item)
  }

  predicate HasPlan(w: World, worker: nat) {
    At(w, worker) && (w.workers[worker].Writing? || w.workers[worker].Placed?)
  }

  predicate PlansInv(env: Env, w: World) {
    && UniqueKinds(w.rows)
    && forall worker <- w.workers :: HasPlan(w, worker) ==> PlanHolds(env, w.rows, w.workers[worker].plan)
  }

  lemma {:induction false} ForwardPlan(env: Env, r: map<nat, Row>, s: map<nat, Row>, plan: seq<Entry>)
    requires RowsForward(r, s) && PlanHolds(env, r, plan)
    ensures PlanHolds(env, s, plan)
  {
    forall k | 0 <= k < |plan|
      ensures plan[k].id in s && Names(env, s[plan[k].id], plan[k].item)
    {
      assert Forward(r[plan[k].id], s[plan[k].id]);
    }
  }

  lemma {:induction false} ReservedNames(env: Env, c: Context, rows: map<nat, Row>, items: seq<Item>, ids: seq<nat>)
    requires Reservable(env, c, rows, items, ids)
    ensures PlanHolds(env, Reserved(env, c, rows, items, ids), Plan(items, ids))
  {
    ReservedIs(env, c, rows, items, ids);
    var r := Reserved(env, c, rows, items, ids);
    forall k | 0 <= k < |items|
      ensures ids[k] in r && Names(env, r[ids[k]], items[k])
    {
      assert ItemReservable(env, c, rows, items[k], ids[k]);
    }
  }

  lemma {:induction false} ReservedUnique(env: Env, c: Context, rows: map<nat, Row>, items: seq<Item>, ids: seq<nat>)
    requires Reservable(env, c, rows, items, ids) && DistinctKinds(items) && UniqueKinds(rows)
    ensures UniqueKinds(Reserved(env, c, rows, items, ids))
  {
    ReservedIs(env, c, rows, items, ids);
    var r := Reserved(env, c, rows, items, ids);
    forall a, b | a in r && b in r && r[a].kind == r[b].kind
      ensures a == b
    {
      if a !in rows {
        NewRow(env, c, rows, items, ids, a);
      }
      if b !in rows {
        NewRow(env, c, rows, items, ids, b);
      }
    }
  }

  /** A row inserted by the reservation is one item's, and its kind was not there before. */
  lemma {:induction false} NewRow(env: Env, c: Context, rows: map<nat, Row>, items: seq<Item>, ids: seq<nat>, id: nat)
    requires Reservable(env, c, rows, items, ids)
    requires id in Reserved(env, c, rows, items, ids) && id !in rows
    ensures exists k ::
              0 <= k < |ids| && ids[k] == id && Reserved(env, c, rows, items, ids)[id] == RowFor(env, c, items[k])
    ensures forall b <- rows :: rows[b].kind != Reserved(env, c, rows, items, ids)[id].kind
  {
    ReservedIs(env, c, rows, items, ids);
    var k :| 0 <= k < |ids| && ids[k] == id;
    assert ItemReservable(env, c, rows, items[k], ids[k]);
    assert forall b <- rows :: rows[b].kind == items[k].kind ==> b in OfKind(rows, items[k].kind);
  }

  lemma {:induction false} StepKeepsUnique(env: Env, w: World, e: Event)
    requires Lawful(env) && UniqueKinds(w.rows)
    ensures UniqueKinds(Step(env, w, e).rows)
  {
    if Happens(env, w, e) && e.Reserve? {
      var bundle := env.bundle(w.handoff.value, w.workers[e.worker].journal);
      assert BundleLaw(env, w.handoff.value, w.workers[e.worker].journal, bundle.value);
      ReservedUnique(env, w.handoff.value, w.rows, bundle.value, e.ids);
    }
  }

  lemma {:induction false} StepKeepsPlan(env: Env, w: World, e: Event, worker: nat)
    requires PlansInv(env, w) && HasPlan(Step(env, w, e), worker)
    ensures PlanHolds(env, Step(env, w, e).rows, Step(env, w, e).workers[worker].plan)
  {
    StepForward(env, w, e);
    if Happens(env, w, e) && e.Reserve? && e.worker == worker {
      ReservedNames(env, w.handoff.value, w.rows, env.bundle(w.handoff.value, w.workers[worker].journal).value, e.ids);
    } else {
      assert HasPlan(w, worker) && Step(env, w, e).workers[worker].plan == w.workers[worker].plan;
      ForwardPlan(env, w.rows, Step(env, w, e).rows, w.workers[worker].plan);
    }
  }

  lemma {:induction false} RunKeepsPlans(env: Env, w: World, es: seq<Event>)
    requires Lawful(env) && PlansInv(env, w)
    ensures PlansInv(env, Run(env, w, es))
    decreases |es|
  {
    if es != [] {
      StepKeepsUnique(env, w, es[0]);
      forall worker | HasPlan(Step(env, w, es[0]), worker)
        ensures PlanHolds(env, Step(env, w, es[0]).rows, Step(env, w, es[0]).workers[worker].plan)
      {
        StepKeepsPlan(env, w, es[0], worker);
      }
      RunKeepsPlans(env, Step(env, w, es[0]), es[1..]);
    }
  }

  /**
   * Two calls that ever pass the reservation, at whatever times, write the same bytes under the same
   * artifact for each kind: a call with a different journal never gets there.
   */
  lemma {:induction false} FirstJournalWins(env: Env, c: Context, es: seq<Event>, more: seq<Event>, one: nat,
                                            other: nat, k: nat, m: nat)
    requires Lawful(env)
    requires HasPlan(Run(env, Start(c), es), one) && k < |Run(env, Start(c), es).workers[one].plan|
    requires HasPlan(Run(env, Start(c), es + more), other) && m < |Run(env, Start(c), es + more).workers[other].plan|
    requires Run(env, Start(c), es).workers[one].plan[k].item.kind
                 == Run(env, Start(c), es + more).workers[other].plan[m].item.kind
    ensures Run(env, Start(c), es).workers[one].plan[k] == Run(env, Start(c), es + more).workers[other].plan[m]
  {
    RunSplit(env, Start(c), es, more);
    RunKeepsPlans(env, Start(c), es);
    var w := Run(env, Start(c), es);
    RunKeepsPlans(env, w, more);
    RowsNeverMoveBack(env, w, more);
    var t := Run(env, w, more);
    ForwardPlan(env, w.rows, t.rows, w.workers[one].plan);
    var a, b := w.workers[one].plan[k], t.workers[other].plan[m];
    assert Names(env, t.rows[a.id], a.item) && Names(env, t.rows[b.id], b.item);
  }

  /* ------------------------------------------------------------------ what an evaluation covers */

  function Kinds(rows: map<nat, Row>): set<string> {
    set id <- rows :: rows[id].kind
  }

  function ItemKinds(items: seq<Item>): set<string> {
    set item <- items :: item.kind
  }

  lemma {:induction false} KindsCount(rows: map<nat, Row>)
    requires UniqueKinds(rows)
    ensures |Kinds(rows)| == |rows|
    decreases |rows|
  {
    if rows == map[] {
      assert Kinds(rows) == {};
    } else {
      var id :| id in rows;
      var rest := rows - {id};
      assert |rest.Keys| == |rows.Keys| - 1 by {
        assert rest.Keys == rows.Keys - {id};
      }
      KindsCount(rest);
      var kind := rows[id].kind;
      assert kind !in Kinds(rest);
      assert Kinds(rows) == Kinds(rest) + {kind} by {
        forall other | other in Kinds(rows)
          ensures other in Kinds(rest) + {kind}
        {
          var i :| i in rows && rows[i].kind == other;
          assert i != id ==> i in rest && rest[i] == rows[i];
        }
        assert forall i <- rest :: i in rows && rest[i] == rows[i];
        assert kind in Kinds(rows);
      }
    }
  }

  lemma {:induction false} ItemKindsCount(items: seq<Item>)
    ensures |ItemKinds(items)| <= |items|
    decreases |items|
  {
    if items == [] {
      assert ItemKinds(items) == {};
    } else {
      var n := |items| - 1;
      ItemKindsCount(items[..n]);
      assert items == items[..n] + [items[n]];
      assert ItemKinds(items) == ItemKinds(items[..n]) + {items[n].kind};
    }
  }

  lemma {:induction false} SubsetOfSameSize<T>(a: set<T>, b: set<T>)
    requires a <= b && |a| >= |b|
    ensures a == b
  {
    if a != b {
      var x :| x in b && x !in a;
      assert a <= b - {x};
      SubsetSize(a, b - {x});
    }
  }

  lemma {:induction false} SubsetSize<T>(a: set<T>, b: set<T>)
    requires a <= b
    ensures |a| <= |b|
    decreases |a|
  {
    if a != {} {
      var x :| x in a;
      SubsetSize(a - {x}, b - {x});
    }
  }

  /** The bundle an evaluation recomputes from the stored journal. */
  function EvaluatedItems(env: Env, w: World, journalRow: nat): seq<Item>
    requires w.handoff.Some? && Evaluable(env, w.handoff.value, w, journalRow)
  {
    env.bundle(w.handoff.value, w.store[w.rows[journalRow].key]).value
  }

  /** The item is evaluated as one promoted, retained artifact whose stored object is the item's bytes. */
  ghost predicate ItemEvaluated(env: Env, w: World, item: Item) {
    exists id :: id in w.rows && w.handoff.Some? && w.rows[id] == RowFor(env, w.handoff.value, item).(state := Promoted)
                 && w.rows[id].key in w.store && w.store[w.rows[id].key] == item.bytes
                 && Identity(id, item.kind, item.producer, env.hash(item.bytes)) in Identities(w.rows)
  }

  /** Every evaluation, after any run, covers every item of the bundle of the journal that was stored. */
  lemma {:induction false} EvaluationComplete(env: Env, c: Context, es: seq<Event>, e: Event, k: nat)
    requires Lawful(env) && e.Finalize? && Happens(env, Run(env, Start(c), es), e)
    requires k < |EvaluatedItems(env, Run(env, Start(c), es), e.journalRow)|
    ensures var w := Run(env, Start(c), es);
            ItemEvaluated(env, w, EvaluatedItems(env, w, e.journalRow)[k])
  {
    RunKeepsPlans(env, Start(c), es);
    var w := Run(env, Start(c), es);
    var items := EvaluatedItems(env, w, e.journalRow);
    assert BundleLaw(env, w.handoff.value, w.store[w.rows[e.journalRow].key], items);
    EveryKindPresent(env, w.handoff.value, w.store, w.rows, items);
    assert items[k].kind in ItemKinds(items);
    var id :| id in w.rows && w.rows[id].kind == items[k].kind;
    assert RowEvaluated(env, w.handoff.value, w.store, items, w.rows[id]);
    var m :| 0 <= m < |items| && w.rows[id] == RowFor(env, w.handoff.value, items[m]).(state := Promoted)
             && w.rows[id].key in w.store && w.store[w.rows[id].key] == items[m].bytes;
    assert m == k;
    assert Identity(id, w.rows[id].kind, w.rows[id].producer, w.rows[id].digest) in Identities(w.rows);
  }

  lemma {:induction false} EveryKindPresent(env: Env, c: Context, store: map<string, Bytes>, rows: map<nat, Row>,
                                            items: seq<Item>)
    requires UniqueKinds(rows) && |rows| == |items|
    requires forall id <- rows :: RowEvaluated(env, c, store, items, rows[id])
    ensures Kinds(rows) == ItemKinds(items)
  {
    KindsCount(rows);
    ItemKindsCount(items);
    forall kind | kind in Kinds(rows)
      ensures kind in ItemKinds(items)
    {
      var id :| id in rows && rows[id].kind == kind;
      assert RowEvaluated(env, c, store, items, rows[id]);
      var k :| 0 <= k < |items| && rows[id] == RowFor(env, c, items[k]).(state := Promoted)
               && rows[id].key in store && store[rows[id].key] == items[k].bytes;
      assert items[k] in items;
    }
    SubsetOfSameSize(Kinds(rows), ItemKinds(items));
  }
}
