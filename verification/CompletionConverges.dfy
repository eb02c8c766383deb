/** Convergence: from whatever quiet calls leave behind, one more call reaches the bundle's own verdict. */
module CompletionConverges {
  import opened Basics
  import opened Completion
  import opened CompletionRuns
  import opened CompletionResume
  import opened CompletionSettled

  /** What the reservation transaction demands of each item. */
  ghost predicate Acceptable(env: Env, c: Context, rows: map<nat, Row>, item: Item) {
    && Uploadable(env, item)
    && (OfKind(rows, item.kind) == {} || exists id ::
         OfKind(rows, item.kind) == {id} && Matches(env, c, rows[id], item))
  }

  ghost predicate AllAcceptable(env: Env, c: Context, rows: map<nat, Row>, items: seq<Item>) {
    forall k :: 0 <= k < |items| ==> Acceptable(env, c, rows, items[k])
  }

  /** What an object's transaction demands: nothing overwritten, nothing inferred, nothing resurrected. */
  predicate Storable(env: Env, c: Context, w: World, entry: Entry) {
    && w.open && w.handoff == Some(c) && Retainable(env, c, w.rows, entry)
    && var key := KeyOf(env, entry.item);
       if key in w.store then env.hash(w.store[key]) == env.hash(entry.item.bytes)
       else w.rows[entry.id].state.Quarantined?
  }

  /** The rows pending after the first items look, to the next item's kind, like the table itself. */
  lemma {:induction false} PendingKind(env: Env, c: Context, rows: map<nat, Row>, items: seq<Item>, ids: seq<nat>,
                                       i: nat)
    requires DistinctKinds(items) && i < |items| && Reservable(env, c, rows, items[..i], ids)
    ensures OfKind(Reserved(env, c, rows, items[..i], ids), items[i].kind) == OfKind(rows, items[i].kind)
    ensures forall id <- OfKind(rows, items[i].kind) ::
              id !in ids && Reserved(env, c, rows, items[..i], ids)[id] == rows[id]
  {
    ReservedIs(env, c, rows, items[..i], ids);
    var r := Reserved(env, c, rows, items[..i], ids);
    forall id | id in r && id !in rows
      ensures r[id].kind != items[i].kind
    {
      NewRow(env, c, rows, items[..i], ids, id);
    }
    forall id | id in OfKind(rows, items[i].kind)
      ensures id !in ids
    {
      forall k | 0 <= k < |ids|
        ensures ids[k] != id
      {
        assert ItemReservable(env, c, rows, items[..i][k], ids[k]);
        assert ids[k] in rows ==> ids[k] in OfKind(rows, items[k].kind);
      }
    }
  }

  /** Adding one more item keeps the reservation what its ids say. */
  lemma {:induction false} ReserveMore(env: Env, c: Context, rows: map<nat, Row>, items: seq<Item>, ids: seq<nat>,
                                       item: Item, id: nat)
    requires Reservable(env, c, rows, items, ids) && ItemReservable(env, c, rows, item, id) && id !in ids
    ensures Reservable(env, c, rows, items + [item], ids + [id])
    ensures Reserved(env, c, rows, items + [item], ids + [id])
            == if id in rows then Reserved(env, c, rows, items, ids)
                else Reserved(env, c, rows, items, ids)[id := RowFor(env, c, item)]
  {
    assert (items + [item])[..|items|] == items && (ids + [id])[..|items|] == ids;
  }

  /** The first `i` items are reserved in `pending`, under their own rows or the unused ids. */
  predicate Reserving(env: Env, c: Context, rows: map<nat, Row>, items: seq<Item>, i: nat, ids: seq<nat>,
                      pending: map<nat, Row>, unused: nat) {
    && i <= |items| && |ids| == i && Reservable(env, c, rows, items[..i], ids)
    && pending == Reserved(env, c, rows, items[..i], ids)
    && forall id <- ids :: id in rows || unused <= id < unused + i
  }

  lemma {:induction false} ReserveStep(env: Env, c: Context, rows: map<nat, Row>, items: seq<Item>, i: nat,
                                       ids: seq<nat>, pending: map<nat, Row>,
                                      unused: nat, id: nat)
    requires Reserving(env, c, rows, items, i, ids, pending, unused) && DistinctKinds(items) && i < |items|
    requires forall x <- rows :: x < unused
    requires Uploadable(env, items[i])
    requires if OfKind(rows, items[i].kind) == {} then id == unused + i
             else OfKind(rows, items[i].kind) == {id} && Matches(env, c, rows[id], items[i])
    ensures Reserving(env, c, rows, items, i + 1, ids + [id],
                      if OfKind(rows, items[i].kind) == {} then pending[id := RowFor(env, c, items[i])]
                      else pending, unused)
    ensures Acceptable(env, c, rows, items[i])
  {
    PendingKind(env, c, rows, items, ids, i);
    assert id in rows <==> OfKind(rows, items[i].kind) != {} by {
      if OfKind(rows, items[i].kind) != {} {
        assert id in OfKind(rows, items[i].kind);
      }
    }
    ReserveMore(env, c, rows, items[..i], ids, items[i], id);
    assert items[..i + 1] == items[..i] + [items[i]];
  }

  lemma {:induction false} SettledAcceptable(env: Env, c: Context, items: seq<Item>, rows: map<nat, Row>, k: nat)
    requires RowsSettled(env, c, items, rows) && DistinctKinds(items) && k < |items|
    ensures Acceptable(env, c, rows, items[k]) == Uploadable(env, items[k])
  {
    if OfKind(rows, items[k].kind) != {} {
      var id :| id in OfKind(rows, items[k].kind);
      assert OfKind(rows, items[k].kind) == {id};
      assert IsItems(env, c, rows[id], items);
      var m :| 0 <= m < |items| && IsItem(env, c, rows[id], items[m]);
      assert m == k;
    }
  }

  lemma {:induction false} SettledAllAcceptable(env: Env, c: Context, items: seq<Item>, rows: map<nat, Row>)
    requires RowsSettled(env, c, items, rows) && DistinctKinds(items)
    ensures AllAcceptable(env, c, rows, items) <==> AllUploadable(env, items)
  {
    forall k | 0 <= k < |items|
      ensures Acceptable(env, c, rows, items[k]) == Uploadable(env, items[k]) && items[k] in items
    {
      SettledAcceptable(env, c, items, rows, k);
    }
  }

  lemma {:induction false} ForwardTrans(r: map<nat, Row>, s: map<nat, Row>, t: map<nat, Row>)
    requires RowsForward(r, s) && RowsForward(s, t)
    ensures RowsForward(r, t)
  {
    forall id | id in r
      ensures id in t && Forward(r[id], t[id])
    {
      assert Forward(r[id], s[id]) && Forward(s[id], t[id]);
    }
  }

  /** In a settled state with every item reserved, the rows are exactly the planned ones. */
  lemma {:induction false} OnlyPlanned(env: Env, c: Context, items: seq<Item>, rows: map<nat, Row>, ids: seq<nat>)
    requires RowsSettled(env, c, items, rows) && DistinctKinds(items)
    requires |ids| == |items| && forall i, j :: 0 <= i < j < |ids| ==> ids[i] != ids[j]
    requires forall k :: 0 <= k < |ids| ==> ids[k] in rows && rows[ids[k]].kind == items[k].kind
    ensures |rows| == |items|
    ensures forall id <- rows :: exists k :: 0 <= k < |ids| && id == ids[k]
  {
    forall id | id in rows
      ensures exists k :: 0 <= k < |ids| && id == ids[k]
    {
      assert IsItems(env, c, rows[id], items);
      var k :| 0 <= k < |items| && IsItem(env, c, rows[id], items[k]);
      assert id == ids[k];
    }
    DistinctCount(ids);
    assert rows.Keys == SetOf(ids);
  }

  function SetOf(ids: seq<nat>): set<nat> {
    set id | id in ids
  }

  lemma {:induction false} DistinctCount(ids: seq<nat>)
    requires forall i, j :: 0 <= i < j < |ids| ==> ids[i] != ids[j]
    ensures |SetOf(ids)| == |ids|
    decreases |ids|
  {
    if ids == [] {
      assert SetOf(ids) == {};
    } else {
      var n := |ids| - 1;
      DistinctCount(ids[..n]);
      assert ids == ids[..n] + [ids[n]];
      assert SetOf(ids) == SetOf(ids[..n]) + {ids[n]};
    }
  }

  predicate PlanMatches(env: Env, c: Context, items: seq<Item>, rows: map<nat, Row>, ids: seq<nat>)
    requires |ids| == |items|
  {
    forall k :: 0 <= k < |ids| ==> ids[k] in rows && Matches(env, c, rows[ids[k]], items[k])
  }

  /** A settled open state in which the whole plan is reserved and its first `n` artifacts are promoted. */
  predicate Progress(env: Env, c: Context, journal: Bytes, items: seq<Item>, w: World, ids: seq<nat>, n: nat) {
    && w.open && Settled(env, c, journal, items, w)
    && |ids| == |items| && (forall i, j :: 0 <= i < j < |ids| ==> ids[i] != ids[j])
    && PlanMatches(env, c, items, w.rows, ids)
    && forall k :: 0 <= k < n && k < |ids| ==> w.rows[ids[k]].state.Promoted?
  }

  lemma {:induction false} ReservedMatches(env: Env, c: Context, items: seq<Item>, rows: map<nat, Row>, ids: seq<nat>)
    requires Reservable(env, c, rows, items, ids)
    ensures PlanMatches(env, c, items, Reserved(env, c, rows, items, ids), ids)
  {
    ReservedIs(env, c, rows, items, ids);
    forall k | 0 <= k < |ids|
      ensures Matches(env, c, Reserved(env, c, rows, items, ids)[ids[k]], items[k])
    {
      assert ItemReservable(env, c, rows, items[k], ids[k]);
    }
  }

  lemma {:induction false} ReservedStored(env: Env, c: Context, items: seq<Item>, rows: map<nat, Row>,
                                          store: map<string, Bytes>, ids: seq<nat>)
    requires Reservable(env, c, rows, items, ids) && PromotedStored(rows, store)
    ensures PromotedStored(Reserved(env, c, rows, items, ids), store)
  {
    ReservedIs(env, c, rows, items, ids);
    var r := Reserved(env, c, rows, items, ids);
    forall id | id in r && id !in rows
      ensures r[id].state.Quarantined?
    {
      NewRow(env, c, rows, items, ids, id);
    }
  }

  lemma {:induction false} ReservedProgress(env: Env, c: Context, journal: Bytes, items: seq<Item>, w: World,
                                            ids: seq<nat>)
    requires Lawful(env) && env.bundle(c, journal) == Some(items)
    requires w.open && Settled(env, c, journal, items, w) && Reservable(env, c, w.rows, items, ids)
    ensures Progress(env, c, journal, items, w.(rows := Reserved(env, c, w.rows, items, ids)), ids, 0)
  {
    assert BundleLaw(env, c, journal, items);
    ReserveKeepsRows(env, c, items, w.rows, ids);
    ReservedMatches(env, c, items, w.rows, ids);
    ReservedStored(env, c, items, w.rows, w.store, ids);
  }

  /** What an object's transaction leaves. */
  function Written(env: Env, w: World, entry: Entry): World
    requires entry.id in w.rows
  {
    w.(rows := w.rows[entry.id := w.rows[entry.id].(state := Promoted)],
       store := if KeyOf(env, entry.item) in w.store then w.store
           else w.store[KeyOf(env, entry.item) := entry.item.bytes])
  }

  lemma {:induction false} NextStorable(env: Env, c: Context, journal: Bytes, items: seq<Item>, w: World, ids: seq<nat>,
                                        k: nat)
    requires Progress(env, c, journal, items, w, ids, k) && k < |ids|
    ensures Storable(env, c, w, Entry(ids[k], items[k]))
  {
    assert Matches(env, c, w.rows[ids[k]], items[k]);
    assert KeyOf(env, items[k]) in w.store ==> w.store[KeyOf(env, items[k])] == items[k].bytes;
  }

  lemma {:induction false} WrittenMatches(env: Env, c: Context, items: seq<Item>, rows: map<nat, Row>, ids: seq<nat>,
                                          k: nat)
    requires |ids| == |items| && (forall i, j :: 0 <= i < j < |ids| ==> ids[i] != ids[j])
    requires PlanMatches(env, c, items, rows, ids) && k < |ids|
    ensures PlanMatches(env, c, items, rows[ids[k] := rows[ids[k]].(state := Promoted)], ids)
  {
    var t := rows[ids[k] := rows[ids[k]].(state := Promoted)];
    forall m | 0 <= m < |ids|
      ensures ids[m] in t && Matches(env, c, t[ids[m]], items[m])
    {
      assert Matches(env, c, rows[ids[m]], items[m]);
    }
  }

  lemma {:induction false} WrittenStored(env: Env, c: Context, items: seq<Item>, w: World, ids: seq<nat>, k: nat)
    requires PromotedStored(w.rows, w.store) && |ids| == |items| && PlanMatches(env, c, items, w.rows, ids) && k < |ids|
    ensures PromotedStored(Written(env, w, Entry(ids[k], items[k])).rows,
                Written(env, w, Entry(ids[k], items[k])).store)
  {
    assert Matches(env, c, w.rows[ids[k]], items[k]);
  }

  lemma {:induction false} WrittenProgress(env: Env, c: Context, journal: Bytes, items: seq<Item>, w: World,
                                           ids: seq<nat>, k: nat)
    requires Lawful(env) && env.bundle(c, journal) == Some(items)
    requires Progress(env, c, journal, items, w, ids, k) && k < |ids|
    ensures Progress(env, c, journal, items, Written(env, w, Entry(ids[k], items[k])), ids, k + 1)
  {
    WrittenMatches(env, c, items, w.rows, ids, k);
    WrittenSettled(env, c, journal, items, w, ids, k);
  }

  lemma {:induction false} WrittenSettled(env: Env, c: Context, journal: Bytes, items: seq<Item>, w: World,
                                          ids: seq<nat>, k: nat)
    requires Lawful(env) && env.bundle(c, journal) == Some(items) && Settled(env, c, journal, items, w)
    requires |ids| == |items| && PlanMatches(env, c, items, w.rows, ids) && k < |ids|
    ensures Settled(env, c, journal, items, Written(env, w, Entry(ids[k], items[k])))
  {
    PromoteKeepsRows(env, c, items, w.rows, ids[k]);
    assert items[k] in items;
    PutKeepsStore(env, c, journal, items, w.store, items[k]);
    WrittenStored(env, c, items, w, ids, k);
  }

  /** A settled state whose whole plan is promoted is evaluable, and its verdict is the bundle's. */
  lemma {:induction false} PromotedEvaluable(env: Env, c: Context, journal: Bytes, items: seq<Item>, w: World,
                                             ids: seq<nat>)
    requires Lawful(env) && env.bundle(c, journal) == Some(items)
    requires Progress(env, c, journal, items, w, ids, |ids|)
    ensures exists j :: JournalRow(w.rows, j)
    ensures forall j :: JournalRow(w.rows, j) ==>
              && w.rows[j].key in w.store && w.store[w.rows[j].key] == journal
              && (Evaluable(env, c, w, j) <==> env.decide(c, items, Identities(w.rows)).Some?)
  {
    assert BundleLaw(env, c, journal, items);
    OnlyPlanned(env, c, items, w.rows, ids);
    forall id | id in w.rows
      ensures RowEvaluated(env, c, w.store, items, w.rows[id])
    {
      var k :| 0 <= k < |ids| && id == ids[k];
      assert Matches(env, c, w.rows[ids[k]], items[k]);
      assert w.rows[id].key == KeyOf(env, items[k]);
    }
    var k :| 0 <= k < |items| && items[k].kind == JOURNAL && items[k].bytes == journal;
    assert Matches(env, c, w.rows[ids[k]], items[k]);
    assert w.rows[ids[k]].key == KeyOf(env, items[k]);
    assert JournalRow(w.rows, ids[k]);
  }

  /** The terminal transaction finds an open run and exactly the complete, promoted bundle of the stored journal. */
  ghost predicate CanEvaluate(env: Env, w: World) {
    Locks(w) && exists j :: Evaluable(env, w.handoff.value, w, j)
  }

  lemma {:induction false} ResumedVerdict(env: Env, c: Context, journal: Bytes, items: seq<Item>, w: World,
                                          ids: seq<nat>)
    requires Lawful(env) && env.bundle(c, journal) == Some(items) && w.holder.None?
    requires Progress(env, c, journal, items, w, ids, |ids|)
    ensures CanEvaluate(env, w) <==> env.decide(c, items, Identities(w.rows)).Some?
    ensures forall j :: Evaluable(env, c, w, j) ==> Verdict(env, w, j) == env.decide(c, items, Identities(w.rows))
  {
    PromotedEvaluable(env, c, journal, items, w, ids);
    var j :| JournalRow(w.rows, j);
    assert Evaluable(env, c, w, j) ==> CanEvaluate(env, w);
  }

  /* ------------------------------------------------------------------ as steps of the machine */

  /** The worlds that the events pass through. */
  predicate Trace(env: Env, w: World, es: seq<Event>, t: World, ws: seq<World>) {
    && |ws| == |es| + 1 && ws[0] == w && ws[|es|] == t
    && forall i {:trigger es[i]} :: 0 <= i < |es| ==> ws[i + 1] == Step(env, ws[i], es[i])
  }

  /** Quiet events lead from one world to the other. */
  ghost predicate Leads(env: Env, journal: Bytes, w: World, es: seq<Event>, t: World) {
    AllQuiet(journal, es) && exists ws :: Trace(env, w, es, t, ws)
  }

  lemma {:induction false} TraceRun(env: Env, w: World, es: seq<Event>, t: World, ws: seq<World>)
    requires Trace(env, w, es, t, ws)
    ensures Run(env, w, es) == t
    decreases |es|
  {
    if es != [] {
      forall i | 0 <= i < |es| - 1
        ensures ws[1..][i + 1] == Step(env, ws[1..][i], es[1..][i])
      {
        assert es[i + 1] == es[1..][i];
      }
      TraceRun(env, ws[1], es[1..], t, ws[1..]);
    }
  }

  lemma {:induction false} LeadsRun(env: Env, journal: Bytes, w: World, es: seq<Event>, t: World)
    requires Leads(env, journal, w, es, t)
    ensures AllQuiet(journal, es) && Run(env, w, es) == t
  {
    var ws :| Trace(env, w, es, t, ws);
    TraceRun(env, w, es, t, ws);
  }

  lemma {:induction false} LeadsNowhere(env: Env, journal: Bytes, w: World)
    ensures Leads(env, journal, w, [], w)
  {
    assert Trace(env, w, [], w, [w]);
  }

  lemma {:induction false} LeadsOne(env: Env, journal: Bytes, w: World, e: Event, t: World)
    requires Quiet(journal, e) && Step(env, w, e) == t
    ensures Leads(env, journal, w, [e], t)
  {
    assert Trace(env, w, [e], t, [w, t]);
  }

  lemma {:induction false} Joins(env: Env, journal: Bytes, w: World, a: seq<Event>, mid: World, b: seq<Event>, t: World)
    returns (es: seq<Event>)
    requires Leads(env, journal, w, a, mid) && Leads(env, journal, mid, b, t)
    ensures es == a + b && Leads(env, journal, w, es, t)
  {
    var one :| Trace(env, w, a, mid, one);
    var two :| Trace(env, mid, b, t, two);
    es := a + b;
    TraceJoins(env, w, a, mid, b, t, one, two);
  }

  lemma {:induction false} TraceJoins(env: Env, w: World, a: seq<Event>, mid: World, b: seq<Event>, t: World,
                                      one: seq<World>, two: seq<World>)
    requires Trace(env, w, a, mid, one) && Trace(env, mid, b, t, two)
    ensures Trace(env, w, a + b, t, one[..|a|] + two)
  {
    var ws, es := one[..|a|] + two, a + b;
    forall i | 0 <= i < |es|
      ensures ws[i + 1] == Step(env, ws[i], es[i])
    {
      if i < |a| {
        assert es[i] == a[i] && ws[i] == one[i] && ws[i + 1] == one[i + 1];
      } else {
        assert es[i] == b[i - |a|] && ws[i] == two[i - |a|] && ws[i + 1] == two[i - |a| + 1];
      }
    }
  }

  lemma {:induction false} LeadsTwo(env: Env, journal: Bytes, w: World, one: Event, mid: World, two: Event, t: World)
    requires Quiet(journal, one) && Quiet(journal, two) && Step(env, w, one) == mid && Step(env, mid, two) == t
    ensures Leads(env, journal, w, [one, two], t)
  {
    LeadsOne(env, journal, w, one, mid);
    LeadsOne(env, journal, mid, two, t);
    var es := Joins(env, journal, w, [one], mid, [two], t);
    assert es == [one, two];
  }

  /** The worker is about to write the `k`-th entry of its plan, and nobody else holds the run. */
  predicate Ready(w: World, worker: nat, c: Context, plan: seq<Entry>, k: nat) {
    w.holder.None? && At(w, worker) && w.workers[worker] == Writing(c, plan, k)
  }

  function Onward(w: World, worker: nat, phase: Phase): World {
    w.(workers := w.workers[worker := phase])
  }

  lemma {:induction false} PlaceStep(env: Env, c: Context, w: World, worker: nat, plan: seq<Entry>, k: nat)
    requires Ready(w, worker, c, plan, k) && k < |plan| && Storable(env, c, w, plan[k])
    ensures Happens(env, w, Place(worker, true))
    ensures Step(env, w, Place(worker, true))
            == Onward(w, worker, Placed(c, plan, k)).(store := Written(env, w, plan[k]).store, holder := Some(worker))
  {
  }

  lemma {:induction false} PromoteStep(env: Env, c: Context, w: World, worker: nat, plan: seq<Entry>, k: nat)
    requires At(w, worker) && w.workers[worker] == Placed(c, plan, k) && w.holder == Some(worker) && k < |plan|
    requires Retainable(env, c, w.rows, plan[k])
    requires KeyOf(env, plan[k].item) in w.store
             && env.hash(w.store[KeyOf(env, plan[k].item)]) == env.hash(plan[k].item.bytes)
    ensures Happens(env, w, Promote(worker))
    ensures Step(env, w, Promote(worker))
            == Onward(w, worker, Writing(c, plan, k + 1)).(
                 rows := w.rows[plan[k].id := w.rows[plan[k].id].(state := State.Promoted)], holder := None)
  {
  }

  /** One object's transaction is two steps of the machine, and they leave what `Written` says. */
  lemma {:induction false} WriteSteps(env: Env, c: Context, journal: Bytes, w: World, worker: nat, plan: seq<Entry>,
                                      k: nat)
    requires Ready(w, worker, c, plan, k) && k < |plan| && Storable(env, c, w, plan[k])
    ensures Leads(env, journal, w, [Place(worker, true), Promote(worker)],
                  Onward(Written(env, w, plan[k]), worker, Writing(c, plan, k + 1)))
  {
    PlaceStep(env, c, w, worker, plan, k);
    var placed := Onward(w, worker, Placed(c, plan, k)).(store := Written(env, w, plan[k]).store,
        holder := Some(worker));
    var promoted := Onward(Written(env, w, plan[k]), worker, Writing(c, plan, k + 1));
    PromoteStep(env, c, placed, worker, plan, k);
    assert placed.workers[worker := Writing(c, plan, k + 1)] == w.workers[worker := Writing(c, plan, k + 1)];
    LeadsTwo(env, journal, w, Place(worker, true), placed, Promote(worker), promoted);
  }

  lemma {:induction false} OnwardProgress(env: Env, c: Context, journal: Bytes, items: seq<Item>, w: World,
                                          ids: seq<nat>, n: nat,
                                          worker: nat, phase: Phase)
    requires Progress(env, c, journal, items, w, ids, n) && PhaseSettled(c, journal, items, phase)
    ensures Progress(env, c, journal, items, Onward(w, worker, phase), ids, n)
  {
  }

  lemma {:induction false} PlanSettled(c: Context, journal: Bytes, items: seq<Item>, ids: seq<nat>, k: nat)
    requires |ids| == |items|
    ensures PhaseSettled(c, journal, items, Writing(c, Plan(items, ids), k))
  {
    forall i | 0 <= i < |items|
      ensures Plan(items, ids)[i].item in items
    {
      assert Plan(items, ids)[i].item == items[i];
    }
  }

  /** The worker writes the rest of its plan. */
  lemma {:induction false} WritesAll(env: Env, c: Context, journal: Bytes, items: seq<Item>, w: World, worker: nat,
                                     ids: seq<nat>, plan: seq<Entry>, k: nat)
    returns (es: seq<Event>, t: World)
    requires Lawful(env) && env.bundle(c, journal) == Some(items) && |ids| == |items| && plan == Plan(items, ids)
    requires Progress(env, c, journal, items, w, ids, k) && k <= |ids| && Ready(w, worker, c, plan, k)
    ensures Leads(env, journal, w, es, t) && t.evaluation == w.evaluation
    ensures Progress(env, c, journal, items, t, ids, |ids|) && Ready(t, worker, c, plan, |ids|)
    decreases |ids| - k, 1
  {
    if k == |ids| {
      LeadsNowhere(env, journal, w);
      es, t := [], w;
    } else {
      es, t := WritesMore(env, c, journal, items, w, worker, ids, plan, k);
    }
  }

  lemma {:induction false} WritesMore(env: Env, c: Context, journal: Bytes, items: seq<Item>, w: World, worker: nat,
                                      ids: seq<nat>, plan: seq<Entry>, k: nat)
    returns (es: seq<Event>, t: World)
    requires Lawful(env) && env.bundle(c, journal) == Some(items) && |ids| == |items| && plan == Plan(items, ids)
    requires Progress(env, c, journal, items, w, ids, k) && k < |ids| && Ready(w, worker, c, plan, k)
    ensures Leads(env, journal, w, es, t) && t.evaluation == w.evaluation
    ensures Progress(env, c, journal, items, t, ids, |ids|) && Ready(t, worker, c, plan, |ids|)
    decreases |ids| - k, 0
  {
    var two, next := WritesNext(env, c, journal, items, w, worker, ids, plan, k);
    var rest;
    rest, t := WritesAll(env, c, journal, items, next, worker, ids, plan, k + 1);
    es := Joins(env, journal, w, two, next, rest, t);
  }

  lemma {:induction false} WritesNext(env: Env, c: Context, journal: Bytes, items: seq<Item>, w: World, worker: nat,
                                      ids: seq<nat>, plan: seq<Entry>, k: nat)
    returns (es: seq<Event>, t: World)
    requires Lawful(env) && env.bundle(c, journal) == Some(items) && |ids| == |items| && plan == Plan(items, ids)
    requires Progress(env, c, journal, items, w, ids, k) && k < |ids| && Ready(w, worker, c, plan, k)
    ensures Leads(env, journal, w, es, t) && t.evaluation == w.evaluation
    ensures Progress(env, c, journal, items, t, ids, k + 1) && Ready(t, worker, c, plan, k + 1)
  {
    es, t := [Place(worker, true), Promote(worker)], Onward(Written(env, w, plan[k]), worker, Writing(c, plan, k + 1));
    NextStorable(env, c, journal, items, w, ids, k);
    WriteSteps(env, c, journal, w, worker, plan, k);
    WrittenOn(env, c, journal, items, w, worker, ids, k);
  }

  lemma {:induction false} WrittenOn(env: Env, c: Context, journal: Bytes, items: seq<Item>, w: World, worker: nat,
                                     ids: seq<nat>, k: nat)
    requires Lawful(env) && env.bundle(c, journal) == Some(items) && Progress(env, c, journal, items, w, ids, k)
             && k < |ids|
    ensures Progress(env, c, journal, items,
                Onward(Written(env, w, Plan(items, ids)[k]), worker, Writing(c, Plan(items, ids), k + 1)),
                     ids, k + 1)
  {
    WrittenProgress(env, c, journal, items, w, ids, k);
    PlanSettled(c, journal, items, ids, k + 1);
    OnwardProgress(env, c, journal, items, Written(env, w, Plan(items, ids)[k]), ids, k + 1, worker,
        Writing(c, Plan(items, ids), k + 1));
  }

  /* ------------------------------------------------------------------ the reservation can be made */

  lemma {:induction false} Unused(rows: map<nat, Row>) returns (unused: nat)
    ensures forall id <- rows :: id < unused
    decreases |rows|
  {
    if rows == map[] {
      return 0;
    }
    var id :| id in rows;
    var rest := rows - {id};
    assert rest.Keys == rows.Keys - {id};
    unused := Unused(rest);
    assert forall other <- rows :: other != id ==> other in rest;
    if unused <= id {
      unused := id + 1;
    }
  }

  lemma {:induction false} ReserveFirst(env: Env, c: Context, rows: map<nat, Row>, items: seq<Item>, i: nat,
                                        unused: nat)
    returns (ids: seq<nat>, pending: map<nat, Row>)
    requires DistinctKinds(items) && AllAcceptable(env, c, rows, items) && i <= |items|
             && forall x <- rows :: x < unused
    ensures Reserving(env, c, rows, items, i, ids, pending, unused)
    decreases i
  {
    if i == 0 {
      return [], rows;
    }
    ids, pending := ReserveFirst(env, c, rows, items, i - 1, unused);
    ids, pending := ReserveNext(env, c, rows, items, i - 1, unused, ids, pending);
  }

  lemma {:induction false} ReserveNext(env: Env, c: Context, rows: map<nat, Row>, items: seq<Item>, i: nat, unused: nat,
                                       ids: seq<nat>, pending: map<nat, Row>)
    returns (ids': seq<nat>, pending': map<nat, Row>)
    requires Reserving(env, c, rows, items, i, ids, pending, unused) && DistinctKinds(items) && i < |items|
    requires Acceptable(env, c, rows, items[i]) && forall x <- rows :: x < unused
    ensures Reserving(env, c, rows, items, i + 1, ids', pending', unused)
  {
    var kind := OfKind(rows, items[i].kind);
    var id: nat := unused + i;
    if kind != {} {
      id :| kind == {id} && Matches(env, c, rows[id], items[i]);
    }
    ReserveStep(env, c, rows, items, i, ids, pending, unused, id);
    return ids + [id], if kind == {} then pending[id := RowFor(env, c, items[i])] else pending;
  }

  /** In a settled state the bundle's reservation is possible exactly when every item may be uploaded. */
  lemma {:induction false} ReservationExists(env: Env, c: Context, items: seq<Item>, rows: map<nat, Row>)
    returns (ids: seq<nat>)
    requires RowsSettled(env, c, items, rows) && DistinctKinds(items) && AllUploadable(env, items)
    ensures Reservable(env, c, rows, items, ids)
  {
    SettledAllAcceptable(env, c, items, rows);
    var unused := Unused(rows);
    var pending;
    ids, pending := ReserveFirst(env, c, rows, items, |items|, unused);
    assert items[..|items|] == items;
  }

  /* ------------------------------------------------------------------ one more call */

  /** A call's first two steps. */
  lemma {:induction false} CallSteps(env: Env, w: World, worker: nat, journal: Bytes)
    requires !At(w, worker)
    ensures Leads(env, journal, w, [Call(worker, journal), ReadEvaluation(worker)],
                  Onward(w, worker, if w.evaluation.Some? then Returned(w.evaluation.value) else Planning(journal)))
  {
    var phase := if w.evaluation.Some? then Returned(w.evaluation.value) else Planning(journal);
    var called := Onward(w, worker, Called(journal));
    assert called.workers[worker := phase] == w.workers[worker := phase];
    LeadsTwo(env, journal, w, Call(worker, journal), called, ReadEvaluation(worker), Onward(w, worker, phase));
  }

  lemma {:induction false} ReserveStepOf(env: Env, c: Context, journal: Bytes, items: seq<Item>, w: World, worker: nat,
                                         ids: seq<nat>)
    requires Locks(w) && w.handoff == Some(c) && env.bundle(c, journal) == Some(items)
    requires At(w, worker) && w.workers[worker] == Planning(journal) && Reservable(env, c, w.rows, items, ids)
    ensures Step(env, w, Reserve(worker, ids))
            == Onward(w.(rows := Reserved(env, c, w.rows, items, ids)), worker, Writing(c, Plan(items, ids), 0))
  {
  }

  /** With the plan written, the worker reads for an earlier result and then evaluates. */
  lemma {:induction false} FinalSteps(env: Env, c: Context, journal: Bytes, w: World, worker: nat, plan: seq<Entry>,
                                      j: nat)
    returns (es: seq<Event>, t: World)
    requires Ready(w, worker, c, plan, |plan|) && w.evaluation.None? && w.open && w.handoff == Some(c)
    requires Evaluable(env, c, w, j)
    ensures Leads(env, journal, w, es, t) && t.rows == w.rows
    ensures At(t, worker) && t.workers[worker] == Returned(Verdict(env, w, j).value)
  {
    var again := Onward(w, worker, Evaluating);
    assert Step(env, w, ReadAgain(worker)) == again;
    es, t := [ReadAgain(worker), Finalize(worker, j)], Step(env, again, Finalize(worker, j));
    LeadsTwo(env, journal, w, ReadAgain(worker), again, Finalize(worker, j), t);
  }

  /** The worker has brought its whole plan to promotion, and waits only for the evaluation. */
  ghost predicate Prepared(env: Env, c: Context, journal: Bytes, items: seq<Item>, w: World, worker: nat) {
    exists ids: seq<nat> ::
      Progress(env, c, journal, items, w, ids, |ids|) && Ready(w, worker, c, Plan(items, ids), |ids|)
  }

  lemma {:induction false} PreparesFrom(env: Env, c: Context, journal: Bytes, items: seq<Item>, w: World, worker: nat)
    returns (es: seq<Event>, t: World)
    requires Lawful(env) && env.bundle(c, journal) == Some(items) && AllUploadable(env, items)
    requires Settled(env, c, journal, items, w) && w.holder.None? && w.evaluation.None?
    requires At(w, worker) && w.workers[worker] == Planning(journal)
    ensures Leads(env, journal, w, es, t)
    ensures Prepared(env, c, journal, items, t, worker) && t.evaluation.None?
  {
    assert BundleLaw(env, c, journal, items);
    var ids := ReservationExists(env, c, items, w.rows);
    ReserveStepOf(env, c, journal, items, w, worker, ids);
    ReservedProgress(env, c, journal, items, w, ids);
    PlanSettled(c, journal, items, ids, 0);
    var reserved := w.(rows := Reserved(env, c, w.rows, items, ids));
    OnwardProgress(env, c, journal, items, reserved, ids, 0, worker, Writing(c, Plan(items, ids), 0));
    var writing := Onward(reserved, worker, Writing(c, Plan(items, ids), 0));
    es, t := WritesAll(env, c, journal, items, writing, worker, ids, Plan(items, ids), 0);
    LeadsOne(env, journal, w, Reserve(worker, ids), writing);
    es := Joins(env, journal, w, [Reserve(worker, ids)], writing, es, t);
  }

  /** What one more call comes to: the earlier snapshot, or, of an uploadable bundle, its own verdict if it has one. */
  ghost predicate Concludes(env: Env, c: Context, items: seq<Item>, w: World, t: World, worker: nat) {
    && (w.evaluation.Some? ==> At(t, worker) && t.workers[worker] == Returned(w.evaluation.value))
    && (w.evaluation.None? && AllUploadable(env, items) ==>
          && |t.rows| == |items| && (forall id <- t.rows :: t.rows[id].state.Promoted?)
          && var verdict := env.decide(c, items, Identities(t.rows));
             verdict.Some? ==> At(t, worker) && t.workers[worker] == Returned(verdict.value))
  }

  lemma {:induction false} PreparedRows(env: Env, c: Context, journal: Bytes, items: seq<Item>, w: World, ids: seq<nat>)
    requires Lawful(env) && env.bundle(c, journal) == Some(items) && Progress(env, c, journal, items, w, ids, |ids|)
    ensures |w.rows| == |items| && forall id <- w.rows :: w.rows[id].state.Promoted?
  {
    assert BundleLaw(env, c, journal, items);
    OnlyPlanned(env, c, items, w.rows, ids);
  }

  lemma {:induction false} EvaluableRow(env: Env, c: Context, journal: Bytes, items: seq<Item>, w: World, ids: seq<nat>)
    returns (j: nat)
    requires Lawful(env) && env.bundle(c, journal) == Some(items) && env.decide(c, items, Identities(w.rows)).Some?
    requires Progress(env, c, journal, items, w, ids, |ids|) && w.holder.None?
    ensures Evaluable(env, c, w, j) && Verdict(env, w, j) == env.decide(c, items, Identities(w.rows))
  {
    PromotedEvaluable(env, c, journal, items, w, ids);
    ResumedVerdict(env, c, journal, items, w, ids);
    j :| JournalRow(w.rows, j);
  }

  lemma {:induction false} PreparedVerdict(env: Env, c: Context, journal: Bytes, items: seq<Item>, w: World,
                                           worker: nat, ids: seq<nat>)
    returns (es: seq<Event>, t: World)
    requires Lawful(env) && env.bundle(c, journal) == Some(items) && env.decide(c, items, Identities(w.rows)).Some?
    requires Progress(env, c, journal, items, w, ids, |ids|) && Ready(w, worker, c, Plan(items, ids), |ids|)
             && w.evaluation.None?
    ensures Leads(env, journal, w, es, t) && t.rows == w.rows
    ensures At(t, worker) && t.workers[worker] == Returned(env.decide(c, items, Identities(w.rows)).value)
  {
    var j := EvaluableRow(env, c, journal, items, w, ids);
    es, t := FinalSteps(env, c, journal, w, worker, Plan(items, ids), j);
  }

  lemma {:induction false} PreparedConcludes(env: Env, c: Context, journal: Bytes, items: seq<Item>, w: World,
                                             worker: nat)
    returns (es: seq<Event>, t: World)
    requires Lawful(env) && env.bundle(c, journal) == Some(items) && AllUploadable(env, items)
    requires Prepared(env, c, journal, items, w, worker) && w.evaluation.None?
    ensures Leads(env, journal, w, es, t) && Concludes(env, c, items, w, t, worker)
  {
    var ids: seq<nat> :|
      Progress(env, c, journal, items, w, ids, |ids|)
      && Ready(w, worker, c, Plan(items, ids), |ids|);
    PreparedRows(env, c, journal, items, w, ids);
    es, t := [], w;
    LeadsNowhere(env, journal, w);
    if env.decide(c, items, Identities(w.rows)).Some? {
      es, t := PreparedVerdict(env, c, journal, items, w, worker, ids);
    }
  }

  lemma {:induction false} PlannedConcludes(env: Env, c: Context, journal: Bytes, items: seq<Item>, w: World,
                                            worker: nat)
    returns (es: seq<Event>, t: World)
    requires Lawful(env) && env.bundle(c, journal) == Some(items) && AllUploadable(env, items)
    requires Settled(env, c, journal, items, w) && w.holder.None? && w.evaluation.None?
    requires At(w, worker) && w.workers[worker] == Planning(journal)
    ensures Leads(env, journal, w, es, t) && Concludes(env, c, items, w, t, worker)
  {
    var writes, prepared := PreparesFrom(env, c, journal, items, w, worker);
    es, t := PreparedConcludes(env, c, journal, items, prepared, worker);
    es := Joins(env, journal, w, writes, prepared, es, t);
  }

  lemma {:induction false} CompletesFrom(env: Env, c: Context, journal: Bytes, items: seq<Item>, w: World, worker: nat)
    returns (es: seq<Event>, t: World)
    requires Lawful(env) && env.bundle(c, journal) == Some(items)
    requires Settled(env, c, journal, items, w) && w.holder.None? && !At(w, worker)
    ensures Leads(env, journal, w, es, t) && Concludes(env, c, items, w, t, worker)
  {
    es, t := [Call(worker, journal), ReadEvaluation(worker)],
             Onward(w, worker, if w.evaluation.Some? then Returned(w.evaluation.value) else Planning(journal));
    CallSteps(env, w, worker, journal);
    if w.evaluation.None? && AllUploadable(env, items) {
      var called, rest := t, [];
      rest, t := PlannedConcludes(env, c, journal, items, called, worker);
      es := Joins(env, journal, w, es, called, rest, t);
    }
  }

  /**
   * Convergence. After any interleaving of calls with one journal, with any crashes and any late
   * writes, as soon as no transaction is open one fresh call has a run to its end: it returns the
   * evaluation there is, or promotes the whole bundle and returns its verdict.
   */
  lemma {:induction false} CallsConverge(env: Env, c: Context, journal: Bytes, items: seq<Item>, es: seq<Event>,
                                         worker: nat)
    returns (more: seq<Event>)
    requires Lawful(env) && env.bundle(c, journal) == Some(items) && AllQuiet(journal, es)
    requires Run(env, Start(c), es).holder.None? && !At(Run(env, Start(c), es), worker)
    ensures AllQuiet(journal, more)
    ensures Concludes(env, c, items, Run(env, Start(c), es), Run(env, Start(c), es + more), worker)
  {
    StartSettled(env, c, journal, items);
    QuietRunsSettled(env, c, journal, items, Start(c), es);
    var t;
    more, t := CompletesFrom(env, c, journal, items, Run(env, Start(c), es), worker);
    LeadsRun(env, journal, Run(env, Start(c), es), more, t);
    RunSplit(env, Start(c), es, more);
  }
}
