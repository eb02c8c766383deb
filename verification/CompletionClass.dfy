/**
 * `retain_bundle`, `finalize` and `complete` as one uninterrupted call runs them, over the shared
 * tables. A call is worker 0 of the machine, and each transaction is its steps.
 */
module CompletionClass {
  import opened Basics
  import opened Completion
  import opened CompletionRuns
  import opened CompletionResume
  import opened CompletionSettled
  import opened CompletionConverges

  /** The tables with this call as the only worker; it holds the run between placing and promoting. */
  function With(w: World, phase: Phase): World {
    w.(workers := map[0 := phase], holder := if phase.Placed? then Some(0) else None)
  }

  /** Rows have only moved forward, and no object was overwritten. */
  ghost predicate Extends(w: World, t: World) {
    RowsForward(w.rows, t.rows) && Grows(w.store, t.store)
  }

  lemma {:induction false} ExtendsTrans(w: World, mid: World, t: World)
    requires Extends(w, mid) && Extends(mid, t)
    ensures Extends(w, t)
  {
    ForwardTrans(w.rows, mid.rows, t.rows);
  }

  lemma {:induction false} ExtendsWritten(env: Env, w: World, mid: World, entry: Entry)
    requires Extends(w, mid) && entry.id in mid.rows && !mid.rows[entry.id].state.Rejected?
    ensures Extends(w, Written(env, mid, entry))
  {
    ExtendsTrans(w, mid, Written(env, mid, entry));
  }

  lemma {:induction false} NextWritten(env: Env, c: Context, journal: Bytes, items: seq<Item>, w: World, ids: seq<nat>,
                                       k: nat)
    requires Lawful(env) && env.bundle(c, journal) == Some(items)
    requires Progress(env, c, journal, items, w, ids, k) && k < |ids|
    ensures Storable(env, c, w, Entry(ids[k], items[k]))
    ensures Progress(env, c, journal, items, Written(env, w, Entry(ids[k], items[k])), ids, k + 1)
  {
    NextStorable(env, c, journal, items, w, ids, k);
    WrittenProgress(env, c, journal, items, w, ids, k);
  }

  /** The whole bundle is reserved and promoted. */
  ghost predicate PlanPromoted(env: Env, c: Context, journal: Bytes, items: seq<Item>, w: World) {
    exists ids: seq<nat> :: Progress(env, c, journal, items, w, ids, |ids|)
  }

  lemma {:induction false} BundleAcceptable(env: Env, c: Context, journal: Bytes, items: seq<Item>, w: World)
    requires Lawful(env) && env.bundle(c, journal) == Some(items)
    ensures DistinctKinds(items)
    ensures Settled(env, c, journal, items, w) ==> (AllAcceptable(env, c, w.rows, items) <==> AllUploadable(env, items))
  {
    assert BundleLaw(env, c, journal, items);
    if Settled(env, c, journal, items, w) {
      SettledAllAcceptable(env, c, items, w.rows);
    }
  }

  lemma {:induction false} ReservedExtends(env: Env, c: Context, journal: Bytes, items: seq<Item>, w: World,
                                           ids: seq<nat>)
    requires Lawful(env) && env.bundle(c, journal) == Some(items) && w.open && Reservable(env, c, w.rows, items, ids)
    ensures var t := w.(rows := Reserved(env, c, w.rows, items, ids));
            Extends(w, t) && (Settled(env, c, journal, items, w) ==> Progress(env, c, journal, items, t, ids, 0))
  {
    ReservedIs(env, c, w.rows, items, ids);
    if Settled(env, c, journal, items, w) {
      ReservedProgress(env, c, journal, items, w, ids);
    }
  }

  /** A call that has raised is gone, and nothing else has changed. */
  lemma {:induction false} Raises(env: Env, journal: Bytes, w: World, phase: Phase)
    requires w.workers == map[] && w.holder.None?
    ensures Leads(env, journal, With(w, phase), [Crash(0)], w)
  {
    assert map[0 := phase] - {0} == map[];
    LeadsOne(env, journal, With(w, phase), Crash(0), w);
  }

  lemma {:induction false} Begins(env: Env, journal: Bytes, w: World)
    requires w.workers == map[] && w.holder.None?
    ensures Leads(env, journal, w, [Call(0, journal), ReadEvaluation(0)],
                  With(w, if w.evaluation.Some? then Returned(w.evaluation.value) else Planning(journal)))
  {
    CallSteps(env, w, 0, journal);
  }

  lemma {:induction false} Reserves(env: Env, c: Context, journal: Bytes, items: seq<Item>, w: World, ids: seq<nat>)
    requires w.open && w.handoff == Some(c) && env.bundle(c, journal) == Some(items)
             && Reservable(env, c, w.rows, items, ids)
    ensures Leads(env, journal, With(w, Planning(journal)), [Reserve(0, ids)],
                  With(w.(rows := Reserved(env, c, w.rows, items, ids)), Writing(c, Plan(items, ids), 0)))
  {
    var writing := With(w.(rows := Reserved(env, c, w.rows, items, ids)), Writing(c, Plan(items, ids), 0));
    ReserveStepOf(env, c, journal, items, With(w, Planning(journal)), 0, ids);
    assert map[0 := Planning(journal)][0 := Writing(c, Plan(items, ids), 0)] == writing.workers;
    LeadsOne(env, journal, With(w, Planning(journal)), Reserve(0, ids), writing);
  }

  /** One more object's transaction at the end of a call's steps. */
  lemma {:induction false} WroteNext(env: Env, c: Context, journal: Bytes, plan: seq<Entry>, k: nat,
                                     w: World, es: seq<Event>, w0: World, t: World)
    returns (longer: seq<Event>)
    requires k < |plan| && Leads(env, journal, With(w, Writing(c, plan, 0)), es, With(w0, Writing(c, plan, k)))
    requires Step(env, Step(env, With(w0, Writing(c, plan, k)), Place(0, true)), Promote(0))
                 == With(t, Writing(c, plan, k + 1))
    ensures Leads(env, journal, With(w, Writing(c, plan, 0)), longer, With(t, Writing(c, plan, k + 1)))
  {
    var from, to := With(w0, Writing(c, plan, k)), With(t, Writing(c, plan, k + 1));
    var two := [Place(0, true), Promote(0)];
    LeadsTwo(env, journal, from, Place(0, true), Step(env, from, Place(0, true)), Promote(0), to);
    longer := Joins(env, journal, With(w, Writing(c, plan, 0)), es, from, two, to);
  }

  /** With the plan written, the call reads again for a result and then evaluates. */
  lemma {:induction false} Evaluates(env: Env, c: Context, journal: Bytes, w: World, plan: seq<Entry>, j: nat)
    requires w.open && w.handoff == Some(c) && w.evaluation.None? && Evaluable(env, c, With(w, Evaluating), j)
    ensures var r := Verdict(env, With(w, Evaluating), j);
            Leads(env, journal, With(w, Writing(c, plan, |plan|)), [ReadAgain(0), Finalize(0, j)],
                  With(w.(open := false, evaluation := r), Returned(r.value)))
  {
    var writing, again := With(w, Writing(c, plan, |plan|)), With(w, Evaluating);
    var r := Verdict(env, again, j);
    var t := With(w.(open := false, evaluation := r), Returned(r.value));
    assert map[0 := Writing(c, plan, |plan|)][0 := Evaluating] == again.workers;
    assert map[0 := Evaluating][0 := Returned(r.value)] == t.workers;
    LeadsTwo(env, journal, writing, ReadAgain(0), again, Finalize(0, j), t);
  }

  class ExecutionArtifacts {
    const env: Env
    var open: bool
    var handoff: Option<Context>
    var rows: map<nat, Row>
    var store: map<string, Bytes>
    var evaluation: Option<Snapshot>

    ghost function View(): World
      reads this
    {
      World(open, handoff, rows, store, multiset{}, evaluation, None, map[])
    }

    /** The state any crash of quiet calls with this journal leaves. */
    ghost predicate Resumable(journal: Bytes)
      reads this
    {
      && handoff.Some? && env.bundle(handoff.value, journal).Some?
      && Settled(env, handoff.value, journal, env.bundle(handoff.value, journal).value, View())
    }

    ghost function Items(journal: Bytes): seq<Item>
      requires handoff.Some? && env.bundle(handoff.value, journal).Some?
      reads this
    {
      env.bundle(handoff.value, journal).value
    }

    constructor (env: Env, c: Context)
      ensures this.env == env && View() == Start(c)
    {
      this.env := env;
      open, handoff, rows, store, evaluation := true, Some(c), map[], map[], None;
    }

    /** The first transaction: all rows or none. `unused` is larger than every id in the table. */
    method ReserveBundle(c: Context, items: seq<Item>, unused: nat) returns (r: Option<seq<nat>>)
      requires DistinctKinds(items) && forall id <- rows :: id < unused
      modifies this`rows
      ensures r.Some? <==> AllAcceptable(env, c, old(rows), items)
      ensures r.Some? ==>
                Reservable(env, c, old(rows), items, r.value) && rows == Reserved(env, c, old(rows), items, r.value)
      ensures r.None? ==> rows == old(rows)
    {
      var pending: map<nat, Row>, ids: seq<nat> := rows, [];
      for i := 0 to |items|
        invariant rows == old(rows) && Reserving(env, c, rows, items, i, ids, pending, unused)
        invariant forall k :: 0 <= k < i ==> Acceptable(env, c, rows, items[k])
      {
        var item := items[i];
        PendingKind(env, c, rows, items, ids, i);
        if !Uploadable(env, item) {
          assert !Acceptable(env, c, rows, items[i]);
          return None;
        }
        var existing := OfKind(pending, item.kind);
        var id: nat := unused + i;
        if existing != {} {
          id :| id in existing;
          if existing != {id} || !Matches(env, c, pending[id], item) {
            assert !Acceptable(env, c, rows, items[i]);
            return None;
          }
        }
        ReserveStep(env, c, rows, items, i, ids, pending, unused, id);
        if existing == {} {
          pending := pending[id := RowFor(env, c, item)];
        }
        ids := ids + [id];
      }
      assert items[..|items|] == items;
      rows := pending;
      return Some(ids);
    }

    /** The first half of an object's transaction: compare, or write. */
    method PlaceObject(c: Context, entry: Entry, ghost plan: seq<Entry>, ghost k: nat) returns (ok: bool)
      requires k < |plan| && plan[k] == entry
      modifies this`store
      ensures ok <==> Happens(env, With(old(View()), Writing(c, plan, k)), Place(0, true))
      ensures With(View(), if ok then Placed(c, plan, k) else Writing(c, plan, k))
              == Step(env, With(old(View()), Writing(c, plan, k)), Place(0, true))
      ensures ok <==> Storable(env, c, old(View()), entry)
      ensures store == if ok then Written(env, old(View()), entry).store else old(store)
    {
      if !open || handoff != Some(c) || !Retainable(env, c, rows, entry) {
        return false;
      }
      var key := KeyOf(env, entry.item);
      if key in store {
        return env.hash(store[key]) == env.hash(entry.item.bytes);
      }
      if rows[entry.id].state.Promoted? {
        return false;
      }
      store := store[key := entry.item.bytes];
      return true;
    }

    /** The second half: promote after reading the bytes back. */
    method PromoteRow(c: Context, entry: Entry, ghost plan: seq<Entry>, ghost k: nat) returns (ok: bool)
      requires k < |plan| && plan[k] == entry && entry.id in rows && !rows[entry.id].state.Rejected?
      modifies this`rows
      ensures ok <==> Happens(env, With(old(View()), Placed(c, plan, k)), Promote(0))
      ensures With(View(), if ok then Writing(c, plan, k + 1) else Placed(c, plan, k))
              == Step(env, With(old(View()), Placed(c, plan, k)), Promote(0))
    {
      var row := rows[entry.id];
      if row.state.Quarantined? {
        if row.manifest != c.manifest || row.key !in store || env.hash(store[row.key]) != row.digest {
          return false;
        }
        rows := rows[entry.id := row.(state := Promoted)];
      }
      assert rows == old(rows)[entry.id := old(rows)[entry.id].(state := Promoted)];
      return true;
    }

    /** One object's transaction, which is those two steps, or none. */
    method WriteArtifact(c: Context, entry: Entry, ghost plan: seq<Entry>, ghost k: nat) returns (ok: bool)
      requires k < |plan| && plan[k] == entry
      modifies this`rows, this`store
      ensures ok <==> Storable(env, c, old(View()), entry)
      ensures View() == if ok then Written(env, old(View()), entry) else old(View())
      ensures ok ==> Step(env, Step(env, With(old(View()), Writing(c, plan, k)), Place(0, true)), Promote(0))
                     == With(View(), Writing(c, plan, k + 1))
    {
      ok := PlaceObject(c, entry, plan, k);
      if ok {
        ok := PromoteRow(c, entry, plan, k);
      }
    }

    /**
     * Everything up to the last promotion. `es` are the steps it took, and `phase` is where they left
     * the call: with its whole plan written, or where it raised.
     */
    method RetainBundle(journal: Bytes, unused: nat) returns (ok: bool, ghost es: seq<Event>, ghost phase: Phase)
      requires Lawful(env) && forall id <- rows :: id < unused
      modifies this`rows, this`store
      ensures Extends(old(View()), View())
      ensures Leads(env, journal, With(old(View()), Planning(journal)), es, With(View(), phase))
      ensures ok ==>
                open && handoff.Some? && phase.Writing? && phase.context == handoff.value && phase.k == |phase.plan|
      ensures old(Resumable(journal)) && open ==> Resumable(journal) && (ok <==> AllUploadable(env, Items(journal)))
      ensures old(Resumable(journal)) && ok ==> PlanPromoted(env, handoff.value, journal, Items(journal), View())
    {
      es, phase := [], Planning(journal);
      if !open || handoff.None? {
        LeadsNowhere(env, journal, With(View(), phase));
        return false, es, phase;
      }
      var c := handoff.value;
      var bundle := env.bundle(c, journal);
      if bundle.None? {
        LeadsNowhere(env, journal, With(View(), phase));
        return false, es, phase;
      }
      ok, es, phase := RetainItems(c, bundle.value, journal, unused);
    }

    /** The reservation, and then the objects. */
    method RetainItems(c: Context, items: seq<Item>, ghost journal: Bytes, unused: nat)
      returns (ok: bool, ghost es: seq<Event>, ghost phase: Phase)
      requires Lawful(env) && env.bundle(c, journal) == Some(items) && open && handoff == Some(c)
      requires forall id <- rows :: id < unused
      modifies this`rows, this`store
      ensures Extends(old(View()), View())
      ensures Leads(env, journal, With(old(View()), Planning(journal)), es, With(View(), phase))
      ensures ok ==> phase.Writing? && phase.context == c && phase.k == |phase.plan|
      ensures old(Settled(env, c, journal, items, View())) ==>
                Settled(env, c, journal, items, View()) && (ok <==> AllUploadable(env, items))
      ensures old(Settled(env, c, journal, items, View())) && ok ==> PlanPromoted(env, c, journal, items, View())
    {
      ghost var start := View();
      BundleAcceptable(env, c, journal, items, start);
      var reserved := ReserveBundle(c, items, unused);
      if reserved.None? {
        LeadsNowhere(env, journal, With(start, Planning(journal)));
        return false, [], Planning(journal);
      }
      var ids := reserved.value;
      ghost var mid := start.(rows := Reserved(env, c, start.rows, items, ids));
      assert View() == mid;
      ReservedExtends(env, c, journal, items, start, ids);
      Reserves(env, c, journal, items, start, ids);
      ghost var writes;
      ok, writes, phase := WriteAll(c, items, ids, journal);
      es := Joins(env, journal, With(start, Planning(journal)), [Reserve(0, ids)],
                  With(mid, Writing(c, Plan(items, ids), 0)), writes, With(View(), phase));
      ExtendsTrans(start, mid, View());
    }

    /** The objects' transactions, one after the other. */
    method WriteAll(c: Context, items: seq<Item>, ids: seq<nat>, ghost journal: Bytes)
      returns (ok: bool, ghost es: seq<Event>, ghost phase: Phase)
      requires Lawful(env) && |ids| == |items| && env.bundle(c, journal) == Some(items) && open && handoff == Some(c)
      modifies this`rows, this`store
      ensures Extends(old(View()), View())
      ensures Leads(env, journal, With(old(View()), Writing(c, Plan(items, ids), 0)), es, With(View(), phase))
      ensures phase.Writing? && phase.context == c && (ok ==> phase.k == |phase.plan|)
      ensures old(Progress(env, c, journal, items, View(), ids, 0)) ==>
                ok && Progress(env, c, journal, items, View(), ids, |ids|)
    {
      ghost var was := Progress(env, c, journal, items, View(), ids, 0);
      ghost var plan := Plan(items, ids);
      es, phase := [], Writing(c, plan, 0);
      LeadsNowhere(env, journal, With(View(), phase));
      for i := 0 to |items|
        invariant Extends(old(View()), View())
        invariant phase == Writing(c, plan, i)
        invariant Leads(env, journal, With(old(View()), Writing(c, plan, 0)), es, With(View(), phase))
        invariant was ==> Progress(env, c, journal, items, View(), ids, i)
      {
        ghost var w0 := View();
        if was {
          NextWritten(env, c, journal, items, w0, ids, i);
        }
        ok := WriteArtifact(c, Entry(ids[i], items[i]), plan, i);
        if !ok {
          return;
        }
        es := WroteNext(env, c, journal, plan, i, old(View()), es, w0, View());
        phase := Writing(c, plan, i + 1);
        ExtendsWritten(env, old(View()), w0, Entry(ids[i], items[i]));
      }
      ok := true;
    }

    /** The terminal transaction, behind an unlocked read of an earlier result. */
    method Finalize() returns (r: Option<Snapshot>)
      modifies this`open, this`evaluation
      ensures old(evaluation).Some? ==> r == old(evaluation) && View() == old(View())
      ensures old(evaluation).None? ==>
                (r.Some? <==> CanEvaluate(env, old(View())))
      ensures forall j ::
                old(evaluation).None? && Locks(old(View())) && Evaluable(env, handoff.value, old(View()), j) ==>
                r == Verdict(env, old(View()), j) && View() == old(View()).(open := false, evaluation := r)
      ensures if r.Some? then evaluation == r else View() == old(View())
    {
      if evaluation.Some? {
        return evaluation;
      }
      if !open || handoff.None? || |rows| != env.required(handoff.value) {
        return None;
      }
      var c := handoff.value;
      var journalRow := FindJournal();
      assert forall j: nat :: JournalRow(rows, j) ==> journalRow == Some(j);
      assert View() == old(View());
      if journalRow.None? || rows[journalRow.value].key !in store {
        return None;
      }
      var bundle := env.bundle(c, store[rows[journalRow.value].key]);
      if bundle.None? {
        return None;
      }
      var exact := CheckRows(c, bundle.value);
      if !exact {
        return None;
      }
      r := env.decide(c, bundle.value, Identities(rows));
      assert r.Some? <==> Evaluable(env, c, old(View()), journalRow.value);
      assert r.Some? <==> CanEvaluate(env, old(View()));
      if r.Some? {
        open, evaluation := false, r;
      }
    }

    method CheckRows(c: Context, items: seq<Item>) returns (exact: bool)
      ensures exact <==> forall id <- rows :: RowEvaluated(env, c, store, items, rows[id])
    {
      var todo := rows.Keys;
      while todo != {}
        invariant todo <= rows.Keys
        invariant forall id <- rows :: id !in todo ==> RowEvaluated(env, c, store, items, rows[id])
        decreases |todo|
      {
        var id :| id in todo;
        if !RowEvaluated(env, c, store, items, rows[id]) {
          return false;
        }
        todo := todo - {id};
      }
      return true;
    }

    method FindJournal() returns (r: Option<nat>)
      ensures r.Some? ==> JournalRow(rows, r.value)
      ensures r.None? ==> forall id <- rows :: rows[id].kind != JOURNAL
    {
      r := None;
      var todo := rows.Keys;
      while todo != {}
        invariant todo <= rows.Keys
        invariant r.Some? ==> r.value in rows && rows[r.value].kind == JOURNAL
        invariant forall id <- rows :: id !in todo && rows[id].kind == JOURNAL ==> r.Some? && r.value <= id
        decreases |todo|
      {
        var id :| id in todo;
        if rows[id].kind == JOURNAL && (r.None? || id < r.value) {
          r := Some(id);
        }
        todo := todo - {id};
      }
    }

    /**
     * The whole call: `es` are its steps, from its call to its return or its crash. After any crash of
     * quiet calls with the same journal it returns the bundle's own verdict, exactly when there is one;
     * an earlier evaluation is returned as it is.
     */
    method Complete(journal: Bytes, unused: nat) returns (r: Option<Snapshot>, ghost es: seq<Event>)
      requires Lawful(env) && forall id <- rows :: id < unused
      modifies this
      ensures Leads(env, journal, old(View()), es, if r.Some? then With(View(), Returned(r.value)) else View())
      ensures Extends(old(View()), View())
      ensures old(evaluation).Some? ==> r == old(evaluation) && View() == old(View())
      ensures r.Some? ==> evaluation == r
      ensures old(Resumable(journal)) && old(evaluation).None? ==>
                && handoff == old(handoff)
                && (r.Some? == (AllUploadable(env, Items(journal))
                                && env.decide(handoff.value, Items(journal), Identities(rows)).Some?))
                && (r.Some? ==> r == env.decide(handoff.value, Items(journal), Identities(rows)))
    {
      ghost var first := [Call(0, journal), ReadEvaluation(0)];
      Begins(env, journal, View());
      if evaluation.Some? {
        return evaluation, first;
      }
      var ok;
      ghost var phase;
      ok, es, phase := RetainBundle(journal, unused);
      es := Joins(env, journal, old(View()), first, With(old(View()), Planning(journal)), es, With(View(), phase));
      ghost var w := View();
      if !ok {
        Raises(env, journal, w, phase);
        es := Joins(env, journal, old(View()), es, With(w, phase), [Crash(0)], w);
        return None, es;
      }
      if old(Resumable(journal)) {
        ghost var ids: seq<nat> :| Progress(env, handoff.value, journal, Items(journal), w, ids, |ids|);
        ResumedVerdict(env, handoff.value, journal, Items(journal), w, ids);
      }
      r := Finalize();
      es := Ended(env, journal, old(View()), es, w, phase, r, View());
    }
  }

  /** The end of a call that wrote its whole plan. */
  lemma {:induction false} Ended(env: Env, journal: Bytes, start: World, es: seq<Event>, w: World, phase: Phase,
                                 r: Option<Snapshot>, t: World)
    returns (whole: seq<Event>)
    requires Leads(env, journal, start, es, With(w, phase)) && w.workers == map[] && w.holder.None?
             && w.evaluation.None?
    requires w.open && phase.Writing? && w.handoff == Some(phase.context) && phase.k == |phase.plan|
    requires r.None? ==> t == w
    requires r.Some? ==> CanEvaluate(env, w)
    requires forall j ::
               Evaluable(env, w.handoff.value, w, j) ==>
                 r == Verdict(env, w, j) && t == w.(open := false, evaluation := r)
    ensures Leads(env, journal, start, whole, if r.Some? then With(t, Returned(r.value)) else t)
  {
    if r.None? {
      Raises(env, journal, w, phase);
      whole := Joins(env, journal, start, es, With(w, phase), [Crash(0)], w);
    } else {
      var j :| Evaluable(env, w.handoff.value, w, j);
      assert Evaluable(env, phase.context, With(w, Evaluating), j)
             && Verdict(env, With(w, Evaluating), j) == Verdict(env, w, j);
      Evaluates(env, phase.context, journal, w, phase.plan, j);
      whole := Joins(env, journal, start, es, With(w, phase), [ReadAgain(0), Finalize(0, j)],
          With(t, Returned(r.value)));
    }
  }
}
