/** What every interleaving of completion calls keeps: rows, objects and the one evaluation. */
module CompletionRuns {
  import opened Basics
  import opened Completion

  /* ------------------------------------------------------------------ keys and reservations */

  lemma {:induction false} KeyInjective(env: Env, kind: string, digest: string, kind': string, digest': string)
    requires '/' !in digest && '/' !in digest'
    requires Key(env, kind, digest) == Key(env, kind', digest')
    ensures kind == kind' && digest == digest'
  {
    LastSplitUnique(env.prefix + "/" + kind, digest, env.prefix + "/" + kind', digest', '/');
    assert (env.prefix + "/" + kind)[|env.prefix| + 1..] == kind;
    assert (env.prefix + "/" + kind')[|env.prefix| + 1..] == kind';
  }

  /** The rows after a reservation: every old row unchanged, one row per item, nothing else. */
  lemma {:induction false} ReservedIs(env: Env, c: Context, rows: map<nat, Row>, items: seq<Item>, ids: seq<nat>)
    requires |ids| == |items| && forall i, j :: 0 <= i < j < |ids| ==> ids[i] != ids[j]
    ensures var r := Reserved(env, c, rows, items, ids);
            && (forall id <- rows :: id in r && r[id] == rows[id])
            && (forall id <- r :: id in rows || id in ids)
            && forall k :: 0 <= k < |ids| ==> ids[k] in r && (ids[k] !in rows ==> r[ids[k]] == RowFor(env, c, items[k]))
    decreases |items|
  {
    if items != [] {
      var n := |items| - 1;
      ReservedIs(env, c, rows, items[..n], ids[..n]);
      var before := Reserved(env, c, rows, items[..n], ids[..n]);
      forall k | 0 <= k < n
        ensures ids[k] in before && (ids[k] !in rows ==> before[ids[k]] == RowFor(env, c, items[k]))
      {
        assert ids[..n][k] == ids[k] && items[..n][k] == items[k];
      }
      assert Reserved(env, c, rows, items, ids) == if ids[n] in rows then before
                 else before[ids[n] := RowFor(env, c, items[n])];
    }
  }

  /* ------------------------------------------------------------------ rows only move forward */

  /** Nothing that names the row changes; quarantine is left once; retention is given up for good. */
  predicate Forward(r: Row, s: Row) {
    && r == s.(state := r.state, retained := r.retained)
    && (s.retained ==> r.retained) && (s.state == r.state || r.state.Quarantined?)
  }

  ghost predicate RowsForward(r: map<nat, Row>, s: map<nat, Row>) {
    forall id <- r :: id in s && Forward(r[id], s[id])
  }

  lemma {:induction false} StepForward(env: Env, w: World, e: Event)
    ensures RowsForward(w.rows, Step(env, w, e).rows)
  {
    if Happens(env, w, e) && e.Reserve? {
      ReservedIs(env, w.handoff.value, w.rows, env.bundle(w.handoff.value, w.workers[e.worker].journal).value, e.ids);
    }
  }

  lemma {:induction false} RowsNeverMoveBack(env: Env, w: World, es: seq<Event>)
    ensures RowsForward(w.rows, Run(env, w, es).rows)
    decreases |es|
  {
    if es != [] {
      StepForward(env, w, es[0]);
      RowsNeverMoveBack(env, Step(env, w, es[0]), es[1..]);
    }
  }

  /** Once a row is promoted, rejected or given up, no call ever writes an object for it again. */
  lemma {:induction false} NoResurrection(env: Env, w: World, es: seq<Event>, e: Event, id: nat)
    requires id in w.rows && (!w.rows[id].retained || !w.rows[id].state.Quarantined?)
    requires Puts(env, Run(env, w, es), e)
    ensures Current(Run(env, w, es), e.worker).id != id
  {
    RowsNeverMoveBack(env, w, es);
  }

  /* ------------------------------------------------------------------ objects are never overwritten */

  ghost predicate Grows(s: map<string, Bytes>, t: map<string, Bytes>) {
    forall key <- s :: key in t && t[key] == s[key]
  }

  predicate Undisturbed(es: seq<Event>) {
    forall e <- es :: !e.Disturb?
  }

  lemma {:induction false} StepGrows(env: Env, w: World, e: Event)
    requires !e.Disturb?
    ensures Grows(w.store, Step(env, w, e).store)
  {
  }

  lemma {:induction false} NeverOverwrites(env: Env, w: World, es: seq<Event>)
    requires Undisturbed(es)
    ensures Grows(w.store, Run(env, w, es).store)
    decreases |es|
  {
    if es != [] {
      assert es[0] in es;
      StepGrows(env, w, es[0]);
      NeverOverwrites(env, Step(env, w, es[0]), es[1..]);
    }
  }

  /* ------------------------------------------------------------------ one evaluation */

  /** An evaluated run is closed, and whoever returned holds the one snapshot. */
  predicate Evaluated(w: World) {
    && (w.evaluation.Some? ==> !w.open)
    && forall worker <- w.workers :: w.workers[worker].Returned? ==> w.evaluation == Some(w.workers[worker].snapshot)
  }

  lemma {:induction false} StepEvaluated(env: Env, w: World, e: Event)
    requires Evaluated(w)
    ensures Evaluated(Step(env, w, e))
    ensures w.evaluation.Some? ==> Step(env, w, e).evaluation == w.evaluation
  {
  }

  lemma {:induction false} RunEvaluated(env: Env, w: World, es: seq<Event>)
    requires Evaluated(w)
    ensures Evaluated(Run(env, w, es))
    ensures w.evaluation.Some? ==> Run(env, w, es).evaluation == w.evaluation
    decreases |es|
  {
    if es != [] {
      StepEvaluated(env, w, es[0]);
      RunEvaluated(env, Step(env, w, es[0]), es[1..]);
    }
  }

  lemma {:induction false} RunSplit(env: Env, w: World, es: seq<Event>, more: seq<Event>)
    ensures Run(env, w, es + more) == Run(env, Run(env, w, es), more)
    decreases |es|
  {
    if es == [] {
      assert es + more == more;
    } else {
      assert (es + more)[0] == es[0] && (es + more)[1..] == es[1..] + more;
      RunSplit(env, Step(env, w, es[0]), es[1..], more);
    }
  }

  /** Whatever crashes or interleaves, any two calls that ever return hold the same snapshot. */
  lemma {:induction false} OneEvaluation(env: Env, c: Context, es: seq<Event>, more: seq<Event>, one: nat, other: nat)
    requires At(Run(env, Start(c), es), one) && Run(env, Start(c), es).workers[one].Returned?
    requires At(Run(env, Start(c), es + more), other) && Run(env, Start(c), es + more).workers[other].Returned?
    ensures Run(env, Start(c), es + more).workers[other].snapshot == Run(env, Start(c), es).workers[one].snapshot
    ensures Run(env, Start(c), es + more).evaluation == Some(Run(env, Start(c), es).workers[one].snapshot)
  {
    RunEvaluated(env, Start(c), es);
    RunSplit(env, Start(c), es, more);
    RunEvaluated(env, Run(env, Start(c), es), more);
  }
}
