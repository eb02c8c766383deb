/** What it took for a claimant to hold the desktop, to get where it is, to be closed, and to release. */
module DesktopClaimCauses {
  import opened Basics
  import opened DesktopClaim
  import opened DesktopClaimRuns

  /** The world after the events. */
  function After(es: seq<Event>): World {
    Run(Empty, es)
  }

  lemma {:induction false} RunLast(w: World, es: seq<Event>)
    requires es != []
    ensures Run(w, es) == Step(Run(w, es[..|es| - 1]), es[|es| - 1])
    decreases |es|
  {
    if |es| > 1 {
      RunLast(Step(w, es[0]), es[1..]);
      assert es[1..][..|es| - 2] == es[..|es| - 1][1..];
    } else {
      assert es[1..] == [] && es[..0] == [];
    }
  }

  /** The claimant runs, its claim was never closed, and the file is its own, whole. */
  predicate Owns(w: World, p: nat) {
    p in w.claimants && w.claimants[p].alive && !w.claimants[p].claimClosed && w.marker == Some(Marker(p, true))
  }

  /** A whole marker belongs to a claimant whose write succeeded. */
  predicate WrittenInv(w: World) {
    forall p <- w.claimants :: w.marker == Some(Marker(p, true)) ==> w.claimants[p].held
  }

  lemma {:induction false} RunKeepsWritten(w: World, es: seq<Event>)
    requires WrittenInv(w) && MarkerInv(w) && PassInv(w)
    ensures WrittenInv(Run(w, es)) && MarkerInv(Run(w, es)) && PassInv(Run(w, es))
    decreases |es|
  {
    if es != [] {
      StepKeepsWritten(w, es[0]);
      StepKeepsMarker(w, es[0]);
      StepKeepsPasses(w, es[0]);
      RunKeepsWritten(Step(w, es[0]), es[1..]);
    }
  }

  lemma {:induction false} StepKeepsWritten(w: World, e: Event)
    requires WrittenInv(w) && MarkerInv(w)
    ensures WrittenInv(Step(w, e))
  {
  }

  /** In every run, the check of the claim succeeds for exactly such a claimant. */
  lemma {:induction false} HoldsIff(es: seq<Event>, p: nat)
    ensures Holds(After(es), p) <==> Owns(After(es), p)
  {
    RunKeepsWritten(Empty, es);
  }

  /* ------------------------------------------------------------------ how a claimant came to where it is */

  /** The marker was created where none was, and then written whole. */
  predicate Claimed(es: seq<Event>, m: nat, n: nat, p: nat) {
    && m < n < |es| && es[m].Create? && es[m].p == p && After(es[..m]).marker.None?
    && p !in After(es[..m]).claimants && es[n] == WriteEnds(p, true)
  }

  lemma {:induction false} WritingRow(w: World, e: Event, p: nat)
    requires At(Step(w, e), p, Writing)
    ensures At(w, p, Writing) || (e.Create? && e.p == p && w.marker.None? && p !in w.claimants)
  {
  }

  lemma {:induction false} WritingCaused(es: seq<Event>, p: nat) returns (m: nat)
    requires At(After(es), p, Writing)
    ensures m < |es| && es[m].Create? && es[m].p == p && After(es[..m]).marker.None?
    ensures p !in After(es[..m]).claimants
    decreases |es|
  {
    var last, before := |es| - 1, es[..|es| - 1];
    RunLast(Empty, es);
    WritingRow(After(before), es[last], p);
    if At(After(before), p, Writing) {
      m := WritingCaused(before, p);
    } else {
      m := last;
    }
    assert before[..m] == es[..m];
  }

  lemma {:induction false} HeldRow(w: World, e: Event, p: nat)
    requires p in Step(w, e).claimants && Step(w, e).claimants[p].held
    ensures p in w.claimants && (w.claimants[p].held || (e == WriteEnds(p, true) && At(w, p, Writing)))
  {
  }

  lemma {:induction false} HeldCaused(es: seq<Event>, p: nat) returns (m: nat, n: nat)
    requires p in After(es).claimants && After(es).claimants[p].held
    ensures Claimed(es, m, n, p)
    decreases |es|
  {
    var last, before := |es| - 1, es[..|es| - 1];
    RunLast(Empty, es);
    HeldRow(After(before), es[last], p);
    if After(before).claimants[p].held {
      m, n := HeldCaused(before, p);
    } else {
      n := last;
      m := WritingCaused(before, p);
    }
    assert before[..m] == es[..m];
  }

  /** The `n`-th event is `e`, and finds the claim held and the runner in this state and stage. */
  predicate Passing(es: seq<Event>, n: nat, e: Event, state: RunState, stage: Stage) {
    && n < |es| && es[n] == e && Owns(After(es[..n]), e.p)
    && After(es[..n]).claimants[e.p].state == state && After(es[..n]).claimants[e.p].stage == stage
  }

  /** A runner in this state, and the step that brought it there. */
  lemma {:induction false} StateRow(w: World, e: Event, p: nat)
    requires p in Step(w, e).claimants && (p !in w.claimants || Step(w, e).claimants[p].state != w.claimants[p].state)
    ensures var state := Step(w, e).claimants[p].state;
            if p !in w.claimants then
              e.Create? && e.p == p && state == if e.initialization then Pending else Active
            else match state
              case Pending => false
              case Initializing =>
                e == StartInitialization(p, true) && Holds(w, p) && w.claimants[p].state.Pending? && At(w, p, Idle)
              case Active =>
                e == InitializationEnds(p, true) && Holds(w, p) && w.claimants[p].state.Initializing?
                && At(w, p, Starting)
              case Finishing => e == StartFinish(p) && Holds(w, p) && w.claimants[p].state.Active? && At(w, p, Idle)
              case Closed => true
  {
  }

  /** A claimant that was created with an initialisation becomes active only by one that was held throughout. */
  lemma {:induction false} ActiveCaused(es: seq<Event>, p: nat) returns (m: nat, n: nat)
    requires p in After(es).claimants && After(es).claimants[p].state.Active?
    ensures || (m < |es| && es[m] == Create(p, false))
            || (m < n && Passing(es, m, StartInitialization(p, true), Pending, Idle)
                && Passing(es, n, InitializationEnds(p, true), Initializing, Starting))
    decreases |es|
  {
    var last, before := |es| - 1, es[..|es| - 1];
    RunLast(Empty, es);
    HoldsIff(before, p);
    if p in After(before).claimants && After(before).claimants[p].state.Active? {
      m, n := ActiveCaused(before, p);
      assert (m < |before| ==> before[..m] == es[..m]) && (n < |before| ==> before[..n] == es[..n]);
    } else {
      StateRow(After(before), es[last], p);
      m, n := last, last;
      if p in After(before).claimants {
        m := InitializingCaused(before, p);
        assert before[..m] == es[..m];
      }
    }
  }

  lemma {:induction false} InitializingCaused(es: seq<Event>, p: nat) returns (m: nat)
    requires p in After(es).claimants && After(es).claimants[p].state.Initializing?
    ensures Passing(es, m, StartInitialization(p, true), Pending, Idle)
    decreases |es|
  {
    var last, before := |es| - 1, es[..|es| - 1];
    RunLast(Empty, es);
    HoldsIff(before, p);
    if p in After(before).claimants && After(before).claimants[p].state.Initializing? {
      m := InitializingCaused(before, p);
      assert before[..m] == es[..m];
    } else {
      StateRow(After(before), es[last], p);
      m := last;
    }
  }

  lemma {:induction false} StageRow(w: World, e: Event, p: nat)
    requires p in w.claimants && Step(w, e).claimants[p].stage != w.claimants[p].stage
    requires p in Step(w, e).claimants
    ensures match Step(w, e).claimants[p].stage
            case Writing => false
            case Starting => e == StartInitialization(p, true) && Holds(w, p) && w.claimants[p].state.Pending?
            case Performing => e == StartPerform(p) && Holds(w, p) && w.claimants[p].state.Active?
            case InnerFinish => e == StartFinish(p) && Holds(w, p) && w.claimants[p].state.Active?
            case Releasing =>
              e == InnerFinishEnds(p, true) && Holds(w, p) && w.claimants[p].state.Finishing? && At(w, p, InnerFinish)
            case Unlinking => e == Release(p) && Holds(w, p) && At(w, p, Releasing)
            case Idle => true
    ensures At(w, p, Idle) || Step(w, e).claimants[p].stage in {Idle, Releasing, Unlinking}
  {
  }

  /** The inner runner is entered only by an active claimant that holds the desktop. */
  lemma {:induction false} PerformingCaused(es: seq<Event>, p: nat) returns (n: nat)
    requires p in After(es).claimants && After(es).claimants[p].stage.Performing?
    ensures Passing(es, n, StartPerform(p), Active, Idle)
    decreases |es|
  {
    var last, before := |es| - 1, es[..|es| - 1];
    RunLast(Empty, es);
    HoldsIff(before, p);
    if p in After(before).claimants && After(before).claimants[p].stage.Performing? {
      n := PerformingCaused(before, p);
      assert before[..n] == es[..n];
    } else {
      if p !in After(before).claimants { FreshIdle(After(before), es[last], p); }
      StageRow(After(before), es[last], p);
      n := last;
    }
  }

  lemma {:induction false} FreshIdle(w: World, e: Event, p: nat)
    requires p in Step(w, e).claimants && p !in w.claimants
    ensures Step(w, e).claimants[p].stage in {Idle, Writing}
  {
  }

  /** The inner `finish` was begun by an active claimant that held the desktop. */
  lemma {:induction false} FinishCaused(es: seq<Event>, p: nat) returns (n: nat)
    requires p in After(es).claimants && After(es).claimants[p].stage.InnerFinish?
    ensures Passing(es, n, StartFinish(p), Active, Idle)
    decreases |es|
  {
    var last, before := |es| - 1, es[..|es| - 1];
    RunLast(Empty, es);
    HoldsIff(before, p);
    if p in After(before).claimants && After(before).claimants[p].stage.InnerFinish? {
      n := FinishCaused(before, p);
      assert before[..n] == es[..n];
    } else {
      if p !in After(before).claimants { FreshIdle(After(before), es[last], p); }
      StageRow(After(before), es[last], p);
      n := last;
    }
  }

  /** The inner `finish` returned while nobody had cancelled, and the claim was still held. */
  predicate FinishedHeld(es: seq<Event>, m: nat, n: nat, p: nat) {
    && m < n && Passing(es, m, StartFinish(p), Active, Idle)
    && Passing(es, n, InnerFinishEnds(p, true), Finishing, InnerFinish)
  }

  lemma {:induction false} ReleasingCaused(es: seq<Event>, p: nat) returns (m: nat, n: nat)
    requires p in After(es).claimants && After(es).claimants[p].stage.Releasing?
    ensures FinishedHeld(es, m, n, p)
    decreases |es|
  {
    var last, before := |es| - 1, es[..|es| - 1];
    RunLast(Empty, es);
    HoldsIff(before, p);
    if p in After(before).claimants && After(before).claimants[p].stage.Releasing? {
      m, n := ReleasingCaused(before, p);
      assert before[..n] == es[..n];
    } else {
      if p !in After(before).claimants { FreshIdle(After(before), es[last], p); }
      StageRow(After(before), es[last], p);
      n := last;
      m := FinishCaused(before, p);
    }
    assert before[..m] == es[..m];
  }

  /** And then the claim was checked once more, at the `k`-th event, before the unlink. */
  lemma {:induction false} UnlinkingCaused(es: seq<Event>, p: nat) returns (m: nat, n: nat, k: nat)
    requires p in After(es).claimants && After(es).claimants[p].stage.Unlinking?
    ensures FinishedHeld(es, m, n, p) && n < k < |es| && es[k] == Release(p) && Owns(After(es[..k]), p)
    decreases |es|
  {
    var last, before := |es| - 1, es[..|es| - 1];
    RunLast(Empty, es);
    HoldsIff(before, p);
    if p in After(before).claimants && After(before).claimants[p].stage.Unlinking? {
      m, n, k := UnlinkingCaused(before, p);
    } else {
      if p !in After(before).claimants { FreshIdle(After(before), es[last], p); }
      StageRow(After(before), es[last], p);
      k := last;
      m, n := ReleasingCaused(before, p);
    }
    assert before[..m] == es[..m] && before[..n] == es[..n] && before[..k] == es[..k];
  }

  lemma {:induction false} ReleasedRow(w: World, e: Event, p: nat)
    requires p in Step(w, e).released && p !in w.released
    ensures e == Unlink(p, true) && At(w, p, Unlinking)
  {
  }

  /** A desktop is given back only after a clean finish that was held to its end. */
  lemma {:induction false} ReleaseCaused(es: seq<Event>, p: nat) returns (m: nat, n: nat, k: nat, l: nat)
    requires p in After(es).released
    ensures FinishedHeld(es, m, n, p) && n < k < l < |es| && es[k] == Release(p) && Owns(After(es[..k]), p)
    ensures es[l] == Unlink(p, true)
    decreases |es|
  {
    var last, before := |es| - 1, es[..|es| - 1];
    RunLast(Empty, es);
    if p in After(before).released {
      m, n, k, l := ReleaseCaused(before, p);
    } else {
      ReleasedRow(After(before), es[last], p);
      l := last;
      m, n, k := UnlinkingCaused(before, p);
    }
    assert before[..m] == es[..m] && before[..n] == es[..n] && before[..k] == es[..k];
  }

  /* ------------------------------------------------------------------ what closes, and what passes */

  /** The step closes the runner; `held` says whether the claim check would succeed. */
  predicate Closes(c: Claimant, e: Event, held: bool) {
    match e
    case StartInitialization(_, inTime) => !(inTime && held)
    case InitializationEnds(_, ok) => !(ok && c.state == Initializing && held)
    case Cancel(_) => true
    case AdapterGate(_) => !(c.state == Active && held)
    case StartPerform(_) => !held
    case PerformEnds(_, ambiguous) => ambiguous
    case StartFinish(_) => !held
    case InnerFinishEnds(_, ok) => !(ok && c.state == Finishing && held)
    case Release(_) => !held
    case Unlink(_, _) => true
    case _ => false
  }

  /** The step looks at the claim. */
  predicate Looks(c: Claimant, e: Event) {
    || e == StartInitialization(e.p, true) || (e == StartupGate(e.p, true) && c.state == Initializing)
    || (e == InitializationEnds(e.p, true) && c.state == Initializing) || (e.AdapterGate? && c.state == Active)
    || e.StartPerform? || e.StartFinish? || (e == InnerFinishEnds(e.p, true) && c.state == Finishing) || e.Release?
  }

  /**
   * In every run: a possible step closes its runner exactly when it fails its check or is a
   * cancellation, an ambiguous outcome or the end of a release; it closes its claim exactly when it
   * looks at it and does not hold it, or releases it; and it passes exactly when it looks and holds.
   */
  lemma {:induction false} ClosedIff(es: seq<Event>, e: Event)
    requires Enabled(After(es), e) && !e.Create?
    ensures var w, t := After(es), Step(After(es), e);
            e.p in w.claimants
            && (t.claimants[e.p].state == Closed
                <==> w.claimants[e.p].state == Closed || Closes(w.claimants[e.p], e, Owns(w, e.p)))
            && (t.claimants[e.p].claimClosed
                <==> w.claimants[e.p].claimClosed
                     || (Looks(w.claimants[e.p], e) && (e.Release? || !Owns(w, e.p))))
            && t.passes == (if Looks(w.claimants[e.p], e) && Owns(w, e.p) then w.passes + [e.p] else w.passes)
            && (t.claimants[e.p].alive <==> w.claimants[e.p].alive && !e.Crash?)
  {
    HoldsIff(es, e.p);
  }

  /** The marker is created where there is none, completed by its writer, and removed by its unlink. */
  function MarkerAfter(w: World, e: Event): Option<Marker> {
    if e.Create? && e.p !in w.claimants && w.marker.None? then Some(Marker(e.p, false))
    else if e == WriteEnds(e.p, true) && At(w, e.p, Writing) then Some(Marker(e.p, true))
    else if e == Unlink(e.p, true) && At(w, e.p, Unlinking) then None
    else w.marker
  }

  function FinishedAfter(w: World, e: Event): set<nat> {
    w.finished
    + if e == InnerFinishEnds(e.p, true) && At(w, e.p, InnerFinish) && w.claimants[e.p].state == Finishing
      then {e.p} else {}
  }

  lemma {:induction false} OthersRow(w: World, e: Event)
    ensures forall q <- w.claimants :: q in Step(w, e).claimants
                                       && (q != e.p ==> Step(w, e).claimants[q] == w.claimants[q])
  {
  }

  lemma {:induction false} MarkerRow(w: World, e: Event)
    requires MarkerInv(w)
    ensures Step(w, e).marker == MarkerAfter(w, e)
  {
  }

  lemma {:induction false} FinishedRow(w: World, e: Event)
    ensures Step(w, e).finished == FinishedAfter(w, e)
  {
  }

  /** No step touches another claimant, and the marker changes by exactly three file-system calls. */
  lemma {:induction false} OthersUntouched(es: seq<Event>, e: Event)
    ensures var w, t := After(es), Step(After(es), e);
            && (forall q <- w.claimants :: q in t.claimants && (q != e.p ==> t.claimants[q] == w.claimants[q]))
            && t.marker == MarkerAfter(w, e) && t.finished == FinishedAfter(w, e)
  {
    RunKeepsWritten(Empty, es);
    OthersRow(After(es), e);
    MarkerRow(After(es), e);
    FinishedRow(After(es), e);
  }

  /** A claimant on a free desktop can initialise, pass its startup guard, and reach its runner. */
  lemma {:induction false} CanInitialize(w: World, p: nat)
    requires w.marker.None? && p !in w.claimants
    ensures var t := Run(w, InitSteps(p));
            && At(t, p, Performing) && t.claimants[p].state.Active? && t.marker == Some(Marker(p, true))
            && t.passes == w.passes + [p] + [p] + [p] + [p]
  {
    var e := InitSteps(p);
    assert e == e[..3] + e[3..] && e[..3] == [e[0], e[1], e[2]] && e[3..] == [e[3], e[4], e[5]];
    RunSplit(w, e[..3], e[3..]);
    RunThree(w, e[0], e[1], e[2]);
    BeginsInit(w, p);
    RunThree(Run(w, e[..3]), e[3], e[4], e[5]);
    EndsInit(Run(w, e[..3]), p);
  }

  lemma {:induction false} BeginsInit(w: World, p: nat)
    requires w.marker.None? && p !in w.claimants
    ensures var t := Step(Step(Step(w, InitSteps(p)[0]), InitSteps(p)[1]), InitSteps(p)[2]);
            && p in t.claimants && t.claimants[p] == Claimant(true, true, false, Initializing, Starting)
            && t.marker == Some(Marker(p, true)) && t.passes == w.passes + [p]
  {
    var w2 := Step(Step(w, InitSteps(p)[0]), InitSteps(p)[1]);
    assert w2.claimants[p] == Claimant(true, true, false, Pending, Idle) && w2.marker == Some(Marker(p, true));
  }

  lemma {:induction false} EndsInit(w: World, p: nat)
    requires p in w.claimants && w.claimants[p] == Claimant(true, true, false, Initializing, Starting)
    requires w.marker == Some(Marker(p, true))
    ensures var t := Step(Step(Step(w, InitSteps(p)[3]), InitSteps(p)[4]), InitSteps(p)[5]);
            && At(t, p, Performing) && t.claimants[p].state.Active? && t.marker == w.marker
            && t.passes == w.passes + [p] + [p] + [p]
  {
    var w1 := Step(w, InitSteps(p)[3]);
    var w2 := Step(w1, InitSteps(p)[4]);
    assert w1.claimants[p] == w.claimants[p] && w1.passes == w.passes + [p];
    assert w2.claimants[p] == Claimant(true, true, false, Active, Idle) && w2.passes == w.passes + [p] + [p];
  }

  function InitSteps(p: nat): seq<Event> {
    [Create(p, true), WriteEnds(p, true), StartInitialization(p, true), StartupGate(p, true),
     InitializationEnds(p, true), StartPerform(p)]
  }

  lemma {:induction false} RunSplit(w: World, es: seq<Event>, more: seq<Event>)
    ensures Run(w, es + more) == Run(Run(w, es), more)
    decreases |es|
  {
    if es == [] {
      assert es + more == more;
    } else {
      assert (es + more)[0] == es[0] && (es + more)[1..] == es[1..] + more;
      RunSplit(Step(w, es[0]), es[1..], more);
    }
  }
}
