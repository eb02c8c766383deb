/** What every run of any number of claimants guarantees. */
module DesktopClaimRuns {
  import opened Basics
  import opened DesktopClaim

  /* ------------------------------------------------------------------ what every step keeps */

  /** A claimant inside one uninterrupted piece has its own marker. */
  predicate StageInv(w: World) {
    && (forall p <- w.claimants :: w.claimants[p].stage.Writing? ==> w.marker == Some(Marker(p, false)))
    && (forall p <- w.claimants :: w.claimants[p].stage.Releasing? ==> p in w.finished)
    && (forall p <- w.claimants :: w.claimants[p].stage.Unlinking? ==>
          w.marker == Some(Marker(p, true)) && p in w.finished && w.claimants[p].claimClosed)
  }

  predicate ReleasedInv(w: World) {
    && (w.marker.Some? ==> w.marker.value.owner in w.claimants && w.marker.value.owner !in w.released)
    && (forall p <- w.released :: p in w.claimants && w.claimants[p].claimClosed && p in w.finished)
    && (forall p <- w.finished :: p in w.claimants)
  }

  predicate MarkerInv(w: World) {
    StageInv(w) && ReleasedInv(w)
  }

  predicate PassInv(w: World) {
    && (forall p <- w.passes :: p in w.released || (w.marker.Some? && w.marker.value.owner == p))
    && (forall i, j, k :: 0 <= i < j < k < |w.passes| && w.passes[i] != w.passes[j] ==> w.passes[k] != w.passes[i])
    && (forall i, j :: 0 <= i < j < |w.passes| && w.passes[i] != w.passes[j] ==> w.passes[i] in w.released)
  }

  lemma {:induction false} StepKeepsStages(w: World, e: Event)
    requires MarkerInv(w)
    ensures StageInv(Step(w, e))
  {
  }

  lemma {:induction false} StepKeepsMarker(w: World, e: Event)
    requires MarkerInv(w)
    ensures MarkerInv(Step(w, e))
  {
    StepKeepsStages(w, e);
  }

  lemma {:induction false} PassesHeld(w: World, e: Event)
    requires Enabled(w, e) && Passes(w, e)
    ensures Holds(w, e.p)
  {
  }

  lemma {:induction false} StepKeepsPasses(w: World, e: Event)
    requires MarkerInv(w) && PassInv(w)
    ensures PassInv(Step(w, e))
  {
    var t := Step(w, e);
    OwnerChanges(w, e);
    if Enabled(w, e) && Passes(w, e) {
      PassesHeld(w, e);
    }
  }

  /** The marker changes hands only by its owner's release. */
  lemma {:induction false} OwnerChanges(w: World, e: Event)
    requires MarkerInv(w)
    ensures var t := Step(w, e);
            && w.released <= t.released && w.finished <= t.finished
            && (w.marker.Some? ==>
                 (t.marker.Some? && t.marker.value.owner == w.marker.value.owner) || w.marker.value.owner in t.released)
  {
  }

  lemma {:induction false} RunKeeps(w: World, es: seq<Event>)
    requires MarkerInv(w) && PassInv(w)
    ensures MarkerInv(Run(w, es)) && PassInv(Run(w, es))
    decreases |es|
  {
    if es != [] {
      StepKeepsMarker(w, es[0]);
      StepKeepsPasses(w, es[0]);
      RunKeeps(Step(w, es[0]), es[1..]);
    }
  }

  /* ------------------------------------------------------------------ what every run guarantees */

  /** At any moment at most one claimant can pass `assertHeld`. */
  lemma {:induction false} OneHolder(es: seq<Event>, p: nat, q: nat)
    requires Holds(Run(Empty, es), p) && Holds(Run(Empty, es), q)
    ensures p == q && p !in Run(Empty, es).released
  {
    RunKeeps(Empty, es);
  }

  /**
   * Over a whole run the passes of different claimants do not interleave: once another claimant has
   * passed, the earlier one has released after its inner `finish` returned, and never passes again.
   */
  lemma {:induction false} PassesSegregated(es: seq<Event>, i: nat, j: nat)
    requires i < j < |Run(Empty, es).passes| && Run(Empty, es).passes[i] != Run(Empty, es).passes[j]
    ensures var w := Run(Empty, es); var p := w.passes[i];
            && p in w.released && p in w.finished
            && forall k :: j < k < |w.passes| ==> w.passes[k] != p
  {
    RunKeeps(Empty, es);
  }

  /**
   * The marker is unlinked only by its owner, and only after its inner `finish` returned while it was
   * still FINISHING.
   */
  lemma {:induction false} OnlyFinishedUnlink(es: seq<Event>, e: Event)
    requires Run(Empty, es).marker.Some? && Step(Run(Empty, es), e).marker.None?
    ensures var w := Run(Empty, es);
            e.Unlink? && w.marker == Some(Marker(e.p, true)) && e.p in w.finished
  {
    RunKeeps(Empty, es);
  }

  /** A claimant that can no longer release: crashed, or closed with no release under way. */
  predicate Stuck(w: World, p: nat) {
    p in w.claimants && (!w.claimants[p].alive || (w.claimants[p].state.Closed? && !InOnePiece(w.claimants[p].stage)))
  }

  /**
   * A crash, or a cancellation before the release began, leaves the marker in place for ever, and
   * nobody else ever passes.
   */
  lemma {:induction false} MarkerSurvives(w: World, p: nat, more: seq<Event>)
    requires MarkerInv(w) && w.marker.Some? && w.marker.value.owner == p && Stuck(w, p)
    ensures var t := Run(w, more);
            && t.marker == w.marker && Stuck(t, p)
            && forall q :: q != p ==> !Holds(t, q)
    decreases |more|
  {
    if more != [] {
      StepKeepsMarker(w, more[0]);
      StuckStays(w, p, more[0]);
      MarkerSurvives(Step(w, more[0]), p, more[1..]);
    }
  }

  lemma {:induction false} StuckStays(w: World, p: nat, e: Event)
    requires MarkerInv(w) && w.marker.Some? && w.marker.value.owner == p && Stuck(w, p)
    ensures var t := Step(w, e); t.marker == w.marker && Stuck(t, p)
  {
  }

  /** A crash at any moment of any run. */
  lemma {:induction false} CrashedClaimSurvives(es: seq<Event>, p: nat, more: seq<Event>)
    requires var w := Run(Empty, es); w.marker.Some? && w.marker.value.owner == p
    ensures Run(Step(Run(Empty, es), Crash(p)), more).marker == Run(Empty, es).marker
  {
    var w := Run(Empty, es);
    RunKeeps(Empty, es);
    StepKeepsMarker(w, Crash(p));
    MarkerSurvives(Step(w, Crash(p)), p, more);
  }

  /** A cancellation at any moment of any run at which it can come. */
  lemma {:induction false} CancelledClaimSurvives(es: seq<Event>, p: nat, more: seq<Event>)
    requires var w := Run(Empty, es); w.marker.Some? && w.marker.value.owner == p && Enabled(w, Cancel(p))
    ensures Run(Step(Run(Empty, es), Cancel(p)), more).marker == Run(Empty, es).marker
  {
    var w := Run(Empty, es);
    RunKeeps(Empty, es);
    StepKeepsMarker(w, Cancel(p));
    MarkerSurvives(Step(w, Cancel(p)), p, more);
  }

  /** Nothing of the claimant passes from the `n`-th pass on. */
  predicate SilentFrom(w: World, p: nat, n: nat) {
    n <= |w.passes| && forall k :: n <= k < |w.passes| ==> w.passes[k] != p
  }

  /**
   * After a cancellation no guard of the claimant ever passes again, however late the startup hook or
   * an adapter that was left running calls it.
   */
  lemma {:induction false} CancelledNeverPasses(w: World, p: nat, more: seq<Event>)
    requires Enabled(w, Cancel(p))
    ensures SilentFrom(Run(Step(w, Cancel(p)), more), p, |w.passes|)
  {
    StaysSilent(Step(w, Cancel(p)), p, more, |w.passes|);
  }

  lemma {:induction false} StaysSilent(w: World, p: nat, more: seq<Event>, n: nat)
    requires Stuck(w, p) && SilentFrom(w, p, n)
    ensures SilentFrom(Run(w, more), p, n)
    decreases |more|
  {
    if more != [] {
      SilentStep(w, p, more[0]);
      StaysSilent(Step(w, more[0]), p, more[1..], n);
    }
  }

  lemma {:induction false} SilentStep(w: World, p: nat, e: Event)
    requires Stuck(w, p)
    ensures Stuck(Step(w, e), p)
    ensures Step(w, e).passes == w.passes || (e.p != p && Step(w, e).passes == w.passes + [e.p])
  {
  }

  /** A release whose unlink fails leaves the marker for ever as well: nobody tries it again. */
  lemma {:induction false} FailedReleaseSurvives(es: seq<Event>, p: nat, more: seq<Event>)
    requires At(Run(Empty, es), p, Unlinking)
    ensures var t := Run(Step(Run(Empty, es), Unlink(p, false)), more);
            t.marker == Some(Marker(p, true)) && forall q :: !Holds(t, q)
  {
    var w := Run(Empty, es);
    RunKeeps(Empty, es);
    var t := Step(w, Unlink(p, false));
    StepKeepsMarker(w, Unlink(p, false));
    MarkerSurvives(t, p, more);
    ClosedStays(t, p, more);
  }

  lemma {:induction false} ClosedStays(w: World, p: nat, more: seq<Event>)
    requires p in w.claimants && w.claimants[p].claimClosed
    ensures p in Run(w, more).claimants && Run(w, more).claimants[p].claimClosed
    decreases |more|
  {
    if more != [] {
      assert p in Step(w, more[0]).claimants && Step(w, more[0]).claimants[p].claimClosed;
      ClosedStays(Step(w, more[0]), p, more[1..]);
    }
  }

  lemma {:induction false} RunNext(w: World, e: Event, more: seq<Event>)
    ensures Run(w, [e] + more) == Run(Step(w, e), more)
  {
    assert ([e] + more)[1..] == more;
  }

  lemma {:induction false} RunThree(w: World, e0: Event, e1: Event, e2: Event)
    ensures Run(w, [e0, e1, e2]) == Step(Step(Step(w, e0), e1), e2)
  {
    RunNext(w, e0, [e1, e2]);
    RunNext(Step(w, e0), e1, [e2]);
    RunNext(Step(Step(w, e0), e1), e2, []);
    assert [e0] + [e1, e2] == [e0, e1, e2] && [e1] + [e2] == [e1, e2] && [e2] + [] == [e2];
  }

  /** A claimant that finds no marker takes it, passes, and reaches its inner runner. */
  lemma {:induction false} ClaimEnters(w: World, p: nat)
    requires w.marker.None? && p !in w.claimants
    ensures var claimed := Run(w, [Create(p, false), WriteEnds(p, true), StartPerform(p)]);
            Holds(claimed, p) && At(claimed, p, Performing) && claimed.claimants[p].state.Active?
  {
    RunThree(w, Create(p, false), WriteEnds(p, true), StartPerform(p));
  }

  /** After a clean finish the desktop is free, and the next claimant takes it and passes. */
  lemma {:induction false} HandOver(w: World, p: nat, q: nat)
    requires Holds(w, p) && At(w, p, InnerFinish) && w.claimants[p].state.Finishing? && q !in w.claimants
    ensures var released := Run(w, [InnerFinishEnds(p, true), Release(p), Unlink(p, true)]);
            released.marker.None? && Holds(Run(released, [Create(q, false), WriteEnds(q, true), StartPerform(q)]), q)
  {
    RunThree(w, InnerFinishEnds(p, true), Release(p), Unlink(p, true));
    var released := Run(w, [InnerFinishEnds(p, true), Release(p), Unlink(p, true)]);
    ClaimEnters(released, q);
  }
}
