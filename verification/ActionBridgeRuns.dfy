/** What every run of the action bridge guarantees. */
module ActionBridgeRuns {
  import opened Basics
  import opened ActionBridge

  /* ------------------------------------------------------------------ what every step keeps */

  predicate SequenceInv(maxActions: nat, b: Bridge) {
    && b.next == |b.performed| + 1 && |b.performed| <= maxActions
    && forall k :: 0 <= k < |b.performed| ==> b.performed[k].sequence == k + 1
  }

  /** A command is being performed exactly while the bridge is busy, and only one. */
  ghost predicate BusyInv(b: Bridge) {
    && (forall i, j :: InPerform(b, i) && InPerform(b, j) ==> i == j)
    && (forall i :: InPerform(b, i) ==> b.busy)
    && (b.busy ==> exists i :: InPerform(b, i))
  }

  /** An authenticated request that got no flushed reply fences the bridge when its socket closes. */
  predicate ReplyInv(b: Bridge) {
    && (forall i <- b.sockets :: b.sockets[i].entered && !b.sockets[i].open && !b.sockets[i].replied ==> b.closed)
    && (forall i <- b.sockets :: b.sockets[i].stage.Reading? ==> !b.sockets[i].entered && !b.sockets[i].replied)
    && (b.draining.Some? ==>
          b.stopped
          && forall i <- b.sockets :: b.sockets[i].entered && b.sockets[i].open && i !in b.draining.value ==> b.closed)
    && (b.finished ==> b.closed && b.stopped)
  }

  predicate AllReplied(b: Bridge) {
    forall i <- b.sockets :: b.sockets[i].entered ==> b.sockets[i].replied && !b.sockets[i].open
  }

  lemma {:induction false} StepKeepsSequence(maxActions: nat, b: Bridge, e: Event)
    requires SequenceInv(maxActions, b)
    ensures SequenceInv(maxActions, Step(maxActions, b, e))
  {
  }

  lemma {:induction false} StepKeepsReply(maxActions: nat, b: Bridge, e: Event)
    requires ReplyInv(b)
    ensures ReplyInv(Step(maxActions, b, e))
  {
  }

  lemma {:induction false} StepKeepsBusy(maxActions: nat, b: Bridge, e: Event)
    requires BusyInv(b)
    ensures BusyInv(Step(maxActions, b, e))
  {
    var t := Step(maxActions, b, e);
    if e.PerformEnds? && InPerform(b, e.id) {
      assert b.busy;
      forall i
        ensures !InPerform(t, i)
      {
        assert i != e.id ==> !InPerform(b, i);
      }
    } else if Performs(maxActions, b, e) {
      assert InPerform(t, e.id);
      forall i
        ensures InPerform(t, i) ==> i == e.id
      {
        assert !InPerform(b, i);
      }
    } else {
      assert t.busy == b.busy;
      assert forall i :: InPerform(t, i) <==> InPerform(b, i);
    }
  }

  ghost predicate Inv(maxActions: nat, b: Bridge) {
    SequenceInv(maxActions, b) && BusyInv(b) && ReplyInv(b)
  }

  lemma {:induction false} RunKeeps(maxActions: nat, b: Bridge, es: seq<Event>)
    requires Inv(maxActions, b)
    ensures Inv(maxActions, Run(maxActions, b, es))
    decreases |es|
  {
    if es != [] {
      StepKeepsSequence(maxActions, b, es[0]);
      StepKeepsBusy(maxActions, b, es[0]);
      StepKeepsReply(maxActions, b, es[0]);
      RunKeeps(maxActions, Step(maxActions, b, es[0]), es[1..]);
    }
  }

  /* ------------------------------------------------------------------ what every run guarantees */

  /** The k-th command to reach `perform` has sequence k, and there are at most `maxActions` of them. */
  lemma {:induction false} CommandsNumbered(maxActions: nat, es: seq<Event>, k: nat)
    requires k < |Run(maxActions, Listening, es).performed|
    ensures Run(maxActions, Listening, es).performed[k].sequence == k + 1 <= maxActions
  {
    RunKeeps(maxActions, Listening, es);
  }

  /** A command starts only while no other is being performed. */
  lemma {:induction false} OneAtATime(maxActions: nat, es: seq<Event>, e: Event, i: nat)
    requires Performs(maxActions, Run(maxActions, Listening, es), e)
    ensures !InPerform(Run(maxActions, Listening, es), i)
  {
    RunKeeps(maxActions, Listening, es);
  }

  /** After a fence or a successful STOP nothing more reaches `perform`. */
  lemma {:induction false} NothingAfter(maxActions: nat, b: Bridge, more: seq<Event>)
    requires b.closed || b.stopped
    ensures var t := Run(maxActions, b, more);
            (t.closed || t.stopped) && t.performed == b.performed && (b.closed ==> t.closed)
            && (b.stopped ==> t.stopped)
    decreases |more|
  {
    if more != [] {
      NothingAfter(maxActions, Step(maxActions, b, more[0]), more[1..]);
    }
  }

  /** A fence before the final check keeps `runner.finish` from being called. */
  lemma {:induction false} FencedNeverFinishes(maxActions: nat, b: Bridge, more: seq<Event>)
    requires b.closed && !b.finished
    ensures !Run(maxActions, b, more).finished
    decreases |more|
  {
    if more != [] {
      FencedNeverFinishes(maxActions, Step(maxActions, b, more[0]), more[1..]);
    }
  }

  /**
   * When `runner.finish` is called, a STOP has succeeded, nothing is being performed, and every
   * authenticated request that was ever accepted has had its reply flushed and its socket closed.
   */
  lemma {:induction false} FinishAfterReplies(maxActions: nat, es: seq<Event>, e: Event)
    requires Finishes(Run(maxActions, Listening, es), e)
    ensures var b := Run(maxActions, Listening, es);
            b.stopped && AllReplied(b) && (forall i :: !InPerform(b, i)) && !b.finished
  {
    RunKeeps(maxActions, Listening, es);
    var b := Run(maxActions, Listening, es);
    forall i | i in b.sockets && b.sockets[i].entered
      ensures b.sockets[i].replied && !b.sockets[i].open
    {
    }
  }
}
