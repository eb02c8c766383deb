/** What it took for a command to be performed, a STOP to count, the bridge to fence, and the runner to finish. */
module ActionBridgeCauses {
  import opened Basics
  import opened ActionBridge
  import opened ActionBridgeRuns

  /** The bridge after the events. */
  function After(maxActions: nat, es: seq<Event>): Bridge {
    Run(maxActions, Listening, es)
  }

  lemma {:induction false} RunLast(maxActions: nat, b: Bridge, es: seq<Event>)
    requires es != []
    ensures Run(maxActions, b, es) == Step(maxActions, Run(maxActions, b, es[..|es| - 1]), es[|es| - 1])
    decreases |es|
  {
    if |es| > 1 {
      RunLast(maxActions, Step(maxActions, b, es[0]), es[1..]);
      assert es[1..][..|es| - 2] == es[..|es| - 1][1..];
    } else {
      assert es[1..] == [] && es[..0] == [];
    }
  }

  lemma {:induction false} AfterMore(maxActions: nat, es: seq<Event>, e: Event)
    ensures After(maxActions, es + [e]) == Step(maxActions, After(maxActions, es), e)
  {
    RunLast(maxActions, Listening, es + [e]);
    assert (es + [e])[..|es|] == es;
  }

  /* ------------------------------------------------------------------ one socket */

  /** The socket is open and its one request has not come. */
  predicate Waits(b: Bridge, id: nat) {
    id in b.sockets && b.sockets[id].open && b.sockets[id].stage == Reading
  }

  predicate Performing(b: Bridge, id: nat) {
    id in b.sockets && b.sockets[id].stage.Performing?
  }

  /** The command whose result the socket awaits. */
  function CommandOf(b: Bridge, id: nat): Command
    requires Performing(b, id)
  {
    Command(b.sockets[id].stage.sequence, b.sockets[id].stage.stop)
  }

  /** The result was passed on and the reply is being flushed. */
  predicate Flushes(b: Bridge, id: nat) {
    id in b.sockets && b.sockets[id].open && b.sockets[id].stage == Replying
  }

  /** A connection opens its socket for a request, unless it is refused or nothing more is wanted. */
  lemma {:induction false} Connects(maxActions: nat, b: Bridge, id: nat, refused: bool)
    requires id !in b.sockets
    ensures var t := Step(maxActions, b, Connect(id, refused));
            Waits(t, id) <==> !refused && !b.closed && !b.stopped
    ensures forall other <- b.sockets ::
              other in Step(maxActions, b, Connect(id, refused)).sockets
              && Step(maxActions, b, Connect(id, refused)).sockets[other] == b.sockets[other]
  {
  }

  /** No event but its own changes a socket, and no identity is used twice. */
  lemma {:induction false} OwnSocket(maxActions: nat, b: Bridge, e: Event, id: nat)
    requires id in b.sockets
    ensures id in Step(maxActions, b, e).sockets
    ensures Step(maxActions, b, e).sockets[id] != b.sockets[id] ==>
              (e.Request? || e.PerformEnds? || e.Flushed? || e.SocketCloses?) && e.id == id
    ensures b.sockets[id].replied ==> Step(maxActions, b, e).sockets[id].replied
    ensures !b.sockets[id].open ==> !Step(maxActions, b, e).sockets[id].open
  {
  }

  /** A reply counts exactly when its flush succeeded, and a socket is closed exactly by its close event. */
  lemma {:induction false} RepliedIff(maxActions: nat, b: Bridge, e: Event, id: nat)
    requires id in b.sockets
    ensures Step(maxActions, b, e).sockets[id].replied
            <==> b.sockets[id].replied || (e == Flushed(id, true) && Flushes(b, id))
    ensures Step(maxActions, b, e).sockets[id].open <==> b.sockets[id].open && e != SocketCloses(id)
  {
  }

  /* ------------------------------------------------------------------ requests */

  /** A request that the bridge may perform now. */
  predicate Admissible(maxActions: nat, b: Bridge, e: Event) {
    && e.Request? && e.authentic && e.valid && e.guarded
    && !b.closed && !b.stopped && e.sequence == |b.performed| + 1 <= maxActions
  }

  /** In every run, a request is performed exactly when it is admissible and nothing else is being performed. */
  lemma {:induction false} PerformedIff(maxActions: nat, es: seq<Event>, e: Event)
    requires e.Request? && Waits(After(maxActions, es), e.id)
    ensures var b, t := After(maxActions, es), After(maxActions, es + [e]);
            var now := Admissible(maxActions, b, e) && forall i :: !Performing(b, i);
            && t.performed == (if now then b.performed + [Command(e.sequence, e.stop)] else b.performed)
            && (now ==> Performing(t, e.id) && CommandOf(t, e.id) == Command(e.sequence, e.stop))
            && (t.closed <==> b.closed || (e.authentic && !now)) && !Waits(t, e.id)
  {
    AfterMore(maxActions, es, e);
    RunKeeps(maxActions, Listening, es);
    BusyIff(After(maxActions, es));
    RequestStep(maxActions, After(maxActions, es), e);
  }

  lemma {:induction false} BusyIff(b: Bridge)
    requires BusyInv(b)
    ensures b.busy <==> exists i :: Performing(b, i)
  {
    if b.busy {
      var i :| InPerform(b, i);
      assert Performing(b, i);
    } else {
      assert forall i :: Performing(b, i) ==> InPerform(b, i);
    }
  }

  lemma {:induction false} RequestStep(maxActions: nat, b: Bridge, e: Event)
    requires e.Request? && Waits(b, e.id) && SequenceInv(maxActions, b)
    ensures var t := Step(maxActions, b, e);
            var now := Admissible(maxActions, b, e) && !b.busy;
            && t.performed == (if now then b.performed + [Command(e.sequence, e.stop)] else b.performed)
            && (now ==> Performing(t, e.id) && CommandOf(t, e.id) == Command(e.sequence, e.stop))
            && (t.closed <==> b.closed || (e.authentic && !now)) && !Waits(t, e.id)
  {
  }

  /** Nothing else is ever performed. */
  lemma {:induction false} OnlyRequestsPerform(maxActions: nat, b: Bridge, e: Event)
    requires Step(maxActions, b, e).performed != b.performed
    ensures e.Request? && Waits(b, e.id)
  {
  }

  /* ------------------------------------------------------------------ results */

  /** The result may be passed on. */
  predicate PassesOn(b: Bridge, e: Event) {
    e.PerformEnds? && e.valid && e.guarded && !b.closed && !b.stopped
  }

  /** A result is passed on or fences; a STOP counts exactly when it succeeded; every other doubt fences. */
  lemma {:induction false} ResultStep(maxActions: nat, b: Bridge, e: Event)
    requires e.PerformEnds? && Performing(b, e.id)
    ensures var t := Step(maxActions, b, e); var stop := CommandOf(b, e.id).stop;
            && (t.sockets[e.id].stage == Replying <==> PassesOn(b, e)) && !Performing(t, e.id)
            && (t.stopped <==> b.stopped || (PassesOn(b, e) && stop && e.status == Succeeded))
            && (t.closed <==> || b.closed || !PassesOn(b, e) || e.status == Ambiguous || e.status == Status.Refused
                              || (stop && e.status == Failed))
  {
  }

  /** Only the STOP's own result stops. */
  lemma {:induction false} OnlyResultsStop(maxActions: nat, b: Bridge, e: Event)
    requires Step(maxActions, b, e).stopped && !b.stopped
    ensures e.PerformEnds? && Performing(b, e.id) && CommandOf(b, e.id).stop
  {
  }

  /* ------------------------------------------------------------------ fences */

  /** What fences, besides a bad request and a bad result. */
  predicate Doubt(b: Bridge, e: Event) {
    match e
    case Flushed(id, ok) => Flushes(b, id) && !ok
    case SocketCloses(id) =>
      id in b.sockets && b.sockets[id].open && b.sockets[id].entered && !b.sockets[id].replied
    case Fence => true
    case _ => false
  }

  /** Outside requests and results the bridge is closed exactly by a doubt, or by the runner's finish. */
  lemma {:induction false} ClosedIff(maxActions: nat, b: Bridge, e: Event)
    requires !(e.Request? && Waits(b, e.id)) && !(e.PerformEnds? && Performing(b, e.id))
    ensures var t := Step(maxActions, b, e); t.closed <==> b.closed || Doubt(b, e) || (t.finished && !b.finished)
                                                           || (e == Drained && FinishReady(b))
  {
  }

  /* ------------------------------------------------------------------ finish */

  /** `finish` waited for these sockets, and may now call the runner. */
  predicate FinishReady(b: Bridge) {
    && b.draining.Some? && !b.closed && !b.busy
    && forall id <- b.draining.value :: id in b.sockets ==> !b.sockets[id].open
  }

  function OpenSockets(b: Bridge): set<nat> {
    set id <- b.sockets | b.sockets[id].open
  }

  /** `finish` is begun exactly once, of a stopped, unfenced bridge with nothing being performed. */
  lemma {:induction false} BegunIff(maxActions: nat, b: Bridge, e: Event)
    ensures var t := Step(maxActions, b, e);
            t.finishing <==> b.finishing || (e == CallFinish && b.stopped && !b.closed && !b.busy)
    ensures e == CallFinish && b.stopped && !b.closed && !b.busy && !b.finishing ==>
              Step(maxActions, b, e).draining == Some(OpenSockets(b))
    ensures Step(maxActions, b, e).draining.Some? ==>
              || Step(maxActions, b, e).draining == b.draining
              || (e == CallFinish && b.stopped && !b.closed && !b.busy && !b.finishing)
  {
  }

  /** The runner's `finish` is called exactly when the wait ends with all of them closed and nothing has fenced. */
  lemma {:induction false} FinishedIff(maxActions: nat, b: Bridge, e: Event)
    ensures Step(maxActions, b, e).finished <==> b.finished || (e == Drained && FinishReady(b))
  {
  }

  /** And one event began it: a call that found the STOP succeeded, nothing fenced, and nothing being performed. */
  lemma {:induction false} FinishCaused(maxActions: nat, es: seq<Event>) returns (m: nat, n: nat)
    requires After(maxActions, es).finished
    ensures m < n < |es| && es[m] == CallFinish && es[n] == Drained && FinishReady(After(maxActions, es[..n]))
    ensures var b := After(maxActions, es[..m]);
            && b.stopped && !b.closed && !b.busy && !b.finishing
            && After(maxActions, es[..n]).draining == Some(OpenSockets(b))
    decreases |es|
  {
    var last, before := |es| - 1, es[..|es| - 1];
    RunLast(maxActions, Listening, es);
    FinishedIff(maxActions, After(maxActions, before), es[last]);
    if After(maxActions, before).finished {
      m, n := FinishCaused(maxActions, before);
    } else {
      n := last;
      m := DrainCaused(maxActions, before);
    }
    assert before[..m] == es[..m] && before[..n] == es[..n];
  }

  lemma {:induction false} DrainCaused(maxActions: nat, es: seq<Event>) returns (m: nat)
    requires After(maxActions, es).draining.Some?
    ensures m < |es| && es[m] == CallFinish
    ensures var b := After(maxActions, es[..m]);
            && b.stopped && !b.closed && !b.busy && !b.finishing
            && After(maxActions, es).draining == Some(OpenSockets(b))
    decreases |es|
  {
    var last, before := |es| - 1, es[..|es| - 1];
    RunLast(maxActions, Listening, es);
    BegunIff(maxActions, After(maxActions, before), es[last]);
    if After(maxActions, es).draining == After(maxActions, before).draining && !(es[last] == CallFinish
       && After(maxActions, before).stopped && !After(maxActions, before).closed && !After(maxActions, before).busy
       && !After(maxActions, before).finishing) {
      m := DrainCaused(maxActions, before);
    } else {
      m := last;
    }
    assert before[..m] == es[..m];
  }

  /** A navigator that asks only for the STOP gets it performed, replied and finished. */
  lemma {:induction false} CanFinish(maxActions: nat, id: nat)
    requires maxActions >= 1
    ensures var b := After(maxActions, StopSteps(id));
            b.finished && b.performed == [Command(1, true)] && b.sockets == map[id := Socket(false, true, true, Done)]
  {
    RunSteps(maxActions, StopSteps(id));
    FirstSteps(maxActions, id);
    LastSteps(maxActions, id);
  }

  lemma {:induction false} LastSteps(maxActions: nat, id: nat)
    ensures var e := StopSteps(id);
            var b := Bridge(false, true, false, false, 2, map[id := Socket(true, true, false, Replying)], None,
                            [Command(1, true)], false);
            Step(maxActions, Step(maxActions, Step(maxActions, Step(maxActions, b, e[3]), e[4]), e[5]), e[6])
            == Bridge(true, true, false, true, 2, map[id := Socket(false, true, true, Done)], None,
                      [Command(1, true)], true)
  {
    var e := StopSteps(id);
    var b := Bridge(false, true, false, false, 2, map[id := Socket(true, true, false, Replying)], None,
                    [Command(1, true)], false);
    var b5 := Step(maxActions, Step(maxActions, b, e[3]), e[4]);
    assert b5.sockets == map[id := Socket(false, true, true, Done)];
    assert OpenSockets(b5) == {};
  }

  lemma {:induction false} FirstSteps(maxActions: nat, id: nat)
    requires maxActions >= 1
    ensures var e := StopSteps(id);
            Step(maxActions, Step(maxActions, Step(maxActions, Listening, e[0]), e[1]), e[2])
            == Bridge(false, true, false, false, 2, map[id := Socket(true, true, false, Replying)], None,
                      [Command(1, true)], false)
  {
    var e := StopSteps(id);
    var b1 := Step(maxActions, Listening, e[0]);
    assert b1.sockets == map[id := Socket(true, false, false, Reading)];
    var b2 := Step(maxActions, b1, e[1]);
    assert b2.sockets == map[id := Socket(true, true, false, Stage.Performing(1, true))];
    var b3 := Step(maxActions, b2, e[2]);
    assert b3.sockets == map[id := Socket(true, true, false, Replying)];
  }

  function StopSteps(id: nat): seq<Event> {
    [Connect(id, false), Request(id, true, true, true, 1, true), PerformEnds(id, Succeeded, true, true),
     Flushed(id, true), SocketCloses(id), CallFinish, Drained]
  }

  lemma {:induction false} RunSteps(maxActions: nat, e: seq<Event>)
    requires |e| == 7
    ensures After(maxActions, e)
            == Step(maxActions, Step(maxActions, Step(maxActions, Step(maxActions, Step(maxActions, Step(maxActions,
                 Step(maxActions, Listening, e[0]), e[1]), e[2]), e[3]), e[4]), e[5]), e[6])
  {
    assert e == (((((([e[0]] + [e[1]]) + [e[2]]) + [e[3]]) + [e[4]]) + [e[5]]) + [e[6]]);
    assert [e[0]] == [] + [e[0]];
    AfterMore(maxActions, [], e[0]);
    AfterMore(maxActions, [e[0]], e[1]);
    AfterMore(maxActions, [e[0]] + [e[1]], e[2]);
    AfterMore(maxActions, ([e[0]] + [e[1]]) + [e[2]], e[3]);
    AfterMore(maxActions, (([e[0]] + [e[1]]) + [e[2]]) + [e[3]], e[4]);
    AfterMore(maxActions, ((([e[0]] + [e[1]]) + [e[2]]) + [e[3]]) + [e[4]], e[5]);
    AfterMore(maxActions, (((([e[0]] + [e[1]]) + [e[2]]) + [e[3]]) + [e[4]]) + [e[5]], e[6]);
  }
}
