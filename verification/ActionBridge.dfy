/**
 * The private socket through which a navigator's commands reach the exclusive runner.
 *
 * A step is one uninterrupted piece of a handler: a complete request line, the return of `perform`,
 * the flush of a reply, a socket's close event, an expiry, or a piece of `finish`. Sockets may close
 * at any time and replies may be lost.
 */
module ActionBridge {
  import opened Basics

  const MAX_ACTIONS: nat := 500

  datatype Status = Succeeded | Failed | Ambiguous | Refused

  datatype Stage = Reading | Performing(sequence: nat, stop: bool) | Replying | Done

  datatype Socket = Socket(open: bool, entered: bool, replied: bool, stage: Stage)

  /** A command handed to `perform`. */
  datatype Command = Command(sequence: nat, stop: bool)

  datatype Bridge = Bridge(
    closed: bool, stopped: bool, busy: bool, finishing: bool, next: nat,
    sockets: map<nat, Socket>, draining: Option<set<nat>>,
    performed: seq<Command>, finished: bool)

  const Listening := Bridge(false, false, false, false, 1, map[], None, [], false)

  /**
   * `valid` is every check of the handler that reads neither of the bridge's own variables; `guarded`
   * the clock and the paths.
   */
  datatype Event =
    | Connect(id: nat, refused: bool)
    | Request(id: nat, authentic: bool, valid: bool, guarded: bool, sequence: nat, stop: bool)
    | PerformEnds(id: nat, status: Status, valid: bool, guarded: bool)
    | Flushed(id: nat, ok: bool)
    | SocketCloses(id: nat)
    | Fence
    | CallFinish
    | Drained

  predicate Has(b: Bridge, id: nat) {
    id in b.sockets && b.sockets[id].open
  }

  predicate AtStage(b: Bridge, id: nat, stage: Stage) {
    Has(b, id) && b.sockets[id].stage == stage
  }

  predicate InPerform(b: Bridge, id: nat) {
    id in b.sockets && b.sockets[id].stage.Performing?
  }

  /** The request reaches `perform`. */
  predicate Performs(maxActions: nat, b: Bridge, e: Event) {
    && e.Request? && AtStage(b, e.id, Reading) && e.authentic && e.valid && e.guarded
    && !b.closed && !b.stopped && !b.busy && e.sequence == b.next && b.next <= maxActions
  }

  /** The result is passed on to the navigator; only a successful STOP leaves the bridge open for `finish`. */
  predicate Passes(b: Bridge, e: Event) {
    e.PerformEnds? && InPerform(b, e.id) && e.valid && e.guarded && !b.closed && !b.stopped
  }

  predicate StopsNow(b: Bridge, e: Event) {
    Passes(b, e) && e.status.Succeeded? && b.sockets[e.id].stage.stop
  }

  /** `finish` passes its second check. */
  predicate Finishes(b: Bridge, e: Event) {
    && e.Drained? && b.draining.Some? && !b.closed && !b.busy
    && forall id <- b.draining.value :: id in b.sockets ==> !b.sockets[id].open
  }

  /** Everything that calls `fence`. */
  predicate Fences(maxActions: nat, b: Bridge, e: Event) {
    match e
    case Request(id, authentic, _, _, _, _) => AtStage(b, id, Reading) && authentic && !Performs(maxActions, b, e)
    case PerformEnds(id, status, _, _) =>
      InPerform(b, id)
      && (!Passes(b, e) || status.Ambiguous? || status.Refused? || (b.sockets[id].stage.stop && !status.Succeeded?))
    case Flushed(id, ok) => AtStage(b, id, Replying) && !ok
    case SocketCloses(id) => Has(b, id) && b.sockets[id].entered && !b.sockets[id].replied
    case Fence => true
    case _ => false
  }

  predicate StartsFinish(b: Bridge, e: Event) {
    e.CallFinish? && !b.closed && b.stopped && !b.busy && !b.finishing
  }

  function SocketNext(maxActions: nat, b: Bridge, e: Event): map<nat, Socket> {
    match e
    case Connect(id, refused) =>
      if id in b.sockets then b.sockets
      else b.sockets[id := Socket(true, false, false, if refused || b.closed || b.stopped then Done else Reading)]
    case Request(id, authentic, _, _, sequence, stop) =>
      if !AtStage(b, id, Reading) then b.sockets
      else b.sockets[id := b.sockets[id].(entered := authentic,
          stage := if Performs(maxActions, b, e) then Performing(sequence, stop) else Done)]
    case PerformEnds(id, _, _, _) =>
      if !InPerform(b, id) then b.sockets
      else b.sockets[id := b.sockets[id].(stage := if Passes(b, e) then Replying else Done)]
    case Flushed(id, ok) =>
      if AtStage(b, id, Replying) && ok then b.sockets[id := b.sockets[id].(replied := true, stage := Done)]
      else b.sockets
    case SocketCloses(id) => if Has(b, id) then b.sockets[id := b.sockets[id].(open := false)] else b.sockets
    case _ => b.sockets
  }

  function Step(maxActions: nat, b: Bridge, e: Event): Bridge {
    Bridge(
      b.closed || Fences(maxActions, b, e) || Finishes(b, e),
      b.stopped || StopsNow(b, e),
      if Performs(maxActions, b, e) then true else if e.PerformEnds? && InPerform(b, e.id) then false else b.busy,
      b.finishing || StartsFinish(b, e),
      if Performs(maxActions, b, e) then b.next + 1 else b.next,
      SocketNext(maxActions, b, e),
      if StartsFinish(b, e) then Some(set id <- b.sockets | b.sockets[id].open)
      else if e.Drained? then None else b.draining,
      if Performs(maxActions, b, e) then b.performed + [Command(e.sequence, e.stop)] else b.performed,
      b.finished || Finishes(b, e))
  }

  function Run(maxActions: nat, b: Bridge, es: seq<Event>): Bridge
    decreases |es|
  {
    if es == [] then b else Run(maxActions, Step(maxActions, b, es[0]), es[1..])
  }

  /* ------------------------------------------------------------------ the handlers */

  /** The closure's variables; each method is one uninterrupted piece of a handler. */
  class NavigatorActionBridge {
    const maxActions: nat
    var closed: bool
    var stopped: bool
    var busy: bool
    var finishing: bool
    var next: nat
    var sockets: map<nat, Socket>
    var draining: Option<set<nat>>
    ghost var performed: seq<Command>
    ghost var finished: bool

    ghost function View(): Bridge
      reads this
    {
      Bridge(closed, stopped, busy, finishing, next, sockets, draining, performed, finished)
    }

    constructor (maxActions: nat)
      requires 1 <= maxActions <= MAX_ACTIONS
      ensures this.maxActions == maxActions && View() == Listening
    {
      this.maxActions := maxActions;
      closed, stopped, busy, finishing, next := false, false, false, false, 1;
      sockets, draining, performed, finished := map[], None, [], false;
    }

    /** `fence`; the runner's own cancellation is its business. */
    method DoFence()
      modifies this`closed
      ensures View() == Step(maxActions, old(View()), Fence)
    {
      closed := true;
    }

    /** One complete request line. */
    method Receive(id: nat, authentic: bool, valid: bool, guarded: bool, sequence: nat, stop: bool)
      returns (performs: bool)
      requires AtStage(View(), id, Reading)
      modifies this
      ensures performs == Performs(maxActions, old(View()), Request(id, authentic, valid, guarded, sequence, stop))
      ensures View() == Step(maxActions, old(View()), Request(id, authentic, valid, guarded, sequence, stop))
    {
      performs := false;
      var socket := sockets[id].(entered := authentic, stage := Done);
      if authentic {
        if !guarded || closed || stopped || !valid || sequence != next || next > maxActions || busy {
          closed := true;
        } else {
          // Consumed before anything is awaited.
          busy := true;
          next := next + 1;
          socket := socket.(stage := Performing(sequence, stop));
          performed := performed + [Command(sequence, stop)];
          performs := true;
        }
      }
      sockets := sockets[id := socket];
    }

    /** `perform` returned. */
    method Performed(id: nat, status: Status, valid: bool, guarded: bool)
      requires InPerform(View(), id)
      modifies this
      ensures View() == Step(maxActions, old(View()), PerformEnds(id, status, valid, guarded))
    {
      var stop := sockets[id].stage.stop;
      if !guarded || closed || stopped || !valid {
        closed := true;
        sockets := sockets[id := sockets[id].(stage := Done)];
      } else {
        if status.Succeeded? && stop {
          stopped := true;
        } else if status.Ambiguous? || status.Refused? || stop {
          closed := true;
        }
        sockets := sockets[id := sockets[id].(stage := Replying)];
      }
      busy := false;
    }

    /** The socket's close event. */
    method Closed(id: nat)
      requires Has(View(), id)
      modifies this
      ensures View() == Step(maxActions, old(View()), SocketCloses(id))
    {
      if sockets[id].entered && !sockets[id].replied {
        closed := true;
      }
      sockets := sockets[id := sockets[id].(open := false)];
    }

    /** `finish`, up to the wait for open sockets. */
    method BeginFinish() returns (refused: bool)
      modifies this
      ensures refused == !StartsFinish(old(View()), CallFinish)
      ensures View() == Step(maxActions, old(View()), CallFinish)
    {
      if closed || !stopped || busy || finishing {
        return true;
      }
      finishing := true;
      draining := Some(set id <- sockets | sockets[id].open);
      return false;
    }
  }
}
