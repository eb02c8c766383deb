/**
 * The desktop supervisor: gate, journal, flush, dispatch.
 *
 * `Step` is one uninterrupted piece of the supervisor's code, from one `await` to the next, or one
 * call of a synchronous method; a run is any list of such steps, so every interleaving of
 * cancellation, lease adoption, flush failure, lost dispatch and clock reading is a run. A step
 * that is not possible in a state leaves the state unchanged. `Supervisor` is the class whose
 * methods are those pieces.
 */
module Supervision {
  import opened Basics

  /** The sealed action policy; `Other` is any text outside it. */
  datatype Action =
    | Next | Previous | Activate | TypeText | KeyChord | ReadCurrent | WaitForReaderIdle | Stop
    | Other(text: string)

  datatype GateRefusal =
    | LeaseExpired | CancellationRequested | ActionBudgetExhausted | WallTimeBudgetExhausted
    | ActionNotAllowed | ActionInFlight | NotLeased

  datatype Ambiguity = ActionResultNeverArrived | ClockDiscontinuity

  datatype Status = Succeeded | Failed | Ambiguous

  datatype Lease = Lease(leaseId: string, epoch: nat, deadline: real, maxActions: int, maxWallTime: real)

  datatype Entry = Entry(
    actionId: string, serverActionId: Option<string>, leaseId: string, epoch: nat, sequence: nat,
    action: Action, keyChord: Option<string>, text: Option<string>, intentAtUtc: string,
    dispatchedAt: Option<real>, result: Option<Status>, ambiguity: Option<Ambiguity>)

  datatype Command = Command(actionId: string, sequence: nat, action: Action, keyChord: Option<string>,
      text: Option<string>)

  /** What the one admitted `performAction` is waiting for. */
  datatype Pending =
    | NoAction
    | FlushingIntent(intent: Entry)
    | IntentUnflushed(intent: Entry)                 // the append rejected: the call never resumes
    | IntentDurable(intent: Entry)
    | Dispatching(intent: Entry)
    | FlushingResult(intent: Entry, outcome: Entry)
    | ResultUnflushed(intent: Entry, outcome: Entry)  // likewise
    | ResultDurable(intent: Entry, outcome: Entry)

  /** A call of the dispatch callback, with the epoch of the lease held at that moment. */
  datatype Dispatch = Dispatch(command: Command, heldEpoch: nat)

  datatype Admission = Admission(intent: Entry, lease: Lease, now: real)

  /** The private fields, the suspended call, and what an observer of the ports has seen so far. */
  datatype State = State(
    lease: Option<Lease>, cancelRequested: bool, actionsUsed: nat, wallTimeUsed: real,
    inFlight: Option<string>, sequence: nat, fenced: Option<Ambiguity>,
    lastMonotonic: real, startedMonotonic: real,
    pending: Pending,
    journal: seq<Entry>, dispatched: seq<Dispatch>, admitted: seq<Admission>, adopted: seq<Lease>)

  function Init(started: real): State {
    State(None, false, 0, 0.0, None, 0, None, started, started, NoAction, [], [], [], [])
  }

  datatype Event =
    | AdoptLease(lease: Lease)
    | RequestCancellation
    | Perform(action: Action, keyChord: Option<string>, text: Option<string>, now: real, utc: string)
    | IntentAppended
    | IntentAppendFailed
    | CallDispatch
    | DispatchResolved(succeeded: bool, now: real)
    | DispatchLost(now: real)
    | ResultAppended
    | ResultAppendFailed
    | Return

  function ActionId(leaseId: string, epoch: nat, sequence: nat): string {
    leaseId + ":" + Decimal(epoch) + ":" + Decimal(sequence)
  }

  predicate MayAdopt(s: State, lease: Lease) {
    s.fenced.None? && (s.lease.Some? ==> s.lease.value.epoch < lease.epoch)
  }

  predicate MayAcknowledgeStop(s: State) {
    s.cancelRequested && s.inFlight.None? && s.fenced.None?
  }

  /** The local gate's decision; `None` admits. */
  function Gate(s: State, action: Action, now: real): Option<GateRefusal> {
    if s.fenced.Some? then Some(LeaseExpired)
    else if s.lease.None? then Some(NotLeased)
    else if now < s.lastMonotonic then Some(LeaseExpired)
    else if now >= s.lease.value.deadline then Some(LeaseExpired)
    else if s.cancelRequested then Some(CancellationRequested)
    else if s.inFlight.Some? then Some(ActionInFlight)
    else if s.actionsUsed >= s.lease.value.maxActions then Some(ActionBudgetExhausted)
    else if s.wallTimeUsed >= s.lease.value.maxWallTime then Some(WallTimeBudgetExhausted)
    else if action.Other? then Some(ActionNotAllowed)
    else None
  }

  /** The gate looks at the clock only with a lease and unfenced; a clock that went backwards fences. */
  function FencedAfter(s: State, now: real): Option<Ambiguity> {
    if s.fenced.None? && s.lease.Some? && now < s.lastMonotonic then Some(ClockDiscontinuity) else s.fenced
  }

  function LastAfter(s: State, now: real): real {
    if s.fenced.None? && s.lease.Some? && now >= s.lastMonotonic then now else s.lastMonotonic
  }

  /** What evaluating the gate changes, admitted or not. */
  function AfterGate(s: State, now: real): State {
    s.(fenced := FencedAfter(s, now), lastMonotonic := LastAfter(s, now))
  }

  function IntentFor(lease: Lease, sequence: nat, e: Event): Entry
    requires e.Perform?
  {
    Entry(ActionId(lease.leaseId, lease.epoch, sequence), None, lease.leaseId, lease.epoch, sequence,
          e.action, e.keyChord, e.text, e.utc, None, None, None)
  }

  function ResultFor(intent: Entry, status: Status, now: real): Entry {
    intent.(dispatchedAt := Some(now), result := Some(status),
            ambiguity := if status.Ambiguous? then Some(ActionResultNeverArrived) else None)
  }

  /* ------------------------------------------------------------------ what happens in a step */

  predicate Adopts(s: State, e: Event) {
    e.AdoptLease? && MayAdopt(s, e.lease)
  }

  predicate Admits(s: State, e: Event) {
    e.Perform? && s.lease.Some? && Gate(s, e.action, e.now).None?
  }

  /** The dispatch settles, with the callback's answer or without one. */
  predicate Settles(s: State, e: Event) {
    (e.DispatchResolved? || e.DispatchLost?) && s.pending.Dispatching?
  }

  function StatusOf(e: Event): Status {
    if e.DispatchResolved? then (if e.succeeded then Succeeded else Failed) else Ambiguous
  }

  predicate FlushesIntent(s: State, e: Event) {
    e.IntentAppended? && s.pending.FlushingIntent?
  }

  predicate FlushesResult(s: State, e: Event) {
    e.ResultAppended? && s.pending.FlushingResult?
  }

  predicate Dispatches(s: State, e: Event) {
    e.CallDispatch? && s.pending.IntentDurable? && s.lease.Some?
  }

  predicate Returns(s: State, e: Event) {
    e.Return? && s.pending.ResultDurable?
  }

  /* ------------------------------------------------------------------ effects, one field at a time */

  function NewIntent(s: State, e: Event): Entry
    requires Admits(s, e)
  {
    IntentFor(s.lease.value, s.sequence + 1, e)
  }

  function FencedNext(s: State, e: Event): Option<Ambiguity> {
    if e.Perform? then FencedAfter(s, e.now)
    else if Settles(s, e) && StatusOf(e).Ambiguous? then Some(ActionResultNeverArrived)
    else s.fenced
  }

  function LastNext(s: State, e: Event): real {
    if e.Perform? then LastAfter(s, e.now) else s.lastMonotonic
  }

  function PendingNext(s: State, e: Event): Pending {
    match e
    case Perform(_, _, _, _, _) => if Admits(s, e) then FlushingIntent(NewIntent(s, e)) else s.pending
    case IntentAppended => if s.pending.FlushingIntent? then IntentDurable(s.pending.intent) else s.pending
    case IntentAppendFailed => if s.pending.FlushingIntent? then IntentUnflushed(s.pending.intent) else s.pending
    case CallDispatch => if Dispatches(s, e) then Dispatching(s.pending.intent) else s.pending
    case DispatchResolved(_, now) =>
      if Settles(s, e) then FlushingResult(s.pending.intent, ResultFor(s.pending.intent, StatusOf(e), now))
      else s.pending
    case DispatchLost(now) =>
      if Settles(s, e) then FlushingResult(s.pending.intent, ResultFor(s.pending.intent, StatusOf(e), now))
      else s.pending
    case ResultAppended =>
      if s.pending.FlushingResult? then ResultDurable(s.pending.intent, s.pending.outcome) else s.pending
    case ResultAppendFailed =>
      if s.pending.FlushingResult? then ResultUnflushed(s.pending.intent, s.pending.outcome) else s.pending
    case Return => if s.pending.ResultDurable? then NoAction else s.pending
    case _ => s.pending
  }

  function JournalNext(s: State, e: Event): seq<Entry> {
    if FlushesIntent(s, e) then s.journal + [s.pending.intent]
    else if FlushesResult(s, e) then s.journal + [s.pending.outcome]
    else s.journal
  }

  /** `command.sequence` is the field's value now, after the flush, not the entry's. */
  function DispatchFor(s: State, i: Entry): Dispatch
    requires s.lease.Some?
  {
    Dispatch(Command(i.actionId, s.sequence, i.action, i.keyChord, i.text), s.lease.value.epoch)
  }

  function Step(s: State, e: Event): State {
    State(
      if Adopts(s, e) then Some(e.lease) else s.lease,
      s.cancelRequested || e.RequestCancellation?,
      if Admits(s, e) then s.actionsUsed + 1 else s.actionsUsed,
      if Settles(s, e) then (e.now - s.startedMonotonic) / 1000.0 else s.wallTimeUsed,
      if Admits(s, e) then Some(NewIntent(s, e).actionId) else if Returns(s, e) then None else s.inFlight,
      if Adopts(s, e) then 0 else if Admits(s, e) then s.sequence + 1 else s.sequence,
      FencedNext(s, e),
      LastNext(s, e),
      s.startedMonotonic,
      PendingNext(s, e),
      JournalNext(s, e),
      if Dispatches(s, e) then s.dispatched + [DispatchFor(s, s.pending.intent)] else s.dispatched,
      if Admits(s, e) then s.admitted + [Admission(NewIntent(s, e), s.lease.value, e.now)] else s.admitted,
      if Adopts(s, e) then s.adopted + [e.lease] else s.adopted)
  }

  function Run(s: State, es: seq<Event>): State
    decreases |es|
  {
    if es == [] then s else Run(Step(s, es[0]), es[1..])
  }

  /* ------------------------------------------------------------------ the class */

  /** One method per uninterrupted piece; `View` is the abstract state the lemmas speak of. */
  class Supervisor {
    var lease: Option<Lease>
    var cancelRequested: bool
    var actionsUsed: nat
    var wallTimeUsed: real
    var inFlight: Option<string>
    var sequence: nat
    var fenced: Option<Ambiguity>
    var lastMonotonic: real
    var startedMonotonic: real
    var pending: Pending
    ghost var journal: seq<Entry>
    ghost var dispatched: seq<Dispatch>
    ghost var admitted: seq<Admission>
    ghost var adopted: seq<Lease>

    ghost function View(): State
      reads this
    {
      State(lease, cancelRequested, actionsUsed, wallTimeUsed, inFlight, sequence, fenced, lastMonotonic,
            startedMonotonic, pending, journal, dispatched, admitted, adopted)
    }

    constructor (started: real)
      ensures View() == Init(started)
    {
      lease, cancelRequested, actionsUsed, wallTimeUsed := None, false, 0, 0.0;
      inFlight, sequence, fenced := None, 0, None;
      lastMonotonic, startedMonotonic := started, started;
      pending, journal, dispatched, admitted, adopted := NoAction, [], [], [], [];
    }

    /** `false` where the source throws. */
    method AdoptLease(l: Lease) returns (ok: bool)
      modifies this
      ensures ok == MayAdopt(old(View()), l)
      ensures View() == Step(old(View()), Event.AdoptLease(l))
    {
      if fenced.Some? {
        return false;
      }
      if lease.Some? && l.epoch <= lease.value.epoch {
        return false;
      }
      lease := Some(l);
      sequence := 0;
      adopted := adopted + [l];
      return true;
    }

    method RequestCancellation()
      modifies this`cancelRequested
      ensures View() == Step(old(View()), Event.RequestCancellation)
    {
      cancelRequested := true;
    }

    method MayAcknowledge() returns (may: bool)
      ensures may == MayAcknowledgeStop(View())
    {
      may := cancelRequested && inFlight.None? && fenced.None?;
    }

    method Evaluate(action: Action, now: real) returns (refusal: Option<GateRefusal>)
      modifies this`fenced, this`lastMonotonic
      ensures refusal == Gate(old(View()), action, now)
      ensures View() == AfterGate(old(View()), now)
    {
      if fenced.Some? {
        return Some(LeaseExpired);
      }
      if lease.None? {
        return Some(NotLeased);
      }
      if now < lastMonotonic {
        fenced := Some(ClockDiscontinuity);
        return Some(LeaseExpired);
      }
      lastMonotonic := now;
      if now >= lease.value.deadline {
        return Some(LeaseExpired);
      }
      if cancelRequested {
        return Some(CancellationRequested);
      }
      if inFlight.Some? {
        return Some(ActionInFlight);
      }
      if actionsUsed >= lease.value.maxActions {
        return Some(ActionBudgetExhausted);
      }
      if wallTimeUsed >= lease.value.maxWallTime {
        return Some(WallTimeBudgetExhausted);
      }
      if action.Other? {
        return Some(ActionNotAllowed);
      }
      return None;
    }

    /** `performAction` up to the intent's append. */
    method PerformAction(action: Action, keyChord: Option<string>, text: Option<string>, now: real, utc: string)
      returns (refusal: Option<GateRefusal>)
      modifies this
      ensures refusal == Gate(old(View()), action, now)
      ensures View() == Step(old(View()), Perform(action, keyChord, text, now, utc))
    {
      refusal := Evaluate(action, now);
      if refusal.None? {
        sequence := sequence + 1;
        var entry := NextEntry(action, keyChord, text, utc);
        Engage(entry, lease.value, now);
      }
    }

    /** In flight and counted before the flush, not after it. */
    method Engage(entry: Entry, l: Lease, now: real)
      modifies this`inFlight, this`actionsUsed, this`pending, this`admitted
      ensures View() == old(View()).(inFlight := Some(entry.actionId), actionsUsed := old(actionsUsed) + 1,
                                     pending := FlushingIntent(entry), admitted := old(admitted)
                                         + [Admission(entry, l, now)])
    {
      inFlight := Some(entry.actionId);
      actionsUsed := actionsUsed + 1;
      pending := FlushingIntent(entry);
      admitted := admitted + [Admission(entry, l, now)];
    }

    /** The entry that records the intent. */
    method NextEntry(action: Action, keyChord: Option<string>, text: Option<string>, utc: string) returns (entry: Entry)
      requires lease.Some?
      ensures forall now :: entry == IntentFor(lease.value, sequence, Perform(action, keyChord, text, now, utc))
    {
      var l := lease.value;
      var id := l.leaseId + ":" + Decimal(l.epoch) + ":" + Decimal(sequence);
      entry := Entry(id, None, l.leaseId, l.epoch, sequence, action, keyChord, text, utc, None, None, None);
    }

    /** The intent's append resolved, or rejected and took `performAction` with it. */
    method IntentFlushed(ok: bool)
      requires pending.FlushingIntent?
      modifies this`pending, this`journal
      ensures View() == Step(old(View()), if ok then IntentAppended else IntentAppendFailed)
    {
      if ok {
        journal := journal + [pending.intent];
        pending := IntentDurable(pending.intent);
      } else {
        pending := IntentUnflushed(pending.intent);
      }
    }

    method CallDispatch() returns (command: Command)
      requires pending.IntentDurable? && lease.Some?
      modifies this`pending, this`dispatched
      ensures View() == Step(old(View()), Event.CallDispatch)
      ensures dispatched == old(dispatched) + [Dispatch(command, lease.value.epoch)]
    {
      var i := pending.intent;
      command := Command(i.actionId, sequence, i.action, i.keyChord, i.text);
      dispatched := dispatched + [Dispatch(command, lease.value.epoch)];
      pending := Dispatching(i);
    }

    /** The race with the timeout ended: `Some` with the callback's answer, `None` without one. */
    method DispatchSettled(answer: Option<bool>, now: real)
      requires pending.Dispatching?
      modifies this`pending, this`fenced, this`wallTimeUsed
      ensures View() == Step(old(View()),
                             if answer.Some? then DispatchResolved(answer.value, now) else DispatchLost(now))
    {
      var status := Ambiguous;
      var ambiguity := None;
      if answer.Some? {
        status := if answer.value then Succeeded else Failed;
      } else {
        ambiguity := Some(ActionResultNeverArrived);
        fenced := ambiguity;
      }
      wallTimeUsed := (now - startedMonotonic) / 1000.0;
      var entry := pending.intent;
      pending := FlushingResult(entry,
          entry.(dispatchedAt := Some(now), result := Some(status), ambiguity := ambiguity));
    }

    method ResultFlushed(ok: bool)
      requires pending.FlushingResult?
      modifies this`pending, this`journal
      ensures View() == Step(old(View()), if ok then ResultAppended else ResultAppendFailed)
    {
      if ok {
        journal := journal + [pending.outcome];
        pending := ResultDurable(pending.intent, pending.outcome);
      } else {
        pending := ResultUnflushed(pending.intent, pending.outcome);
      }
    }

    method Return() returns (status: Status)
      requires pending.ResultDurable? && pending.outcome.result.Some?
      modifies this`pending, this`inFlight
      ensures View() == Step(old(View()), Event.Return)
      ensures Some(status) == old(pending.outcome.result)
    {
      status := pending.outcome.result.value;
      pending := NoAction;
      inFlight := None;
    }
  }
}
