/**
 * The one-shot session with the control plane, over a network that loses replies.
 *
 * A step is a method call up to its first `await`, the settling of the one request that is awaited,
 * or one turn of the loop that waits for a form window. `log` is every request ever sent, in order,
 * with what became of it. A reply that is late, malformed or names something else is `Lost`.
 */
module Session {
  import opened Basics
  import opened Supervision

  datatype Body =
    | Authority(consent: bool)
    | Intent(sequence: nat, stop: bool)
    | Commit(id: string)
    | Preflighted(id: string)
    | FormPermit(id: string)
    | Observed(id: string, producerSequence: nat)
    | Window(id: string)
    | Result(id: string, status: Status)
    | Finish(stopId: string, readerSequence: nat)

  datatype Reply = Waiting | Lost | Acknowledged | RetainedAs(id: string) | WindowIs(closed: bool)

  datatype Exchange = Exchange(body: Body, reply: Reply)

  datatype Current = Current(id: string, sequence: nat, stop: bool)

  /** The method that is suspended. */
  datatype Call =
    | NoCall
    | AwaitAuthority
    | AwaitIntent(sequence: nat, stop: bool)
    | AwaitCommit
    | AwaitPreflight
    | AwaitPermit
    | AwaitObservation
    | AwaitWindow(status: Status)
    | Sleeping(status: Status)
    | AwaitResult(status: Status)
    | AwaitFinish

  datatype Session = Session(
    intentPending: bool, current: Option<Current>, committed: bool, busy: bool, fenced: bool,
    observationSequence: nat, observationPending: bool, preflightPending: bool, permitPending: bool, permitted: bool,
    stopActionId: Option<string>, finishStarted: bool,
    call: Call, log: seq<Exchange>)

  const Opened := Session(false, None, false, false, false, 0, false, false, false, false, None, false, NoCall, [])

  /** `inTime` is the comparison with the session's deadline; `sound` the checks on what the caller passed. */
  datatype Event =
    | CheckAuthority(consent: bool, aborted: bool, sound: bool, inTime: bool)
    | RetainIntent(sequence: nat, stop: bool, sound: bool, inTime: bool)
    | CommitDispatch(id: string, inTime: bool)
    | RetainPreflight(id: string, sequence: nat, sound: bool, inTime: bool)
    | AuthorizeForm(id: string, sequence: nat, effect: bool, inTime: bool)
    | RetainObservation(id: string, sequence: nat, sound: bool, inTime: bool)
    | CompleteAction(id: string, status: Status, inTime: bool)
    | RequestFinish(inTime: bool)
    | Replied(id: string)
    | WindowReplied(closed: bool, known: bool, inTime: bool)
    | Wakes(inTime: bool, windowOpen: bool)
    | ReplyLost

  /* ------------------------------------------------------------------ guards */

  predicate Names(s: Session, id: string) {
    s.current.Some? && s.current.value.id == id
  }

  predicate NamesAt(s: Session, id: string, sequence: nat) {
    Names(s, id) && s.current.value.sequence == sequence
  }

  predicate Guard(s: Session, e: Event) {
    match e
    case CheckAuthority(_, aborted, _, _) =>
      !s.fenced && !s.busy && !s.intentPending && !s.finishStarted && s.current.None? && !aborted
    case RetainIntent(sequence, _, sound, inTime) =>
      !s.fenced && !s.busy && !s.finishStarted && s.stopActionId.None? && !s.intentPending && inTime && sound
      && sequence >= 1
    case CommitDispatch(id, _) => !s.fenced && !s.busy && !s.committed && Names(s, id)
    case RetainPreflight(id, sequence, _, _) =>
      !s.busy && !s.fenced && s.committed && !s.preflightPending && NamesAt(s, id, sequence)
    case AuthorizeForm(id, sequence, effect, _) =>
      !s.busy && !s.fenced && s.committed && s.preflightPending && !s.permitPending && NamesAt(s, id, sequence)
      && effect
    case RetainObservation(id, sequence, _, _) =>
      !s.busy && !s.fenced && s.committed && !s.observationPending && NamesAt(s, id, sequence)
    case CompleteAction(id, status, _) =>
      !s.busy && Names(s, id) && (status.Ambiguous? || (!s.fenced && s.committed))
    case RequestFinish(_) => !s.fenced && !s.busy && !s.intentPending && !s.finishStarted && s.stopActionId.Some?
    case _ => false
  }

  /** The request is sent: the caller's data passed every check made before it, and time is left. */
  predicate Sends(e: Event) {
    match e
    case CheckAuthority(_, _, sound, inTime) => sound && inTime
    case RetainPreflight(_, _, sound, inTime) => sound && inTime
    case RetainObservation(_, _, sound, inTime) => sound && inTime
    case RetainIntent(_, _, _, _) => true
    case CommitDispatch(_, inTime) => inTime
    case AuthorizeForm(_, _, _, inTime) => inTime
    case CompleteAction(_, _, inTime) => inTime
    case RequestFinish(inTime) => inTime
    case _ => false
  }

  /** A non-AMBIGUOUS result waits for the form window first. */
  function CallOf(s: Session, e: Event): Call {
    match e
    case CheckAuthority(_, _, _, _) => AwaitAuthority
    case RetainIntent(sequence, stop, _, _) => AwaitIntent(sequence, stop)
    case CommitDispatch(_, _) => AwaitCommit
    case RetainPreflight(_, _, _, _) => AwaitPreflight
    case AuthorizeForm(_, _, _, _) => AwaitPermit
    case RetainObservation(_, _, _, _) => AwaitObservation
    case CompleteAction(_, status, _) =>
      if !status.Ambiguous? && s.permitted then AwaitWindow(status) else AwaitResult(status)
    case RequestFinish(_) => AwaitFinish
    case _ => NoCall
  }

  function BodyOf(s: Session, e: Event): Body {
    match e
    case CheckAuthority(consent, _, _, _) => Authority(consent)
    case RetainIntent(sequence, stop, _, _) => Intent(sequence, stop)
    case CommitDispatch(id, _) => Commit(id)
    case RetainPreflight(id, _, _, _) => Preflighted(id)
    case AuthorizeForm(id, _, _, _) => FormPermit(id)
    case RetainObservation(id, _, _, _) => Observed(id, s.observationSequence + 1)
    case CompleteAction(id, status, _) => if !status.Ambiguous? && s.permitted then Window(id) else Result(id, status)
    case _ => Finish(if s.stopActionId.Some? then s.stopActionId.value else "", s.observationSequence)
  }

  /* ------------------------------------------------------------------ what happens in a step */

  predicate Awaiting(s: Session) {
    !s.call.NoCall? && !s.call.Sleeping? && s.log != []
  }

  /**
   * The awaited request gets its outcome: the exact reply in time, one answer about the form window,
   * or none of these.
   */
  predicate Settles(s: Session, e: Event) {
    match e
    case Replied(_) => Awaiting(s) && !s.call.AwaitWindow?
    case WindowReplied(_, _, _) => Awaiting(s) && s.call.AwaitWindow? && s.current.Some?
    case ReplyLost => Awaiting(s)
    case _ => false
  }

  /** A request goes out. After a closed form window it is the result; after a pause the window is asked again. */
  predicate SendsNow(s: Session, e: Event) {
    match e
    case WindowReplied(closed, known, inTime) => Settles(s, e) && closed && known && inTime
    case Wakes(inTime, windowOpen) => s.call.Sleeping? && s.current.Some? && inTime && windowOpen
    case _ => Guard(s, e) && Sends(e)
  }

  predicate Pauses(s: Session, e: Event) {
    e.WindowReplied? && Settles(s, e) && e.known && !e.closed
  }

  /** The action's result is acknowledged. */
  predicate Completes(s: Session, e: Event) {
    e.Replied? && Settles(s, e) && s.call.AwaitResult?
  }

  /** A lost intent leaves only its reservation; every other lost, late or refused request fences. */
  predicate Fences(s: Session, e: Event) {
    match e
    case Replied(_) => Settles(s, e) && (s.call.AwaitFinish? || (s.call.AwaitResult? && s.call.status.Ambiguous?))
    case ReplyLost => Settles(s, e) && !s.call.AwaitIntent?
    case WindowReplied(_, _, _) => Settles(s, e) && !SendsNow(s, e) && !Pauses(s, e)
    case Wakes(_, _) => s.call.Sleeping? && s.current.Some? && !SendsNow(s, e)
    case _ => Guard(s, e) && !Sends(e)
  }

  /* ------------------------------------------------------------------ effects, one field at a time */

  function CurrentNext(s: Session, e: Event): Option<Current> {
    if e.Replied? && Settles(s, e) && s.call.AwaitIntent? then Some(Current(e.id, s.call.sequence, s.call.stop))
    else if Completes(s, e) then None
    else s.current
  }

  function BusyNext(s: Session, e: Event): bool {
    match e
    case Replied(_) => s.busy && !Settles(s, e)
    case ReplyLost => s.busy && !Settles(s, e)
    case WindowReplied(_, _, _) => if Settles(s, e) then SendsNow(s, e) || Pauses(s, e) else s.busy
    case Wakes(_, _) => if s.call.Sleeping? && s.current.Some? then SendsNow(s, e) else s.busy
    case _ => if Guard(s, e) then Sends(e) && !e.RetainIntent? && !e.RequestFinish? else s.busy
  }

  function CallNext(s: Session, e: Event): Call {
    match e
    case Replied(_) => if Settles(s, e) then NoCall else s.call
    case ReplyLost => if Settles(s, e) then NoCall else s.call
    case WindowReplied(_, _, _) =>
      if !Settles(s, e) then s.call
      else if SendsNow(s, e) then AwaitResult(s.call.status)
      else if Pauses(s, e) then Sleeping(s.call.status)
      else NoCall
    case Wakes(_, _) =>
      if !(s.call.Sleeping? && s.current.Some?) then s.call
      else if SendsNow(s, e) then AwaitWindow(s.call.status)
      else NoCall
    case _ => if !Guard(s, e) then s.call else if Sends(e) then CallOf(s, e) else NoCall
  }

  function ReplyOf(s: Session, e: Event): Reply {
    match e
    case Replied(id) => if s.call.AwaitIntent? then RetainedAs(id) else Acknowledged
    case ReplyLost => Lost
    case WindowReplied(closed, known, _) => if known then WindowIs(closed) else Lost
    case _ => Acknowledged
  }

  function SentBody(s: Session, e: Event): Body
    requires SendsNow(s, e)
  {
    match e
    case WindowReplied(_, _, _) => Result(s.current.value.id, s.call.status)
    case Wakes(_, _) => Window(s.current.value.id)
    case _ => BodyOf(s, e)
  }

  function Settled(log: seq<Exchange>, reply: Reply): seq<Exchange>
    requires log != []
  {
    log[..|log| - 1] + [Exchange(log[|log| - 1].body, reply)]
  }

  function SettledNext(s: Session, e: Event): seq<Exchange> {
    if Settles(s, e) then Settled(s.log, ReplyOf(s, e)) else s.log
  }

  /** The last request settled, then the new one appended. */
  function LogNext(s: Session, e: Event): seq<Exchange> {
    if SendsNow(s, e) then SettledNext(s, e) + [Exchange(SentBody(s, e), Waiting)] else SettledNext(s, e)
  }

  /** A call's own reservations are made before anything is sent and are never undone by a failure. */
  function Step(s: Session, e: Event): Session {
    Session(
      (s.intentPending || (e.RetainIntent? && Guard(s, e))) && !Completes(s, e),
      CurrentNext(s, e),
      (s.committed || (e.CommitDispatch? && Guard(s, e))) && !Completes(s, e),
      BusyNext(s, e),
      s.fenced || Fences(s, e),
      if e.RetainObservation? && Guard(s, e) && e.sound then s.observationSequence + 1 else s.observationSequence,
      (s.observationPending || (e.RetainObservation? && Guard(s, e))) && !Completes(s, e),
      (s.preflightPending || (e.RetainPreflight? && Guard(s, e))) && !Completes(s, e),
      (s.permitPending || (e.AuthorizeForm? && Guard(s, e))) && !Completes(s, e),
      (s.permitted && !Completes(s, e)) || (e.Replied? && Settles(s, e) && s.call.AwaitPermit?),
      if Completes(s, e) && s.call.status.Succeeded? && s.current.Some? && s.current.value.stop
        then Some(s.current.value.id) else s.stopActionId,
      s.finishStarted || (e.RequestFinish? && Guard(s, e)),
      CallNext(s, e),
      LogNext(s, e))
  }

  function Run(s: Session, es: seq<Event>): Session
    decreases |es|
  {
    if es == [] then s else Run(Step(s, es[0]), es[1..])
  }
}
