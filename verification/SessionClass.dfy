/** The session's methods up to their first `await`, and what each settled request does to its fields. */
module SessionClass {
  import opened Basics
  import opened Session
  import Supervision

  class NativeExecutionSession {
    var intentPending: bool
    var current: Option<Current>
    var committed: bool
    var busy: bool
    var fenced: bool
    var observationSequence: nat
    var observationPending: bool
    var preflightPending: bool
    var permitPending: bool
    var permitted: bool
    var stopActionId: Option<string>
    var finishStarted: bool
    var call: Call
    ghost var log: seq<Exchange>

    ghost function View(): Session
      reads this
    {
      Session(intentPending, current, committed, busy, fenced, observationSequence, observationPending,
          preflightPending, permitPending, permitted, stopActionId, finishStarted, call, log)
    }

    constructor ()
      ensures View() == Opened
    {
      intentPending, current, committed, busy, fenced := false, None, false, false, false;
      observationSequence, observationPending := 0, false;
      preflightPending, permitPending, permitted := false, false, false;
      stopActionId, finishStarted, call, log := None, false, NoCall, [];
    }

    /** `#request`: send unless the session has expired; `waiting` is the method that awaits the reply. */
    method Request(body: Body, waiting: Call, inTime: bool) returns (sent: bool)
      modifies this`fenced, this`call, this`log
      ensures sent == inTime
      ensures fenced == (old(fenced) || !inTime)
      ensures call == if inTime then waiting else NoCall
      ensures log == if inTime then old(log) + [Exchange(body, Waiting)] else old(log)
    {
      if !inTime {
        fenced := true;
        call := NoCall;
        return false;
      }
      call := waiting;
      log := log + [Exchange(body, Waiting)];
      return true;
    }

    method IsCurrent(id: string, sequence: nat) returns (here: bool)
      ensures here == NamesAt(View(), id, sequence)
    {
      here := current.Some? && current.value.id == id && current.value.sequence == sequence;
    }

    method CheckAuthority(consent: bool, aborted: bool, sound: bool, inTime: bool) returns (refused: bool)
      modifies this
      ensures refused == !Guard(old(View()), Event.CheckAuthority(consent, aborted, sound, inTime))
      ensures View() == Step(old(View()), Event.CheckAuthority(consent, aborted, sound, inTime))
    {
      if fenced || busy || intentPending || finishStarted || current.Some? || aborted {
        return true;
      }
      // The scope is parsed before the request, inside the same `try`.
      busy := Request(Authority(consent), AwaitAuthority, sound && inTime);
      return false;
    }

    method RetainIntent(sequence: nat, stop: bool, sound: bool, inTime: bool) returns (refused: bool)
      modifies this
      ensures refused == !Guard(old(View()), Event.RetainIntent(sequence, stop, sound, inTime))
      ensures View() == Step(old(View()), Event.RetainIntent(sequence, stop, sound, inTime))
    {
      if fenced || busy || finishStarted || stopActionId.Some? || intentPending || !inTime {
        return true;
      }
      if !sound || sequence < 1 {
        return true;
      }
      intentPending := true;
      var sent := Request(Intent(sequence, stop), AwaitIntent(sequence, stop), true);
      return false;
    }

    method CommitDispatch(id: string, inTime: bool) returns (refused: bool)
      modifies this
      ensures refused == !Guard(old(View()), Event.CommitDispatch(id, inTime))
      ensures View() == Step(old(View()), Event.CommitDispatch(id, inTime))
    {
      if fenced || busy || committed || current.None? || current.value.id != id {
        return true;
      }
      committed := true;
      busy := Request(Commit(id), AwaitCommit, inTime);
      return false;
    }

    method RetainPreflight(id: string, sequence: nat, sound: bool, inTime: bool) returns (refused: bool)
      modifies this
      ensures refused == !Guard(old(View()), Event.RetainPreflight(id, sequence, sound, inTime))
      ensures View() == Step(old(View()), Event.RetainPreflight(id, sequence, sound, inTime))
    {
      var here := IsCurrent(id, sequence);
      if busy || fenced || !committed || preflightPending || !here {
        return true;
      }
      preflightPending := true;
      busy := Request(Preflighted(id), AwaitPreflight, sound && inTime);
      return false;
    }

    method AuthorizeForm(id: string, sequence: nat, effect: bool, inTime: bool) returns (refused: bool)
      modifies this
      ensures refused == !Guard(old(View()), Event.AuthorizeForm(id, sequence, effect, inTime))
      ensures View() == Step(old(View()), Event.AuthorizeForm(id, sequence, effect, inTime))
    {
      var here := IsCurrent(id, sequence);
      if busy || fenced || !committed || !preflightPending || permitPending
         || !here || !effect
      {
        return true;
      }
      permitPending := true;
      busy := Request(FormPermit(id), AwaitPermit, inTime);
      return false;
    }

    method RetainObservation(id: string, sequence: nat, sound: bool, inTime: bool) returns (refused: bool)
      modifies this
      ensures refused == !Guard(old(View()), Event.RetainObservation(id, sequence, sound, inTime))
      ensures View() == Step(old(View()), Event.RetainObservation(id, sequence, sound, inTime))
    {
      var here := IsCurrent(id, sequence);
      if busy || fenced || !committed || observationPending || !here {
        return true;
      }
      observationPending := true;
      busy := PostObservation(id, sound, inTime);
      return false;
    }

    /** The observation is numbered once it is found sound, and then sent. */
    method PostObservation(id: string, sound: bool, inTime: bool) returns (sent: bool)
      modifies this`fenced, this`call, this`log, this`observationSequence
      ensures sent == (sound && inTime)
      ensures observationSequence == old(observationSequence) + if sound then 1 else 0
      ensures fenced == (old(fenced) || !sent)
      ensures call == if sent then AwaitObservation else NoCall
      ensures log == if sent then old(log) + [Exchange(Observed(id, observationSequence), Waiting)] else old(log)
    {
      if !sound {
        fenced := true;
        call := NoCall;
        return false;
      }
      observationSequence := observationSequence + 1;
      sent := Request(Observed(id, observationSequence), AwaitObservation, inTime);
    }

    method CompleteAction(id: string, status: Supervision.Status, inTime: bool) returns (refused: bool)
      modifies this
      ensures refused == !Guard(old(View()), Event.CompleteAction(id, status, inTime))
      ensures View() == Step(old(View()), Event.CompleteAction(id, status, inTime))
    {
      if busy || current.None? || current.value.id != id || (!status.Ambiguous? && (fenced || !committed)) {
        return true;
      }
      busy := PostResult(id, status, !status.Ambiguous? && permitted, inTime);
      return false;
    }

    /** The result, or first the question whether the form window is closed. */
    method PostResult(id: string, status: Supervision.Status, waits: bool, inTime: bool) returns (sent: bool)
      modifies this`fenced, this`call, this`log
      ensures sent == inTime && fenced == (old(fenced) || !inTime)
      ensures call == if !inTime then NoCall else if waits then AwaitWindow(status) else AwaitResult(status)
      ensures log == if inTime then old(log) + [Exchange(if waits then Window(id) else Result(id, status), Waiting)]
                     else old(log)
    {
      if waits {
        sent := Request(Window(id), AwaitWindow(status), inTime);
      } else {
        sent := Request(Result(id, status), AwaitResult(status), inTime);
      }
    }

    method RequestFinish(inTime: bool) returns (refused: bool)
      modifies this
      ensures refused == !Guard(old(View()), Event.RequestFinish(inTime))
      ensures View() == Step(old(View()), Event.RequestFinish(inTime))
    {
      if fenced || busy || intentPending || finishStarted || stopActionId.None? {
        return true;
      }
      finishStarted := true;
      var sent := Request(Finish(stopActionId.value, observationSequence), AwaitFinish, inTime);
      return false;
    }

    /** The awaited reply was in time and exactly right. */
    method Replied(id: string)
      requires Awaiting(View()) && !call.AwaitWindow?
      modifies this
      ensures View() == Step(old(View()), Event.Replied(id))
    {
      var awaited := call;
      Settle(if awaited.AwaitIntent? then RetainedAs(id) else Acknowledged);
      match awaited {
        case AwaitIntent(sequence, stop) =>
          current := Some(Current(id, sequence, stop));
        case AwaitPermit =>
          permitted := true;
        case AwaitFinish =>
          fenced := true;
        case AwaitResult(status) =>
          Complete(status);
        case _ =>
      }
    }

    /** The awaited request has its outcome, and the method that awaited it goes on. */
    method Settle(reply: Reply)
      requires log != []
      modifies this`log, this`busy, this`call
      ensures log == Settled(old(log), reply) && !busy && call.NoCall?
    {
      log := Settled(log, reply);
      busy := false;
      call := NoCall;
    }

    /** The action's result is acknowledged: every reservation it held is dropped. */
    method Complete(status: Supervision.Status)
      modifies this`fenced, this`stopActionId, this`current, this`intentPending, this`committed
      modifies this`observationPending, this`preflightPending, this`permitPending, this`permitted
      ensures fenced == (old(fenced) || status.Ambiguous?)
      ensures stopActionId == if old(current).Some? && old(current).value.stop && status.Succeeded?
                  then Some(old(current).value.id) else old(stopActionId)
      ensures current.None? && !intentPending && !committed
      ensures !observationPending && !preflightPending && !permitPending && !permitted
    {
      if status.Ambiguous? {
        fenced := true;
      }
      if current.Some? && current.value.stop && status.Succeeded? {
        stopActionId := Some(current.value.id);
      }
      current := None;
      intentPending, committed := false, false;
      observationPending, preflightPending, permitPending, permitted := false, false, false, false;
    }

    /** It failed, came late, or named something else. */
    method ReplyLost()
      requires Awaiting(View())
      modifies this
      ensures View() == Step(old(View()), Event.ReplyLost)
    {
      if !call.AwaitIntent? {
        fenced := true;
      }
      Settle(Lost);
    }

    /** One turn of the form-window loop. */
    method WindowReplied(closed: bool, known: bool, inTime: bool)
      requires Awaiting(View()) && call.AwaitWindow? && current.Some?
      modifies this
      ensures View() == Step(old(View()), Event.WindowReplied(closed, known, inTime))
    {
      log := Settled(log, if known then WindowIs(closed) else Lost);
      if !known {
        fenced, busy, call := true, false, NoCall;
      } else if closed {
        busy := Request(Result(current.value.id, call.status), AwaitResult(call.status), inTime);
      } else {
        call, busy := Sleeping(call.status), true;
      }
    }

    method Wakes(inTime: bool, windowOpen: bool)
      requires call.Sleeping? && current.Some?
      modifies this
      ensures View() == Step(old(View()), Event.Wakes(inTime, windowOpen))
    {
      busy := Request(Window(current.value.id), AwaitWindow(call.status), inTime && windowOpen);
    }
  }
}
