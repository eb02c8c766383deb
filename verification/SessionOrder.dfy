/**
 * Which request may follow which, told by the log alone; that every request of every run is one that
 * may follow; and that a call is answered with a request exactly when one may.
 */
module SessionOrder {
  import opened Basics
  import Supervision
  import opened Session
  import opened SessionInv
  import opened SessionLog

  /* ------------------------------------------------------------------ reading the log */

  /** The action whose intent was retained last and whose result is not acknowledged. */
  function OpenAction(log: seq<Exchange>): Option<Current> {
    if log == [] then None else
      var x, before := log[|log| - 1], log[..|log| - 1];
      if x.body.Intent?
      then (if x.reply.RetainedAs? then Some(Current(x.reply.id, x.body.sequence, x.body.stop)) else None)
      else if x.body.Result? && x.reply.Acknowledged? then None
      else OpenAction(before)
  }

  /** The STOP whose SUCCEEDED result was acknowledged. */
  function StopOf(log: seq<Exchange>): Option<string> {
    if log == [] then None else
      var x, before := log[|log| - 1], log[..|log| - 1];
      if x.body.Result? && x.body.status.Succeeded? && x.reply.Acknowledged?
         && OpenAction(before).Some? && OpenAction(before).value.stop
      then Some(OpenAction(before).value.id) else StopOf(before)
  }

  /** A request like `b` was sent since the latest intent. */
  predicate Sent(log: seq<Exchange>, b: Body) {
    log != [] && !log[|log| - 1].body.Intent?
    && (SameKind(log[|log| - 1].body, b) || Sent(log[..|log| - 1], b))
  }

  /** A form permit was granted since the latest intent. */
  predicate Permitted(log: seq<Exchange>) {
    log != [] && !log[|log| - 1].body.Intent?
    && ((log[|log| - 1].body.FormPermit? && log[|log| - 1].reply.Acknowledged?) || Permitted(log[..|log| - 1]))
  }

  /** The last answer says that this action's form window is closed. */
  predicate WindowClosed(log: seq<Exchange>, id: string) {
    log != [] && log[|log| - 1] == Exchange(Window(id), WindowIs(true))
  }

  /** Nothing was lost, nothing was reported AMBIGUOUS, and closing was not asked for. */
  predicate Clean(log: seq<Exchange>) {
    forall x <- log :: !x.reply.Lost? && !AmbiguousResult(x.body) && !x.body.Finish?
  }

  predicate Opens(log: seq<Exchange>, id: string) {
    OpenAction(log).Some? && OpenAction(log).value.id == id
  }

  /** The request may be sent after `log`. */
  predicate MayFollow(log: seq<Exchange>, b: Body) {
    && (forall x <- log :: !x.reply.Waiting?)
    && match b
       case Authority(_) => Clean(log) && Unresolved(log) == 0
       case Intent(sequence, _) => Clean(log) && Unresolved(log) == 0 && StopOf(log).None? && sequence >= 1
       case Commit(id) => Clean(log) && Opens(log, id) && !Sent(log, b)
       case Preflighted(id) => Clean(log) && Opens(log, id) && Sent(log, Commit(id)) && !Sent(log, b)
       case FormPermit(id) =>
         Clean(log) && Opens(log, id) && Sent(log, Commit(id)) && Sent(log, Preflighted(id)) && !Sent(log, b)
       case Observed(id, n) =>
         Clean(log) && Opens(log, id) && Sent(log, Commit(id)) && !Sent(log, b) && n == Observations(log) + 1
       case Window(id) =>
         Clean(log) && Opens(log, id) && Sent(log, Commit(id)) && Permitted(log) && !WindowClosed(log, id)
       case Result(id, status) =>
         && Opens(log, id)
         && (status.Ambiguous?
             || (Clean(log) && Sent(log, Commit(id)) && (Permitted(log) ==> WindowClosed(log, id))))
       case Finish(id, n) =>
         Clean(log) && Unresolved(log) == 0 && StopOf(log) == Some(id) && n == Observations(log)
  }

  /** Every request may follow what was sent before it. */
  predicate AllFollow(log: seq<Exchange>) {
    forall k :: 0 <= k < |log| ==> FollowsAt(log, k)
  }

  predicate FollowsAt(log: seq<Exchange>, k: nat)
    requires k < |log|
  {
    MayFollow(log[..k], log[k].body)
  }

  /* ------------------------------------------------------------------ the fields say the same */

  /** What a step does to the log leaves what was read of it. */
  lemma {:induction false} ReadSettled(log: seq<Exchange>, reply: Reply, b: Body)
    requires log != []
    ensures Sent(Settled(log, reply), b) == Sent(log, b)
    ensures !log[|log| - 1].body.Intent? && !log[|log| - 1].body.Result? ==>
              OpenAction(Settled(log, reply)) == OpenAction(log[..|log| - 1])
    ensures !log[|log| - 1].body.Result? ==> StopOf(Settled(log, reply)) == StopOf(log[..|log| - 1])
  {
    assert Settled(log, reply)[..|log| - 1] == log[..|log| - 1];
  }

  lemma {:induction false} ReadAppended(log: seq<Exchange>, x: Exchange, b: Body)
    requires x.reply.Waiting?
    ensures Sent(log + [x], b) == (!x.body.Intent? && (SameKind(x.body, b) || Sent(log, b)))
    ensures Permitted(log + [x]) == (!x.body.Intent? && Permitted(log))
    ensures OpenAction(log + [x]) == if x.body.Intent? then None else OpenAction(log)
    ensures StopOf(log + [x]) == StopOf(log)
  {
    assert (log + [x])[..|log|] == log;
  }

  /** Of an open action, a reservation is held for what was sent since its intent, and unfenced only for that. */
  predicate Holds(s: Session, b: Body) {
    if s.current.Some? then (Sent(s.log, b) ==> Reserved(s, b)) && (!s.fenced && Reserved(s, b) ==> Sent(s.log, b))
    else !Reserved(s, b)
  }

  predicate PermitInv(s: Session) {
    s.permitted <==> s.current.Some? && Permitted(s.log)
  }

  predicate FlagInv(s: Session) {
    Holds(s, Commit("")) && Holds(s, Preflighted("")) && Holds(s, FormPermit("")) && Holds(s, Observed("", 0))
  }

  predicate WindowInv(s: Session) {
    && (s.call.AwaitWindow? || s.call.Sleeping? ==> s.permitted && s.committed)
    && (s.call.AwaitWindow? && s.current.Some? && s.log != [] ==> s.log[|s.log| - 1].body == Window(s.current.value.id))
    && (s.call.Sleeping? && s.current.Some? ==>
          s.log != [] && s.log[|s.log| - 1] == Exchange(Window(s.current.value.id), WindowIs(false)))
    && (!s.fenced && s.log != [] && s.log[|s.log| - 1].reply.WindowIs? ==> s.call.Sleeping?)
  }

  predicate CleanInv(s: Session) {
    && (!s.fenced && !(s.call.AwaitResult? && s.call.status.Ambiguous?) && !s.finishStarted ==>
          forall x <- s.log :: !AmbiguousResult(x.body) && !x.body.Finish?)
  }

  predicate OrderInv(s: Session) {
    && s.current == OpenAction(s.log) && s.stopActionId == StopOf(s.log)
    && FlagInv(s) && PermitInv(s) && WindowInv(s) && CleanInv(s)
  }

  /* ------------------------------------------------------------------ every step keeps it */

  /** After the settled reply, before anything is sent. */
  lemma {:induction false} SettledOpens(s: Session, e: Event)
    requires CallInv(s) && CallMatches(s) && OneWaiting(s.log, AwaitsReply(s.call)) && s.current == OpenAction(s.log)
    ensures OpenAction(SettledNext(s, e)) == CurrentNext(s, e)
    ensures SendsNow(s, e) && SentBody(s, e).Intent? ==> CurrentNext(s, e).None?
  {
    if Settles(s, e) {
      ReadSettled(s.log, ReplyOf(s, e), Commit(""));
    }
  }

  lemma {:induction false} NextOpens(s: Session, e: Event)
    requires CallInv(s) && CallMatches(s) && OneWaiting(s.log, AwaitsReply(s.call)) && s.current == OpenAction(s.log)
    ensures OpenAction(LogNext(s, e)) == CurrentNext(s, e)
  {
    SettledOpens(s, e);
    if SendsNow(s, e) {
      ReadAppended(SettledNext(s, e), Exchange(SentBody(s, e), Waiting), Commit(""));
    }
  }

  function StopNext(s: Session, e: Event): Option<string> {
    if Completes(s, e) && s.call.status.Succeeded? && s.current.Some? && s.current.value.stop
    then Some(s.current.value.id) else s.stopActionId
  }

  lemma {:induction false} SettledStops(s: Session, e: Event)
    requires CallInv(s) && CallMatches(s) && OneWaiting(s.log, AwaitsReply(s.call))
    requires s.current == OpenAction(s.log) && s.stopActionId == StopOf(s.log)
    ensures StopOf(SettledNext(s, e)) == StopNext(s, e)
  {
    if Settles(s, e) {
      var before := s.log[..|s.log| - 1];
      ReadSettled(s.log, ReplyOf(s, e), Commit(""));
      assert s.log[|s.log| - 1].reply.Waiting?;
      assert StopOf(s.log) == StopOf(before);
      if s.log[|s.log| - 1].body.Result? {
        assert OpenAction(s.log) == OpenAction(before);
      }
    }
  }

  lemma {:induction false} NextStops(s: Session, e: Event)
    requires CallInv(s) && CallMatches(s) && OneWaiting(s.log, AwaitsReply(s.call))
    requires s.current == OpenAction(s.log) && s.stopActionId == StopOf(s.log)
    ensures StopOf(LogNext(s, e)) == StopNext(s, e)
  {
    SettledStops(s, e);
    if SendsNow(s, e) {
      ReadAppended(SettledNext(s, e), Exchange(SentBody(s, e), Waiting), Commit(""));
    }
  }

  /** The call that sends a request like `b`. */
  predicate CallsFor(e: Event, b: Body) {
    || (e.CommitDispatch? && b.Commit?) || (e.RetainPreflight? && b.Preflighted?)
    || (e.AuthorizeForm? && b.FormPermit?) || (e.RetainObservation? && b.Observed?)
  }

  lemma {:induction false} ReservedNext(s: Session, e: Event, b: Body)
    requires SameKind(b, b)
    ensures Reserved(Step(s, e), b) == ((Reserved(s, b) || (Guard(s, e) && CallsFor(e, b))) && !Completes(s, e))
  {
  }

  lemma {:induction false} SendsFor(s: Session, e: Event, b: Body)
    requires SameKind(b, b)
    ensures SendsNow(s, e) ==> (SameKind(SentBody(s, e), b) <==> CallsFor(e, b))
    ensures Guard(s, e) && CallsFor(e, b) ==> s.current.Some? && (SendsNow(s, e) || Fences(s, e))
    ensures SendsNow(s, e) && CallsFor(e, b) ==> Guard(s, e)
  {
  }

  lemma {:induction false} SentNext(s: Session, e: Event, b: Body)
    ensures Sent(LogNext(s, e), b)
            == if SendsNow(s, e) then !SentBody(s, e).Intent? && (SameKind(SentBody(s, e), b) || Sent(s.log, b))
               else Sent(s.log, b)
  {
    if Settles(s, e) {
      ReadSettled(s.log, ReplyOf(s, e), b);
    }
    if SendsNow(s, e) {
      ReadAppended(SettledNext(s, e), Exchange(SentBody(s, e), Waiting), b);
    }
  }

  /** Where the current action and the fence come from. */
  lemma {:induction false} StepFields(s: Session, e: Event)
    ensures var t := Step(s, e);
            && t.log == LogNext(s, e) && t.current == CurrentNext(s, e) && t.stopActionId == StopNext(s, e)
            && t.fenced == (s.fenced || Fences(s, e))
  {
  }

  lemma {:induction false} HoldsKept(s: Session, e: Event, b: Body)
    requires CallInv(s) && CallMatches(s) && SameKind(b, b) && Holds(s, b)
    ensures Holds(Step(s, e), b)
  {
    StepFields(s, e);
    ReservedNext(s, e, b);
    SendsFor(s, e, b);
    SentNext(s, e, b);
    IntentNext(s, e);
    if s.current.None? && CurrentNext(s, e).Some? {
      assert s.log[|s.log| - 1].body.Intent?;
    }
  }

  lemma {:induction false} PermittedNext(s: Session, e: Event)
    requires OneWaiting(s.log, AwaitsReply(s.call))
    ensures Permitted(LogNext(s, e))
            == (!(SendsNow(s, e) && SentBody(s, e).Intent?)
                && (Permitted(s.log)
                    || (Settles(s, e) && s.log[|s.log| - 1].body.FormPermit? && ReplyOf(s, e).Acknowledged?)))
  {
    if Settles(s, e) {
      assert Settled(s.log, ReplyOf(s, e))[..|s.log| - 1] == s.log[..|s.log| - 1];
    }
    if SendsNow(s, e) {
      ReadAppended(SettledNext(s, e), Exchange(SentBody(s, e), Waiting), Commit(""));
    }
  }

  lemma {:induction false} PermitKept(s: Session, e: Event)
    requires CallInv(s) && CallMatches(s) && OneWaiting(s.log, AwaitsReply(s.call)) && PermitInv(s)
    ensures PermitInv(Step(s, e))
  {
    StepFields(s, e);
    PermittedNext(s, e);
    IntentNext(s, e);
    if Settles(s, e) {
      assert s.call.AwaitPermit? <==> s.log[|s.log| - 1].body.FormPermit?;
    }
    if s.current.None? && CurrentNext(s, e).Some? {
      assert s.log[|s.log| - 1].body.Intent?;
    }
  }

  lemma {:induction false} WindowKept(s: Session, e: Event)
    requires CallInv(s) && CallMatches(s) && OneWaiting(s.log, AwaitsReply(s.call)) && WindowInv(s)
    ensures WindowInv(Step(s, e))
  {
    StepLog(s, e);
  }

  lemma {:induction false} CleanKept(s: Session, e: Event)
    requires CallInv(s) && CallMatches(s) && OneWaiting(s.log, AwaitsReply(s.call)) && CleanInv(s)
    ensures CleanInv(Step(s, e))
  {
    StepLog(s, e);
  }

  /* ------------------------------------------------------------------ every request may follow */

  lemma {:induction false} SentAny(log: seq<Exchange>, b: Body, b': Body)
    requires SameKind(b, b')
    ensures Sent(log, b) == Sent(log, b')
    decreases |log|
  {
    if log != [] {
      SentAny(log[..|log| - 1], b, b');
    }
  }

  /** Unfenced and with nothing suspended, the log is clean and every reply is in. */
  lemma {:induction false} CleanWhenIdle(s: Session)
    requires LogInv(s) && OrderInv(s) && !s.fenced && !LostIntent(s) && (s.call.NoCall? || s.call.Sleeping?)
    ensures Clean(s.log) && forall x <- s.log :: !x.reply.Waiting?
  {
  }

  lemma {:induction false} AnsweredWhenIdle(s: Session)
    requires LogInv(s) && (s.call.NoCall? || s.call.Sleeping?)
    ensures forall x <- s.log :: !x.reply.Waiting?
  {
  }

  predicate IsCall(e: Event) {
    !e.Replied? && !e.WindowReplied? && !e.Wakes? && !e.ReplyLost?
  }

  /** A call's guard, in the log's terms. */
  lemma {:induction false} GuardReads(s: Session, e: Event)
    requires LogInv(s) && OrderInv(s) && IsCall(e) && Guard(s, e)
    ensures s.call.NoCall? && !LostIntent(s) && SettledNext(s, e) == s.log
    ensures !s.fenced || (e.CompleteAction? && e.status.Ambiguous?)
  {
  }

  lemma {:induction false} CallFollows(s: Session, e: Event)
    requires LogInv(s) && OrderInv(s) && IsCall(e) && Guard(s, e)
    ensures MayFollow(s.log, BodyOf(s, e))
  {
    GuardReads(s, e);
    AnsweredWhenIdle(s);
    if !s.fenced {
      CleanWhenIdle(s);
    }
    match e
    case RetainPreflight(id, _, _, _) =>
      SentAny(s.log, Preflighted(""), Preflighted(id));
      SentAny(s.log, Commit(""), Commit(id));
    case CommitDispatch(id, _) => SentAny(s.log, Commit(""), Commit(id));
    case AuthorizeForm(id, _, _, _) =>
      SentAny(s.log, FormPermit(""), FormPermit(id));
      SentAny(s.log, Preflighted(""), Preflighted(id));
      SentAny(s.log, Commit(""), Commit(id));
    case RetainObservation(id, _, _, _) =>
      SentAny(s.log, Observed("", 0), BodyOf(s, e));
      SentAny(s.log, Commit(""), Commit(id));
    case CompleteAction(id, _, _) => SentAny(s.log, Commit(""), Commit(id));
    case _ =>
  }

  lemma {:induction false} WakeFollows(s: Session, e: Event)
    requires LogInv(s) && OrderInv(s) && e.Wakes? && SendsNow(s, e)
    ensures MayFollow(SettledNext(s, e), SentBody(s, e))
  {
    SentAny(s.log, Commit(""), Commit(s.current.value.id));
    CleanWhenIdle(s);
  }

  /** What the log says once the window is known to be closed. */
  lemma {:induction false} ClosedReads(s: Session, e: Event)
    requires LogInv(s) && OrderInv(s) && e.WindowReplied? && SendsNow(s, e)
    ensures var m := SettledNext(s, e);
            Opens(m, s.current.value.id) && Sent(m, Commit("")) && WindowClosed(m, s.current.value.id)
  {
    ReadSettled(s.log, WindowIs(true), Commit(""));
    SettledOpens(s, e);
  }

  lemma {:induction false} ClosedFollows(s: Session, e: Event)
    requires LogInv(s) && OrderInv(s) && e.WindowReplied? && SendsNow(s, e)
    ensures MayFollow(SettledNext(s, e), SentBody(s, e))
  {
    ClosedReads(s, e);
    SentAny(SettledNext(s, e), Commit(""), Commit(s.current.value.id));
    SettledClean(s, e);
  }

  lemma {:induction false} SettledClean(s: Session, e: Event)
    requires LogInv(s) && OrderInv(s) && e.WindowReplied? && SendsNow(s, e)
    ensures Clean(SettledNext(s, e)) && forall x <- SettledNext(s, e) :: !x.reply.Waiting?
  {
    var m := SettledNext(s, e);
    forall x | x in m
      ensures !x.reply.Lost? && !AmbiguousResult(x.body) && !x.body.Finish? && !x.reply.Waiting?
    {
      var k :| 0 <= k < |m| && m[k] == x;
      assert s.log[k] in s.log;
    }
  }

  lemma {:induction false} SentFollows(s: Session, e: Event)
    requires LogInv(s) && OrderInv(s) && SendsNow(s, e)
    ensures MayFollow(SettledNext(s, e), SentBody(s, e))
  {
    if IsCall(e) {
      GuardReads(s, e);
      CallFollows(s, e);
    } else if e.Wakes? {
      WakeFollows(s, e);
    } else {
      ClosedFollows(s, e);
    }
  }

  lemma {:induction false} FollowGrows(log: seq<Exchange>, log': seq<Exchange>, settles: bool, sends: bool)
    requires AllFollow(log) && LogStep(log, log', settles, sends)
    requires sends ==> MayFollow(log'[..|log|], log'[|log|].body)
    ensures AllFollow(log')
  {
    forall k | 0 <= k < |log'|
      ensures FollowsAt(log', k)
    {
      if k < |log| {
        assert FollowsAt(log, k) && log'[..k] == log[..k];
      }
    }
  }

  lemma {:induction false} FollowKept(s: Session, e: Event)
    requires LogInv(s) && OrderInv(s) && AllFollow(s.log)
    ensures AllFollow(Step(s, e).log)
  {
    StepFields(s, e);
    StepLog(s, e);
    if SendsNow(s, e) {
      SentFollows(s, e);
      assert Step(s, e).log[..|s.log|] == SettledNext(s, e);
    }
    FollowGrows(s.log, Step(s, e).log, Settles(s, e), SendsNow(s, e));
  }

  lemma {:induction false} OrderKept(s: Session, e: Event)
    requires LogInv(s) && OrderInv(s)
    ensures OrderInv(Step(s, e))
  {
    StepFields(s, e);
    NextOpens(s, e);
    NextStops(s, e);
    HoldsKept(s, e, Commit(""));
    HoldsKept(s, e, Preflighted(""));
    HoldsKept(s, e, FormPermit(""));
    HoldsKept(s, e, Observed("", 0));
    PermitKept(s, e);
    WindowKept(s, e);
    CleanKept(s, e);
  }

  lemma {:induction false} RunOrdered(s: Session, es: seq<Event>)
    requires LogInv(s) && OrderInv(s) && AllFollow(s.log)
    ensures LogInv(Run(s, es)) && OrderInv(Run(s, es)) && AllFollow(Run(s, es).log)
    decreases |es|
  {
    if es != [] {
      StepKeepsSession(s, es[0]);
      OrderKept(s, es[0]);
      FollowKept(s, es[0]);
      RunOrdered(Step(s, es[0]), es[1..]);
    }
  }

  /** In every run, every request is one that may follow what was sent and answered before it. */
  lemma {:induction false} RequestsFollow(es: seq<Event>, k: nat)
    requires k < |Run(Opened, es).log|
    ensures MayFollow(Run(Opened, es).log[..k], Run(Opened, es).log[k].body)
  {
    RunOrdered(Opened, es);
    assert FollowsAt(Run(Opened, es).log, k);
  }

  lemma {:induction false} PermittedAt(log: seq<Exchange>, i: nat)
    requires i < |log| && log[i] == Exchange(log[i].body, Acknowledged) && log[i].body.FormPermit?
    requires !IntentBetween(log, i, |log|)
    ensures Permitted(log)
    decreases |log|
  {
    if i < |log| - 1 {
      var before := log[..|log| - 1];
      BetweenSame(before, log, i, |before|);
      PermittedAt(before, i);
    }
  }

  predicate DistinctIdentities(log: seq<Exchange>) {
    forall a, b :: 0 <= a < b < |log| && log[a].reply.RetainedAs? ==> log[a].reply != log[b].reply
  }

  /**
   * When identities are not reused: an action whose form permit was acknowledged is reported SUCCEEDED
   * or FAILED only directly after the answer that its form window is closed.
   */
  lemma {:induction false} WindowBeforeResult(es: seq<Event>, i: nat, k: nat, id: string, status: Supervision.Status)
    requires i < k < |Run(Opened, es).log| && DistinctIdentities(Run(Opened, es).log)
    requires Run(Opened, es).log[i] == Exchange(FormPermit(id), Acknowledged)
    requires Run(Opened, es).log[k].body == Result(id, status) && !status.Ambiguous?
    ensures Run(Opened, es).log[k - 1] == Exchange(Window(id), WindowIs(true))
  {
    RunOrdered(Opened, es);
    WindowBefore(Run(Opened, es).log, i, k, id, status);
  }

  lemma {:induction false} WindowBefore(log: seq<Exchange>, i: nat, k: nat, id: string, status: Supervision.Status)
    requires AllFollow(log) && OwnIntent(log) && DistinctIdentities(log) && i < k < |log|
    requires log[i] == Exchange(FormPermit(id), Acknowledged)
    requires log[k].body == Result(id, status) && !status.Ambiguous?
    ensures log[k - 1] == Exchange(Window(id), WindowIs(true))
  {
    PermittedBefore(log, i, k, id);
    assert FollowsAt(log, k);
    ClosedBefore(log[..k], id, status);
  }

  lemma {:induction false} PermittedBefore(log: seq<Exchange>, i: nat, k: nat, id: string)
    requires OwnIntent(log) && DistinctIdentities(log) && i < k < |log|
    requires log[i] == Exchange(FormPermit(id), Acknowledged) && NamedId(log[k].body) == Some(id)
    ensures Permitted(log[..k])
  {
    SameIntent(log, i, k, id);
    BetweenSame(log[..k], log, i, k);
    PermittedAt(log[..k], i);
  }

  lemma {:induction false} ClosedBefore(before: seq<Exchange>, id: string, status: Supervision.Status)
    requires Permitted(before) && MayFollow(before, Result(id, status)) && !status.Ambiguous?
    ensures before != [] && before[|before| - 1] == Exchange(Window(id), WindowIs(true))
  {
  }

  lemma {:induction false} SameIntent(log: seq<Exchange>, i: nat, k: nat, id: string)
    requires OwnIntent(log) && i < k < |log| && NamedId(log[i].body) == Some(id) && NamedId(log[k].body) == Some(id)
    requires DistinctIdentities(log)
    ensures !IntentBetween(log, i, k)
  {
    var a :| 0 <= a < i && log[a].body.Intent? && log[a].reply == RetainedAs(id) && !IntentBetween(log, a, i);
    var b :| 0 <= b < k && log[b].body.Intent? && log[b].reply == RetainedAs(id) && !IntentBetween(log, b, k);
    assert a == b;
  }

  /* ------------------------------------------------------------------ when a call is answered with a request */

  /** The call is not refused for what was passed to it. */
  predicate Allowed(e: Event) {
    match e
    case CheckAuthority(_, aborted, _, _) => !aborted
    case RetainIntent(_, _, sound, inTime) => sound && inTime
    case AuthorizeForm(_, _, effect, _) => effect
    case _ => true
  }

  /** What was passed is in order, and time is left. */
  predicate InOrder(e: Event) {
    match e
    case CheckAuthority(_, _, sound, inTime) => sound && inTime
    case CommitDispatch(_, inTime) => inTime
    case RetainPreflight(_, _, sound, inTime) => sound && inTime
    case AuthorizeForm(_, _, _, inTime) => inTime
    case RetainObservation(_, _, sound, inTime) => sound && inTime
    case CompleteAction(_, _, inTime) => inTime
    case RequestFinish(inTime) => inTime
    case _ => true
  }

  /** The request that a call begins with. */
  function FirstBody(log: seq<Exchange>, e: Event): Body {
    match e
    case CheckAuthority(consent, _, _, _) => Authority(consent)
    case RetainIntent(sequence, stop, _, _) => Intent(sequence, stop)
    case CommitDispatch(id, _) => Commit(id)
    case RetainPreflight(id, _, _, _) => Preflighted(id)
    case AuthorizeForm(id, _, _, _) => FormPermit(id)
    case RetainObservation(id, _, _, _) => Observed(id, Observations(log) + 1)
    case CompleteAction(id, status, _) =>
      if !status.Ambiguous? && Permitted(log) then Window(id) else Result(id, status)
    case _ => Finish(if StopOf(log).Some? then StopOf(log).value else "", Observations(log))
  }

  /** A command that is passed in has the number of the open action. */
  predicate Numbered(log: seq<Exchange>, e: Event) {
    && (e.RetainPreflight? ==> OpenAction(log).Some? && OpenAction(log).value.sequence == e.sequence)
    && (e.AuthorizeForm? ==> OpenAction(log).Some? && OpenAction(log).value.sequence == e.sequence)
    && (e.RetainObservation? ==> OpenAction(log).Some? && OpenAction(log).value.sequence == e.sequence)
  }

  predicate ReportsAmbiguous(e: Event) {
    e.CompleteAction? && e.status.Ambiguous?
  }

  /** The session is idle, unfenced unless the call reports AMBIGUOUS, and the call's request may follow the log. */
  predicate Accepts(s: Session, e: Event) {
    && s.call.NoCall? && (!s.fenced || ReportsAmbiguous(e))
    && Numbered(s.log, e) && MayFollow(s.log, FirstBody(s.log, e))
  }

  lemma {:induction false} BodyIsFirst(s: Session, e: Event)
    requires LogInv(s) && OrderInv(s) && IsCall(e) && Guard(s, e)
    ensures BodyOf(s, e) == FirstBody(s.log, e)
  {
    GuardReads(s, e);
  }

  lemma {:induction false} GuardAccepts(s: Session, e: Event)
    requires LogInv(s) && OrderInv(s) && IsCall(e) && Guard(s, e)
    ensures Accepts(s, e) && Allowed(e)
  {
    GuardReads(s, e);
    BodyIsFirst(s, e);
    CallFollows(s, e);
  }

  lemma {:induction false} AcceptsGuard(s: Session, e: Event)
    requires LogInv(s) && OrderInv(s) && IsCall(e) && Allowed(e) && Accepts(s, e)
    ensures Guard(s, e)
  {
    match e
    case CommitDispatch(id, _) => SentAny(s.log, Commit(""), Commit(id));
    case CompleteAction(id, _, _) => SentAny(s.log, Commit(""), Commit(id));
    case RetainPreflight(_, _, _, _) => AcceptsReserved(s, e);
    case AuthorizeForm(_, _, _, _) => AcceptsReserved(s, e);
    case RetainObservation(_, _, _, _) => AcceptsReserved(s, e);
    case _ =>
  }

  /** The calls that take a reservation of the committed action. */
  lemma {:induction false} AcceptsReserved(s: Session, e: Event)
    requires LogInv(s) && OrderInv(s) && Allowed(e) && Accepts(s, e)
    requires e.RetainPreflight? || e.AuthorizeForm? || e.RetainObservation?
    ensures Guard(s, e)
  {
    SentAny(s.log, Commit(""), Commit(e.id));
    match e
    case RetainPreflight(id, _, _, _) => SentAny(s.log, Preflighted(""), Preflighted(id));
    case AuthorizeForm(id, _, _, _) =>
      SentAny(s.log, FormPermit(""), FormPermit(id));
      SentAny(s.log, Preflighted(""), Preflighted(id));
    case RetainObservation(_, _, _, _) => SentAny(s.log, Observed("", 0), FirstBody(s.log, e));
    case _ =>
  }

  /** The guards are these two conditions, and the request is sent when what was passed is in order. */
  lemma {:induction false} GuardIff(s: Session, e: Event)
    requires LogInv(s) && OrderInv(s) && IsCall(e)
    ensures Guard(s, e) <==> Allowed(e) && Accepts(s, e)
  {
    if Guard(s, e) {
      GuardAccepts(s, e);
    } else if Allowed(e) && Accepts(s, e) {
      AcceptsGuard(s, e);
    }
  }

  /** After every run, a call sends its request exactly when it may follow the log, and otherwise sends nothing. */
  lemma {:induction false} CallAnswered(es: seq<Event>, e: Event)
    requires IsCall(e)
    ensures var s := Run(Opened, es);
            Step(s, e).log == if Allowed(e) && InOrder(e) && Accepts(s, e)
                              then s.log + [Exchange(FirstBody(s.log, e), Waiting)] else s.log
  {
    RunOrdered(Opened, es);
    AnsweredFrom(Run(Opened, es), e);
  }

  lemma {:induction false} AnsweredFrom(s: Session, e: Event)
    requires LogInv(s) && OrderInv(s) && IsCall(e)
    ensures Step(s, e).log == if Allowed(e) && InOrder(e) && Accepts(s, e)
                              then s.log + [Exchange(FirstBody(s.log, e), Waiting)] else s.log
  {
    GuardIff(s, e);
    StepFields(s, e);
    if Guard(s, e) {
      GuardReads(s, e);
      BodyIsFirst(s, e);
    }
  }

  /* ------------------------------------------------------------------ what fences, and what is recorded */

  predicate AwaitsAnswer(log: seq<Exchange>) {
    log != [] && log[|log| - 1].reply.Waiting?
  }

  /** The event fences a session with this log. */
  predicate Faults(s: Session, e: Event) {
    var log := s.log;
    match e
    case Replied(_) => AwaitsAnswer(log) && (log[|log| - 1].body.Finish? || AmbiguousResult(log[|log| - 1].body))
    case ReplyLost => AwaitsAnswer(log) && !log[|log| - 1].body.Intent?
    case WindowReplied(closed, known, inTime) =>
      AwaitsAnswer(log) && log[|log| - 1].body.Window? && (!known || (closed && !inTime))
    case Wakes(inTime, windowOpen) =>
      !s.fenced && log != [] && log[|log| - 1].reply == WindowIs(false) && !(inTime && windowOpen)
    case _ => Allowed(e) && Accepts(s, e) && !InOrder(e)
  }

  lemma {:induction false} SendsInOrder(s: Session, e: Event)
    requires IsCall(e) && Guard(s, e)
    ensures Sends(e) <==> InOrder(e)
  {
  }

  lemma {:induction false} ReplyFaults(s: Session, e: Event)
    requires LogInv(s) && OrderInv(s) && !IsCall(e)
    ensures Fences(s, e) || s.fenced <==> s.fenced || Faults(s, e)
  {
  }

  lemma {:induction false} CallFaults(s: Session, e: Event)
    requires LogInv(s) && OrderInv(s) && IsCall(e)
    ensures Fences(s, e) <==> Faults(s, e)
  {
    GuardIff(s, e);
    if Guard(s, e) {
      SendsInOrder(s, e);
    }
  }

  /** After every run: a session is fenced, for good, by exactly these events. */
  lemma {:induction false} FencedIff(es: seq<Event>, e: Event)
    ensures var s := Run(Opened, es); Step(s, e).fenced <==> s.fenced || Faults(s, e)
  {
    RunOrdered(Opened, es);
    var s := Run(Opened, es);
    StepFields(s, e);
    if IsCall(e) { CallFaults(s, e); } else { ReplyFaults(s, e); }
  }

  /** The answer that an event brings to the last request, if it brings one. */
  function AnswerTo(b: Body, e: Event): Option<Reply> {
    match e
    case Replied(id) => if b.Window? then None else Some(if b.Intent? then RetainedAs(id) else Acknowledged)
    case WindowReplied(closed, known, _) =>
      if b.Window? then Some(if known then WindowIs(closed) else Lost) else None
    case ReplyLost => Some(Lost)
    case _ => None
  }

  /** The log with the answer that the event brings to its last request. */
  function WithAnswer(log: seq<Exchange>, e: Event): seq<Exchange> {
    if AwaitsAnswer(log) && AnswerTo(log[|log| - 1].body, e).Some?
    then log[..|log| - 1] + [Exchange(log[|log| - 1].body, AnswerTo(log[|log| - 1].body, e).value)]
    else log
  }

  /** The log keeps every answer as it came: it is the last request's, and nothing else in the log ever changes. */
  lemma {:induction false} AnswersRecorded(es: seq<Event>, e: Event)
    ensures var log, log' := Run(Opened, es).log, Step(Run(Opened, es), e).log;
            |log| <= |log'| <= |log| + 1 && log'[..|log|] == WithAnswer(log, e)
  {
    RunOrdered(Opened, es);
    AnswersKept(Run(Opened, es), e);
  }

  lemma {:induction false} AnswersKept(s: Session, e: Event)
    requires LogInv(s) && OrderInv(s)
    ensures |s.log| <= |Step(s, e).log| <= |s.log| + 1 && Step(s, e).log[..|s.log|] == WithAnswer(s.log, e)
  {
    StepFields(s, e);
    AnswersSettle(s, e);
    StepLog(s, e);
  }

  lemma {:induction false} AnswersSettle(s: Session, e: Event)
    requires LogInv(s) && OrderInv(s)
    ensures SettledNext(s, e) == WithAnswer(s.log, e)
  {
    assert s.log != [] && AwaitsAnswer(s.log) ==> AwaitsReply(s.call);
  }

  /* ------------------------------------------------------------------ the status that is reported */

  /** The status of the last completion that the session took on. */
  function TakenOn(es: seq<Event>): Option<Supervision.Status>
    decreases |es|
  {
    if es == [] then None else
      var before, e := es[..|es| - 1], es[|es| - 1];
      if e.CompleteAction? && Accepts(Run(Opened, before), e) then Some(e.status) else TakenOn(before)
  }

  lemma {:induction false} RunLast(s: Session, es: seq<Event>)
    requires es != []
    ensures Run(s, es) == Step(Run(s, es[..|es| - 1]), es[|es| - 1])
    decreases |es|
  {
    if |es| > 1 {
      RunLast(Step(s, es[0]), es[1..]);
      assert es[1..][..|es| - 2] == es[..|es| - 1][1..];
    } else {
      assert es[1..] == [] && es[..0] == [];
    }
  }

  predicate Reporting(k: Call) {
    k.AwaitWindow? || k.Sleeping? || k.AwaitResult?
  }

  lemma {:induction false} ReportsTaken(es: seq<Event>)
    ensures Reporting(Run(Opened, es).call) ==> TakenOn(es) == Some(Run(Opened, es).call.status)
    decreases |es|
  {
    if es != [] {
      var before, e := es[..|es| - 1], es[|es| - 1];
      ReportsTaken(before);
      RunLast(Opened, es);
      RunOrdered(Opened, before);
      ReportingFrom(Run(Opened, before), e);
    }
  }

  lemma {:induction false} ReportingRow(s: Session, e: Event)
    requires Reporting(Step(s, e).call)
    ensures if e.CompleteAction? && Guard(s, e) then Step(s, e).call.status == e.status
            else Reporting(s.call) && Step(s, e).call.status == s.call.status
  {
  }

  lemma {:induction false} ReportingFrom(s: Session, e: Event)
    requires LogInv(s) && OrderInv(s)
    ensures Reporting(Step(s, e).call) ==>
              if e.CompleteAction? && Accepts(s, e) then Step(s, e).call.status == e.status
              else Reporting(s.call) && Step(s, e).call.status == s.call.status
  {
    if Reporting(Step(s, e).call) {
      ReportingRow(s, e);
      if e.CompleteAction? {
        GuardIff(s, e);
      }
    }
  }

  lemma {:induction false} ResultStatus(s: Session, e: Event)
    requires LogInv(s) && OrderInv(s) && SendsNow(s, e) && SentBody(s, e).Result?
    ensures if e.CompleteAction? then Accepts(s, e) && SentBody(s, e).status == e.status
            else Reporting(s.call) && SentBody(s, e).status == s.call.status
  {
    if IsCall(e) {
      GuardIff(s, e);
    }
  }

  /** A result that is sent carries the status that the caller reported, however long the window took to close. */
  lemma {:induction false} ResultAsReported(es: seq<Event>, e: Event)
    requires SendsNow(Run(Opened, es), e) && SentBody(Run(Opened, es), e).Result?
    ensures Some(SentBody(Run(Opened, es), e).status) == TakenOn(es + [e])
  {
    assert (es + [e])[..|es|] == es && (es + [e])[|es|] == e;
    ReportsTaken(es);
    RunOrdered(Opened, es);
    ResultStatus(Run(Opened, es), e);
    assert !e.CompleteAction? ==> TakenOn(es + [e]) == TakenOn(es);
  }
}
