/** The session's request log: one unresolved intent, each request once per intent, and what closes it. */
module SessionLog {
  import opened Basics
  import Supervision
  import opened Session
  import opened SessionInv

  /* ------------------------------------------------------------------ unresolved intents */

  function Weight(x: Exchange): int {
    if x.body.Intent? then 1 else if x.body.Result? && x.reply.Acknowledged? then -1 else 0
  }

  /** Intents sent, less results acknowledged. */
  function Unresolved(log: seq<Exchange>): int {
    if log == [] then 0 else Unresolved(log[..|log| - 1]) + Weight(log[|log| - 1])
  }

  lemma {:induction false} UnresolvedAppend(log: seq<Exchange>, x: Exchange)
    ensures Unresolved(log + [x]) == Unresolved(log) + Weight(x)
  {
    assert (log + [x])[..|log|] == log;
  }

  lemma {:induction false} UnresolvedSettled(log: seq<Exchange>, reply: Reply)
    requires log != []
    ensures Unresolved(Settled(log, reply))
         == Unresolved(log) - Weight(log[|log| - 1]) + Weight(Exchange(log[|log| - 1].body, reply))
  {
    UnresolvedAppend(log[..|log| - 1], Exchange(log[|log| - 1].body, reply));
  }

  predicate UnresolvedInv(s: Session) {
    Unresolved(s.log) == if s.intentPending then 1 else 0
  }

  lemma {:induction false} SettledUnresolved(s: Session, e: Event)
    requires UnresolvedInv(s) && CallInv(s) && CallMatches(s) && OneWaiting(s.log, AwaitsReply(s.call))
    ensures Unresolved(SettledNext(s, e)) == if s.intentPending && !Completes(s, e) then 1 else 0
  {
    if Settles(s, e) {
      UnresolvedSettled(s.log, ReplyOf(s, e));
    }
  }

  lemma {:induction false} StepKeepsUnresolved(s: Session, e: Event)
    requires UnresolvedInv(s) && CallInv(s) && CallMatches(s) && OneWaiting(s.log, AwaitsReply(s.call))
    ensures UnresolvedInv(Step(s, e))
  {
    UnresolvedNext(s, e);
    IntentNext(s, e);
    assert Step(s, e).log == LogNext(s, e);
  }

  lemma {:induction false} UnresolvedNext(s: Session, e: Event)
    requires UnresolvedInv(s) && CallInv(s) && CallMatches(s) && OneWaiting(s.log, AwaitsReply(s.call))
    ensures Unresolved(LogNext(s, e))
            == (if s.intentPending && !Completes(s, e) then 1 else 0)
                + (if SendsNow(s, e) && SentBody(s, e).Intent? then 1 else 0)
  {
    SettledUnresolved(s, e);
    if SendsNow(s, e) {
      UnresolvedAppend(SettledNext(s, e), Exchange(SentBody(s, e), Waiting));
    }
  }

  /** The reservation is made exactly when an intent is sent, and dropped exactly when a result is acknowledged. */
  lemma {:induction false} IntentNext(s: Session, e: Event)
    requires CallInv(s)
    ensures SendsNow(s, e) ==> (SentBody(s, e).Intent? <==> e.RetainIntent?)
    ensures e.RetainIntent? && Guard(s, e) ==> SendsNow(s, e) && !s.intentPending
    ensures Completes(s, e) ==> !SendsNow(s, e)
  {
  }

  /* ------------------------------------------------------------------ once per intent */

  /** Requests that are sent at most once for each retained intent. */
  predicate SameKind(a: Body, b: Body) {
    (a.Commit? && b.Commit?) || (a.Preflighted? && b.Preflighted?) || (a.FormPermit? && b.FormPermit?)
    || (a.Observed? && b.Observed?)
  }

  predicate IntentBetween(log: seq<Exchange>, j: int, k: int) {
    exists i :: j < i < k && 0 <= i < |log| && log[i].body.Intent?
  }

  predicate OncePerIntent(log: seq<Exchange>) {
    forall j, k :: 0 <= j < k < |log| && SameKind(log[j].body, log[k].body) ==> IntentBetween(log, j, k)
  }

  /** A request like `b` was sent since the last intent. */
  predicate SentSince(log: seq<Exchange>, b: Body) {
    exists j :: 0 <= j < |log| && SameKind(log[j].body, b) && !IntentBetween(log, j, |log|)
  }

  predicate Reserved(s: Session, b: Body) {
    && (b.Commit? ==> s.committed) && (b.Preflighted? ==> s.preflightPending)
    && (b.FormPermit? ==> s.permitPending) && (b.Observed? ==> s.observationPending)
  }

  ghost predicate OnceInv(s: Session) {
    && OncePerIntent(s.log)
    && (s.intentPending ==> forall b :: SentSince(s.log, b) ==> Reserved(s, b))
  }

  predicate SameBodies(log: seq<Exchange>, log': seq<Exchange>) {
    |log| <= |log'| && forall k :: 0 <= k < |log| ==> log'[k].body == log[k].body
  }

  lemma {:induction false} BetweenSame(log: seq<Exchange>, log': seq<Exchange>, j: int, k: int)
    requires SameBodies(log, log') && k <= |log|
    ensures IntentBetween(log, j, k) == IntentBetween(log', j, k)
  {
    if IntentBetween(log, j, k) {
      var i :| j < i < k && 0 <= i < |log| && log[i].body.Intent?;
      assert log'[i].body.Intent?;
    }
    if IntentBetween(log', j, k) {
      var i :| j < i < k && 0 <= i < |log'| && log'[i].body.Intent?;
      assert log[i].body.Intent?;
    }
  }

  lemma {:induction false} OnceSame(log: seq<Exchange>, log': seq<Exchange>)
    requires OncePerIntent(log) && SameBodies(log, log') && |log| == |log'|
    ensures OncePerIntent(log')
  {
    forall j, k | 0 <= j < k < |log'| && SameKind(log'[j].body, log'[k].body)
      ensures IntentBetween(log', j, k)
    {
      assert SameKind(log[j].body, log[k].body);
      BetweenSame(log, log', j, k);
    }
  }

  lemma {:induction false} SinceSame(log: seq<Exchange>, log': seq<Exchange>, b: Body)
    requires SameBodies(log, log') && |log| == |log'| && SentSince(log', b)
    ensures SentSince(log, b)
  {
    var j :| 0 <= j < |log'| && SameKind(log'[j].body, b) && !IntentBetween(log', j, |log'|);
    BetweenSame(log, log', j, |log|);
    assert SameKind(log[j].body, b);
  }

  lemma {:induction false} OnceGrows(log: seq<Exchange>, log': seq<Exchange>)
    requires OncePerIntent(log) && SameBodies(log, log') && |log'| == |log| + 1
    requires !SentSince(log, log'[|log|].body)
    ensures OncePerIntent(log')
  {
    forall j, k | 0 <= j < k < |log'| && SameKind(log'[j].body, log'[k].body)
      ensures IntentBetween(log', j, k)
    {
      assert SameKind(log[j].body, log'[k].body);
      BetweenSame(log, log', j, k);
      if k < |log| {
        assert SameKind(log[j].body, log[k].body);
      }
    }
  }

  /** What a request adds to what was sent since the last intent. */
  lemma {:induction false} SinceGrows(log: seq<Exchange>, log': seq<Exchange>, b: Body)
    requires SameBodies(log, log') && |log'| == |log| + 1 && SentSince(log', b)
    ensures !log'[|log|].body.Intent? && (SentSince(log, b) || SameKind(log'[|log|].body, b))
  {
    var n := |log|;
    var j :| 0 <= j < n + 1 && SameKind(log'[j].body, b) && !IntentBetween(log', j, n + 1);
    if j < n {
      BetweenSame(log, log', j, n);
      assert SameKind(log[j].body, b);
    }
  }

  /** The guards: nothing goes out whose reservation is already taken, and its reservation is then taken. */
  lemma {:induction false} SendReserves(s: Session, e: Event)
    requires CallInv(s) && SendsNow(s, e)
    ensures var t := Step(s, e); var b := t.log[|s.log|].body;
            && (!b.Intent? && s.intentPending ==> t.intentPending)
            && (t.intentPending ==> b.Intent? || (s.intentPending && Reserved(t, b)))
            && (SameKind(b, b) ==> s.intentPending && !Reserved(s, b))
  {
    StepLog(s, e);
  }

  /** While the intent stays pending no reservation is given back. */
  lemma {:induction false} ReservationsStay(s: Session, e: Event, b: Body)
    requires CallInv(s) && s.intentPending && Step(s, e).intentPending && Reserved(s, b)
    ensures Reserved(Step(s, e), b)
  {
  }

  lemma {:induction false} StepKeepsOnce(s: Session, e: Event)
    requires OnceInv(s) && CallInv(s)
    ensures OnceInv(Step(s, e))
  {
    var t := Step(s, e);
    StepLog(s, e);
    if SendsNow(s, e) {
      var b := t.log[|s.log|].body;
      SendReserves(s, e);
      OnceGrows(s.log, t.log);
    } else {
      OnceSame(s.log, t.log);
    }
    if t.intentPending {
      forall b | SentSince(t.log, b)
        ensures Reserved(t, b)
      {
        StepReserves(s, e, b);
      }
    }
  }

  lemma {:induction false} PendingFrom(s: Session, e: Event)
    requires Step(s, e).intentPending && !SendsNow(s, e)
    ensures s.intentPending
  {
  }

  lemma {:induction false} StepReserves(s: Session, e: Event, b: Body)
    requires OnceInv(s) && CallInv(s) && Step(s, e).intentPending && SentSince(Step(s, e).log, b)
    ensures Reserved(Step(s, e), b)
  {
    var t := Step(s, e);
    StepLog(s, e);
    if SendsNow(s, e) {
      SendReserves(s, e);
      SinceGrows(s.log, t.log, b);
      if SentSince(s.log, b) {
        ReservationsStay(s, e, b);
      }
    } else {
      PendingFrom(s, e);
      SinceSame(s.log, t.log, b);
      ReservationsStay(s, e, b);
    }
  }

  /* ------------------------------------------------------------------ whose action it is */

  function NamedId(b: Body): Option<string> {
    match b
    case Commit(id) => Some(id)
    case Preflighted(id) => Some(id)
    case FormPermit(id) => Some(id)
    case Observed(id, _) => Some(id)
    case Window(id) => Some(id)
    case Result(id, _) => Some(id)
    case _ => None
  }

  /** Among the first `n` requests the latest intent was retained as `id`. */
  predicate Latest(log: seq<Exchange>, n: int, id: string) {
    exists i ::
      0 <= i < n <= |log| && log[i].body.Intent? && log[i].reply == RetainedAs(id) && !IntentBetween(log, i, n)
  }

  /** Every request about an action names the latest retained intent. */
  predicate OwnIntent(log: seq<Exchange>) {
    forall k :: 0 <= k < |log| && NamedId(log[k].body).Some? ==> Latest(log, k, NamedId(log[k].body).value)
  }

  predicate OwnInv(s: Session) {
    OwnIntent(s.log) && (s.current.Some? ==> Latest(s.log, |s.log|, s.current.value.id))
  }

  lemma {:induction false} LatestKept(log: seq<Exchange>, log': seq<Exchange>, settles: bool, sends: bool, n: int,
                                      id: string)
    requires Latest(log, n, id) && LogStep(log, log', settles, sends)
    requires settles ==> log[|log| - 1].reply.Waiting?
    ensures Latest(log', n, id)
  {
    var i :| 0 <= i < n <= |log| && log[i].body.Intent? && log[i].reply == RetainedAs(id) && !IntentBetween(log, i, n);
    BetweenSame(log, log', i, n);
    assert log'[i] == log[i];
  }

  /** A request that is not an intent leaves the latest intent the latest. */
  lemma {:induction false} LatestGrows(log: seq<Exchange>, n: int, id: string)
    requires Latest(log, n, id) && n < |log| && !log[n].body.Intent?
    ensures Latest(log, n + 1, id)
  {
    var i :| 0 <= i < n <= |log| && log[i].body.Intent? && log[i].reply == RetainedAs(id) && !IntentBetween(log, i, n);
    assert !IntentBetween(log, i, n + 1);
  }

  lemma {:induction false} OwnKept(log: seq<Exchange>, log': seq<Exchange>, settles: bool, sends: bool)
    requires OwnIntent(log) && LogStep(log, log', settles, sends)
    requires settles ==> log[|log| - 1].reply.Waiting?
    requires sends && NamedId(log'[|log|].body).Some? ==> Latest(log, |log|, NamedId(log'[|log|].body).value)
    ensures OwnIntent(log')
  {
    forall k | 0 <= k < |log'| && NamedId(log'[k].body).Some?
      ensures Latest(log', k, NamedId(log'[k].body).value)
    {
      LatestKept(log, log', settles, sends, k, NamedId(log'[k].body).value);
    }
  }

  lemma {:induction false} SendNames(s: Session, e: Event)
    requires CallInv(s) && SendsNow(s, e) && NamedId(Step(s, e).log[|s.log|].body).Some?
    ensures s.current.Some? && NamedId(Step(s, e).log[|s.log|].body) == Some(s.current.value.id)
  {
  }

  /** Where the current action comes from: kept, with no intent sent, or just retained. */
  lemma {:induction false} CurrentFrom(s: Session, e: Event)
    requires CallInv(s) && CallMatches(s) && Step(s, e).current.Some?
    ensures var t := Step(s, e);
            || (s.current == t.current && (SendsNow(s, e) ==> !t.log[|s.log|].body.Intent?))
            || (Settles(s, e) && !SendsNow(s, e) && s.log[|s.log| - 1].body.Intent?
                && t.log[|s.log| - 1].reply == RetainedAs(t.current.value.id))
  {
    StepLog(s, e);
  }

  lemma {:induction false} StepKeepsOwn(s: Session, e: Event)
    requires OwnInv(s) && CallInv(s) && CallMatches(s) && OneWaiting(s.log, AwaitsReply(s.call))
    ensures OwnInv(Step(s, e))
  {
    var t := Step(s, e);
    StepLog(s, e);
    if SendsNow(s, e) && NamedId(t.log[|s.log|].body).Some? {
      SendNames(s, e);
    }
    OwnKept(s.log, t.log, Settles(s, e), SendsNow(s, e));
    if t.current.Some? {
      CurrentFrom(s, e);
      if s.current == t.current {
        LatestKept(s.log, t.log, Settles(s, e), SendsNow(s, e), |s.log|, t.current.value.id);
        if SendsNow(s, e) { LatestGrows(t.log, |s.log|, t.current.value.id); }
      } else {
        assert !IntentBetween(t.log, |s.log| - 1, |t.log|);
      }
    }
  }

  /* ------------------------------------------------------------------ observations */

  /** Observations sent, and observations acknowledged. */
  function Observations(log: seq<Exchange>): nat {
    if log == [] then 0 else Observations(log[..|log| - 1]) + if log[|log| - 1].body.Observed? then 1 else 0
  }

  function AcknowledgedObservations(log: seq<Exchange>): nat {
    if log == [] then 0 else
      var x := log[|log| - 1];
      AcknowledgedObservations(log[..|log| - 1]) + if x.body.Observed? && x.reply.Acknowledged? then 1 else 0
  }

  lemma {:induction false} ObservationsSame(log: seq<Exchange>, log': seq<Exchange>)
    requires SameBodies(log, log') && |log| == |log'|
    ensures Observations(log) == Observations(log')
    decreases |log|
  {
    if log != [] {
      ObservationsSame(log[..|log| - 1], log'[..|log| - 1]);
    }
  }

  lemma {:induction false} ObservationsGrow(log: seq<Exchange>, log': seq<Exchange>)
    requires SameBodies(log, log') && |log'| == |log| + 1
    ensures Observations(log') == Observations(log) + if log'[|log|].body.Observed? then 1 else 0
  {
    ObservationsSame(log, log'[..|log|]);
  }

  /** Only intents are answered with an identity, and only questions about the form window with its state. */
  predicate RightReply(x: Exchange) {
    (x.reply.RetainedAs? ==> x.body.Intent?) && (x.reply.WindowIs? ==> x.body.Window?)
  }

  /** With every reply in and none lost, every observation sent was acknowledged. */
  predicate AllAnswered(log: seq<Exchange>) {
    forall x <- log :: !x.reply.Lost? && !x.reply.Waiting? && RightReply(x)
  }

  lemma {:induction false} AnsweredObservations(log: seq<Exchange>)
    requires AllAnswered(log)
    ensures AcknowledgedObservations(log) == Observations(log)
    decreases |log|
  {
    if log != [] {
      assert log[|log| - 1] in log;
      AnsweredObservations(log[..|log| - 1]);
    }
  }

  predicate RightReplies(log: seq<Exchange>) {
    forall x <- log :: RightReply(x)
  }

  predicate ObservationInv(s: Session) {
    && (!s.fenced ==> s.observationSequence == Observations(s.log))
    && RightReplies(s.log)
  }

  lemma {:induction false} CountFrom(s: Session, e: Event)
    requires CallInv(s) && !Step(s, e).fenced
    ensures !s.fenced
    ensures Step(s, e).observationSequence
         == s.observationSequence + if SendsNow(s, e) && Step(s, e).log[|s.log|].body.Observed? then 1 else 0
  {
  }

  lemma {:induction false} RepliesKept(s: Session, e: Event)
    requires CallInv(s) && CallMatches(s) && RightReplies(s.log)
    ensures RightReplies(Step(s, e).log)
  {
    StepLog(s, e);
    var log' := Step(s, e).log;
    forall x | x in log'
      ensures RightReply(x)
    {
      var k :| 0 <= k < |log'| && log'[k] == x;
      if k < |s.log| { assert s.log[k] in s.log; }
    }
  }

  lemma {:induction false} StepKeepsObservation(s: Session, e: Event)
    requires ObservationInv(s) && CallInv(s) && CallMatches(s)
    ensures ObservationInv(Step(s, e))
  {
    var t := Step(s, e);
    StepLog(s, e);
    RepliesKept(s, e);
    if SendsNow(s, e) { ObservationsGrow(s.log, t.log); } else { ObservationsSame(s.log, t.log); }
    if !t.fenced { CountFrom(s, e); }
  }

  /* ------------------------------------------------------------------ stop and finish */

  /** A retained STOP, its acknowledged SUCCEEDED result, and no intent after that. */
  ghost predicate Stopped(log: seq<Exchange>, id: string) {
    exists i, m :: StoppedAt(log, id, i, m)
  }

  predicate StoppedAt(log: seq<Exchange>, id: string, i: int, m: int) {
    && 0 <= i < m < |log|
    && log[i].body.Intent? && log[i].body.stop && log[i].reply == RetainedAs(id)
    && log[m].body.Result? && log[m].body.id == id && log[m].body.status.Succeeded? && log[m].reply == Acknowledged
    && !IntentBetween(log, i, |log|)
  }

  /** The current action's intent carried its `stop` flag. */
  predicate CurrentStop(s: Session) {
    s.current.Some? ==> exists i ::
      0 <= i < |s.log| && RetainedIntent(s.log[i], s.current.value) && !IntentBetween(s.log, i, |s.log|)
  }

  predicate RetainedIntent(x: Exchange, c: Current) {
    x == Exchange(Intent(c.sequence, c.stop), RetainedAs(c.id))
  }

  ghost predicate FinishAt(log: seq<Exchange>, k: int)
    requires 0 <= k < |log|
  {
    log[k].body.Finish? ==>
      && k == |log| - 1
      && AllAnswered(log[..k]) && log[k].body.readerSequence == AcknowledgedObservations(log[..k])
      && Stopped(log[..k], log[k].body.stopId)
  }

  ghost predicate FinishInv(s: Session) {
    && (s.stopActionId.Some? ==> Stopped(s.log, s.stopActionId.value))
    && CurrentStop(s)
    && (forall k :: 0 <= k < |s.log| ==> FinishAt(s.log, k))
    && (s.log != [] && s.log[|s.log| - 1].body.Finish? ==> s.finishStarted)
  }

  lemma {:induction false} StoppedKept(log: seq<Exchange>, log': seq<Exchange>, settles: bool, sends: bool, id: string)
    requires Stopped(log, id) && LogStep(log, log', settles, sends)
    requires settles ==> log[|log| - 1].reply.Waiting?
    requires sends ==> !log'[|log|].body.Intent?
    ensures Stopped(log', id)
  {
    var i, m :| StoppedAt(log, id, i, m);
    BetweenSame(log, log', i, |log|);
    assert !IntentBetween(log', i, |log'|);
    assert StoppedAt(log', id, i, m);
  }

  lemma {:induction false} StopSends(s: Session, e: Event)
    requires CallInv(s) && SendsNow(s, e)
    ensures !s.finishStarted
    ensures s.stopActionId.Some? ==> !Step(s, e).log[|s.log|].body.Intent?
    ensures s.current.Some? ==> !Step(s, e).log[|s.log|].body.Intent?
  {
  }

  lemma {:induction false} CurrentStopKept(s: Session, e: Event)
    requires CurrentStop(s) && CallInv(s) && CallMatches(s) && OneWaiting(s.log, AwaitsReply(s.call))
             && Step(s, e).current.Some?
    requires s.current == Step(s, e).current
    ensures CurrentStop(Step(s, e))
  {
    var t := Step(s, e);
    StepLog(s, e);
    var i :| 0 <= i < |s.log| && RetainedIntent(s.log[i], s.current.value) && !IntentBetween(s.log, i, |s.log|);
    BetweenSame(s.log, t.log, i, |s.log|);
    if SendsNow(s, e) { StopSends(s, e); }
    assert t.log[i] == s.log[i] && !IntentBetween(t.log, i, |t.log|);
  }

  lemma {:induction false} NewCurrent(s: Session, e: Event)
    requires CallInv(s) && CallMatches(s) && Step(s, e).current.Some? && s.current != Step(s, e).current
    ensures CurrentStop(Step(s, e))
  {
    var t := Step(s, e);
    assert e.Replied? && s.call.AwaitIntent?;
    assert t.log[|s.log| - 1] == Exchange(s.log[|s.log| - 1].body, RetainedAs(e.id)) && |t.log| == |s.log|;
    assert RetainedIntent(t.log[|s.log| - 1], t.current.value) && !IntentBetween(t.log, |s.log| - 1, |t.log|);
  }

  /** The acknowledged SUCCEEDED result of the STOP is what names it. */
  lemma {:induction false} NewStop(s: Session, e: Event)
    requires CurrentStop(s) && CallInv(s) && CallMatches(s) && OneWaiting(s.log, AwaitsReply(s.call))
    requires Step(s, e).stopActionId.Some? && s.stopActionId != Step(s, e).stopActionId
    ensures Stopped(Step(s, e).log, Step(s, e).stopActionId.value)
  {
    var t, m := Step(s, e), |s.log| - 1;
    assert e.Replied? && s.call.AwaitResult? && s.current.value.stop;
    assert t.log == Settled(s.log, Acknowledged);
    var i :| 0 <= i < |s.log| && RetainedIntent(s.log[i], s.current.value) && !IntentBetween(s.log, i, |s.log|);
    BetweenSame(s.log, t.log, i, |s.log|);
    assert StoppedAt(t.log, s.current.value.id, i, m);
  }

  lemma {:induction false} AnsweredBeforeFinish(s: Session, e: Event)
    requires CallInv(s) && LossInv(s) && OneWaiting(s.log, AwaitsReply(s.call)) && RightReplies(s.log)
    requires e.RequestFinish? && Guard(s, e)
    ensures AllAnswered(s.log)
  {
    assert s.call.NoCall?;
  }

  /** Every property, together. */
  ghost predicate LogInv(s: Session) {
    && CallInv(s) && CallMatches(s) && OneWaiting(s.log, AwaitsReply(s.call)) && LossInv(s)
    && UnresolvedInv(s) && OnceInv(s) && OwnInv(s) && ObservationInv(s) && FinishInv(s)
  }

  lemma {:induction false} NewFinish(s: Session, e: Event)
    requires CallInv(s) && LossInv(s) && OneWaiting(s.log, AwaitsReply(s.call)) && ObservationInv(s) && FinishInv(s)
    requires SendsNow(s, e) && Step(s, e).log[|s.log|].body.Finish?
    ensures FinishAt(Step(s, e).log, |s.log|)
  {
    assert e.RequestFinish?;
    AnsweredBeforeFinish(s, e);
    AnsweredObservations(s.log);
    assert Step(s, e).log[..|s.log|] == s.log;
  }

  lemma {:induction false} FinishesKept(s: Session, e: Event)
    requires CallInv(s) && LossInv(s) && OneWaiting(s.log, AwaitsReply(s.call)) && ObservationInv(s) && FinishInv(s)
    ensures forall k :: 0 <= k < |Step(s, e).log| ==> FinishAt(Step(s, e).log, k)
  {
    var t := Step(s, e);
    StepLog(s, e);
    forall k | 0 <= k < |t.log|
      ensures FinishAt(t.log, k)
    {
      if k == |s.log| {
        if t.log[k].body.Finish? { NewFinish(s, e); }
      } else {
        assert FinishAt(s.log, k);
        assert t.log[k].body == s.log[k].body;
        if t.log[k].body.Finish? {
          if SendsNow(s, e) { StopSends(s, e); }
          assert t.log[..k] == s.log[..k];
        }
      }
    }
  }

  lemma {:induction false} FinishFlag(s: Session, e: Event)
    requires CallInv(s) && FinishInv(s)
    ensures var t := Step(s, e); t.log != [] && t.log[|t.log| - 1].body.Finish? ==> t.finishStarted
  {
    StepLog(s, e);
  }

  lemma {:induction false} StopKept(s: Session, e: Event)
    requires CallInv(s) && CallMatches(s) && OneWaiting(s.log, AwaitsReply(s.call)) && FinishInv(s)
    ensures var t := Step(s, e); t.stopActionId.Some? ==> Stopped(t.log, t.stopActionId.value)
  {
    var t := Step(s, e);
    if t.stopActionId.Some? {
      if s.stopActionId == t.stopActionId {
        StepLog(s, e);
        if SendsNow(s, e) { StopSends(s, e); }
        StoppedKept(s.log, t.log, Settles(s, e), SendsNow(s, e), t.stopActionId.value);
      } else {
        NewStop(s, e);
      }
    }
  }

  lemma {:induction false} StepKeepsFinish(s: Session, e: Event)
    requires LogInv(s)
    ensures FinishInv(Step(s, e))
  {
    StopKept(s, e);
    FinishesKept(s, e);
    FinishFlag(s, e);
    var t := Step(s, e);
    if t.current.Some? {
      if s.current == t.current { CurrentStopKept(s, e); } else { NewCurrent(s, e); }
    }
  }

  lemma {:induction false} StepKeepsSession(s: Session, e: Event)
    requires LogInv(s)
    ensures LogInv(Step(s, e))
  {
    StepKeepsCall(s, e);
    MatchesKept(s, e);
    WaitingKept(s, e);
    LossKept(s, e);
    StepKeepsUnresolved(s, e);
    StepKeepsOnce(s, e);
    StepKeepsOwn(s, e);
    StepKeepsObservation(s, e);
    StepKeepsFinish(s, e);
  }

  lemma {:induction false} RunKeepsSession(s: Session, es: seq<Event>)
    requires LogInv(s)
    ensures LogInv(Run(s, es))
    decreases |es|
  {
    if es != [] {
      StepKeepsSession(s, es[0]);
      RunKeepsSession(Step(s, es[0]), es[1..]);
    }
  }

  /* ------------------------------------------------------------------ what every run guarantees */

  /** At most one request is unanswered at a time, and it is the last one sent. */
  lemma {:induction false} OneOutstanding(es: seq<Event>, k: nat)
    requires k < |Run(Opened, es).log| && Run(Opened, es).log[k].reply.Waiting?
    ensures k == |Run(Opened, es).log| - 1
  {
    RunKeepsSession(Opened, es);
  }

  /** At most one intent is unresolved: sent, with no acknowledged result yet. */
  lemma {:induction false} OneUnresolved(es: seq<Event>)
    ensures 0 <= Unresolved(Run(Opened, es).log) <= 1
  {
    RunKeepsSession(Opened, es);
  }

  /** After any lost reply only AMBIGUOUS results are sent, and after a lost intent nothing. */
  lemma {:induction false} AmbiguousAfterLoss(es: seq<Event>, j: nat, k: nat)
    requires j < k < |Run(Opened, es).log| && Run(Opened, es).log[j].reply.Lost?
    ensures var log := Run(Opened, es).log; AmbiguousResult(log[k].body) && !log[j].body.Intent?
  {
    RunKeepsSession(Opened, es);
  }

  /**
   * When the control plane never reuses an identity, no action is commit-posted twice, nor
   * preflighted, permitted or observed twice.
   */
  lemma {:induction false} OncePerAction(es: seq<Event>, j: nat, k: nat)
    requires j < k < |Run(Opened, es).log| && SameKind(Run(Opened, es).log[j].body, Run(Opened, es).log[k].body)
    requires forall a, b ::
               0 <= a < b < |Run(Opened, es).log| && Run(Opened, es).log[a].reply.RetainedAs? ==>
                 Run(Opened, es).log[a].reply != Run(Opened, es).log[b].reply
    ensures NamedId(Run(Opened, es).log[j].body) != NamedId(Run(Opened, es).log[k].body)
  {
    RunKeepsSession(Opened, es);
    DistinctIds(Run(Opened, es).log, j, k);
  }

  lemma {:induction false} DistinctIds(log: seq<Exchange>, j: nat, k: nat)
    requires OncePerIntent(log) && OwnIntent(log) && j < k < |log| && SameKind(log[j].body, log[k].body)
    requires forall a, b :: 0 <= a < b < |log| && log[a].reply.RetainedAs? ==> log[a].reply != log[b].reply
    ensures NamedId(log[j].body) != NamedId(log[k].body)
  {
    var id, id' := NamedId(log[j].body).value, NamedId(log[k].body).value;
    var a :| 0 <= a < j && log[a].body.Intent? && log[a].reply == RetainedAs(id) && !IntentBetween(log, a, j);
    var b :| 0 <= b < k && log[b].body.Intent? && log[b].reply == RetainedAs(id') && !IntentBetween(log, b, k);
    assert IntentBetween(log, j, k);
    var i :| j < i < k && 0 <= i < |log| && log[i].body.Intent?;
    assert b >= i;
    assert log[a].reply != log[b].reply;
  }

  /**
   * `finish` is posted at most once and is then the last request ever; everything before it was
   * acknowledged; it names a retained STOP whose SUCCEEDED result was acknowledged with no intent
   * since; and it carries exactly the number of acknowledged observations.
   */
  lemma {:induction false} FinishIsExact(es: seq<Event>, k: nat)
    requires k < |Run(Opened, es).log|
    ensures FinishAt(Run(Opened, es).log, k)
  {
    RunKeepsSession(Opened, es);
  }
}
