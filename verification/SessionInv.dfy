/** What every step of the session keeps, and what every run therefore guarantees. */
module SessionInv {
  import opened Basics
  import opened Session

  /* ------------------------------------------------------------------ control */

  predicate InAction(k: Call) {
    k.AwaitCommit? || k.AwaitPreflight? || k.AwaitPermit? || k.AwaitObservation? || k.AwaitWindow? || k.Sleeping?
    || k.AwaitResult?
  }

  predicate CallInv(s: Session) {
    && (s.busy <==> InAction(s.call) || s.call.AwaitAuthority?)
    && (s.call.AwaitIntent? ==> s.intentPending && s.current.None? && !s.finishStarted)
    && (InAction(s.call) ==> s.current.Some?)
    && (s.current.Some? ==> s.intentPending && !s.finishStarted)
    && (s.call.AwaitAuthority? ==> !s.intentPending && !s.finishStarted)
    && (s.call.AwaitFinish? ==> s.finishStarted)
    && (s.finishStarted ==> !s.intentPending && s.stopActionId.Some?)
    && (s.finishStarted && s.call.NoCall? ==> s.fenced)
    && (s.stopActionId.Some? ==> !s.intentPending)
    && (s.fenced ==> s.call.NoCall? || (s.call.AwaitResult? && s.call.status.Ambiguous?))
    && ((s.call.AwaitWindow? || s.call.Sleeping?) ==> !s.call.status.Ambiguous?)
  }

  lemma {:induction false} StepKeepsCall(s: Session, e: Event)
    requires CallInv(s)
    ensures CallInv(Step(s, e))
  {
  }

  /* ------------------------------------------------------------------ the log, one property at a time */

  /** Only the last request can be without an answer, and it is exactly while a reply is awaited. */
  predicate OneWaiting(log: seq<Exchange>, waiting: bool) {
    && (waiting ==> log != [] && log[|log| - 1].reply.Waiting?)
    && forall k :: 0 <= k < |log| && log[k].reply.Waiting? ==> waiting && k == |log| - 1
  }

  predicate AwaitsReply(k: Call) {
    !k.NoCall? && !k.Sleeping?
  }

  /** The request that call `k` is waiting on. */
  predicate Matches(k: Call, current: Option<Current>, b: Body) {
    match k
    case AwaitIntent(sequence, stop) => b == Intent(sequence, stop)
    case AwaitResult(status) => current.Some? && b == Result(current.value.id, status)
    case AwaitAuthority => b.Authority?
    case AwaitCommit => b.Commit?
    case AwaitPreflight => b.Preflighted?
    case AwaitPermit => b.FormPermit?
    case AwaitObservation => b.Observed?
    case AwaitWindow(_) => b.Window?
    case AwaitFinish => b.Finish?
    case _ => true
  }

  predicate CallMatches(s: Session) {
    AwaitsReply(s.call) ==> s.log != [] && Matches(s.call, s.current, s.log[|s.log| - 1].body)
  }

  predicate AmbiguousResult(b: Body) {
    b.Result? && b.status.Ambiguous?
  }

  /** After a lost reply nothing is sent but AMBIGUOUS results, and after a lost intent nothing at all. */
  predicate OnlyAmbiguousAfterLoss(log: seq<Exchange>) {
    forall j, k :: 0 <= j < k < |log| && log[j].reply.Lost? ==> AmbiguousResult(log[k].body) && !log[j].body.Intent?
  }

  predicate Lossless(log: seq<Exchange>) {
    forall x <- log :: !x.reply.Lost?
  }

  /** The intent's own reply was lost: nothing has an identity, and nothing more can be sent. */
  predicate LostIntent(s: Session) {
    s.intentPending && s.current.None? && s.call.NoCall?
  }

  predicate LossInv(s: Session) {
    && OnlyAmbiguousAfterLoss(s.log)
    && (!s.fenced && !LostIntent(s) ==> Lossless(s.log))
    && (!LostIntent(s) ==> NoLostIntent(s.log))
    && (s.fenced ==> !s.call.AwaitIntent?)
  }

  /** What a step does to the log: nothing, settle the last reply, send one request, or both. */
  predicate LogStep(log: seq<Exchange>, log': seq<Exchange>, settles: bool, sends: bool) {
    && (settles ==> log != [])
    && |log'| == |log| + (if sends then 1 else 0)
    && (forall k :: 0 <= k < |log| ==> log'[k].body == log[k].body)
    && (forall k :: 0 <= k < |log| - (if settles then 1 else 0) ==> log'[k] == log[k])
    && (settles ==> !log'[|log| - 1].reply.Waiting?)
    && (sends ==> log'[|log|].reply.Waiting?)
  }

  lemma {:induction false} SettledStep(s: Session, e: Event)
    ensures LogStep(s.log, SettledNext(s, e), Settles(s, e), false)
  {
  }

  lemma {:induction false} SentStep(log: seq<Exchange>, middle: seq<Exchange>, settles: bool, body: Body)
    requires LogStep(log, middle, settles, false)
    ensures LogStep(log, middle + [Exchange(body, Waiting)], settles, true)
  {
  }

  lemma {:induction false} StepLog(s: Session, e: Event)
    ensures LogStep(s.log, Step(s, e).log, Settles(s, e), SendsNow(s, e))
  {
    SettledStep(s, e);
    if SendsNow(s, e) {
      SentStep(s.log, SettledNext(s, e), Settles(s, e), SentBody(s, e));
    }
  }

  lemma {:induction false} WaitingKept(s: Session, e: Event)
    requires CallInv(s) && OneWaiting(s.log, AwaitsReply(s.call))
    ensures OneWaiting(Step(s, e).log, AwaitsReply(Step(s, e).call))
  {
    StepLog(s, e);
  }

  lemma {:induction false} MatchesKept(s: Session, e: Event)
    requires CallInv(s) && CallMatches(s)
    ensures CallMatches(Step(s, e))
  {
  }

  /** A request is sent only unfenced, or as an AMBIGUOUS result, and never with a lost intent. */
  lemma {:induction false} SendsWhen(s: Session, e: Event)
    requires CallInv(s) && SendsNow(s, e)
    ensures !LostIntent(s) && (s.fenced ==> AmbiguousResult(Step(s, e).log[|s.log|].body))
    ensures Step(s, e).log[|s.log|].reply.Waiting?
  {
  }

  lemma {:induction false} AfterLossKept(log: seq<Exchange>, log': seq<Exchange>, settles: bool, sends: bool)
    requires OnlyAmbiguousAfterLoss(log) && LogStep(log, log', settles, sends)
    requires sends ==> forall j ::
               0 <= j < |log| && log'[j].reply.Lost? ==> AmbiguousResult(log'[|log|].body) && !log'[j].body.Intent?
    ensures OnlyAmbiguousAfterLoss(log')
  {
  }

  predicate NoLostIntent(log: seq<Exchange>) {
    forall x <- log :: x.reply.Lost? ==> !x.body.Intent?
  }

  lemma {:induction false} NoLostIntentKept(log: seq<Exchange>, log': seq<Exchange>, settles: bool, sends: bool)
    requires NoLostIntent(log) && LogStep(log, log', settles, sends)
    requires settles && log'[|log| - 1].reply.Lost? ==> !log[|log| - 1].body.Intent?
    ensures NoLostIntent(log')
  {
    forall x | x in log'
      ensures x.reply.Lost? ==> !x.body.Intent?
    {
      var k :| 0 <= k < |log'| && log'[k] == x;
      if k < |log| - 1 { assert log[k] in log; }
      if k == |log| - 1 { assert log[k] in log; }
    }
  }

  lemma {:induction false} LosslessKept(log: seq<Exchange>, log': seq<Exchange>, settles: bool, sends: bool)
    requires Lossless(log) && LogStep(log, log', settles, sends)
    requires settles ==> !log'[|log| - 1].reply.Lost?
    ensures Lossless(log')
  {
    forall x | x in log'
      ensures !x.reply.Lost?
    {
      var k :| 0 <= k < |log'| && log'[k] == x;
      if k < |log| { assert log[k] in log; }
    }
  }

  lemma {:induction false} LossKept(s: Session, e: Event)
    requires CallInv(s) && LossInv(s) && CallMatches(s) && OneWaiting(s.log, AwaitsReply(s.call))
    ensures LossInv(Step(s, e))
  {
    var t := Step(s, e);
    StepLog(s, e);
    FenceKept(s, e);
    if t.call.AwaitIntent? {
      IntentUnfenced(s, e);
    }
    if LostIntent(s) {
      LostIntentStuck(s, e);
    } else {
      SentAfterLoss(s, e);
      AfterLossKept(s.log, t.log, Settles(s, e), SendsNow(s, e));
      UnlostKept(s, e);
      UnfencedKept(s, e);
    }
  }

  /** A settled reply is lost only by losing it, which fences the session or leaves a lost intent. */
  lemma {:induction false} SettledClean(s: Session, e: Event)
    requires CallInv(s) && CallMatches(s) && Settles(s, e) && !LostIntent(Step(s, e))
    ensures |Step(s, e).log| >= |s.log|
    ensures Step(s, e).log[|s.log| - 1].reply.Lost? ==> !s.log[|s.log| - 1].body.Intent? && Step(s, e).fenced
  {
    StepLog(s, e);
    if e.ReplyLost? { LoseFrame(s); } else { OnlyLoseLoses(s, e); }
  }

  lemma {:induction false} UnlostKept(s: Session, e: Event)
    requires CallInv(s) && LossInv(s) && CallMatches(s) && !LostIntent(s)
    ensures !LostIntent(Step(s, e)) ==> NoLostIntent(Step(s, e).log)
  {
    StepLog(s, e);
    if !LostIntent(Step(s, e)) {
      if Settles(s, e) { SettledClean(s, e); }
      NoLostIntentKept(s.log, Step(s, e).log, Settles(s, e), SendsNow(s, e));
    }
  }

  lemma {:induction false} UnfencedKept(s: Session, e: Event)
    requires CallInv(s) && LossInv(s) && CallMatches(s) && !LostIntent(s)
    ensures !Step(s, e).fenced && !LostIntent(Step(s, e)) ==> Lossless(Step(s, e).log)
  {
    StepLog(s, e);
    FenceKept(s, e);
    if !Step(s, e).fenced && !LostIntent(Step(s, e)) {
      if Settles(s, e) { SettledClean(s, e); }
      LosslessKept(s.log, Step(s, e).log, Settles(s, e), SendsNow(s, e));
    }
  }

  lemma {:induction false} SentAfterLoss(s: Session, e: Event)
    requires CallInv(s) && LossInv(s) && !LostIntent(s)
    ensures var log' := Step(s, e).log;
            SendsNow(s, e) ==> forall j ::
              0 <= j < |s.log| && log'[j].reply.Lost? ==> AmbiguousResult(log'[|s.log|].body) && !log'[j].body.Intent?
  {
    StepLog(s, e);
    if SendsNow(s, e) {
      SendsWhen(s, e);
      var log' := Step(s, e).log;
      forall j | 0 <= j < |s.log| && log'[j].reply.Lost?
        ensures AmbiguousResult(log'[|s.log|].body) && !log'[j].body.Intent?
      {
        assert log'[j] == s.log[j] && s.log[j] in s.log;
      }
    }
  }

  lemma {:induction false} FenceKept(s: Session, e: Event)
    ensures s.fenced ==> Step(s, e).fenced
  {
  }

  /** Losing a reply fences, except for an intent's, which leaves nothing that could be named. */
  lemma {:induction false} LoseFrame(s: Session)
    requires CallInv(s) && Awaiting(s)
    ensures if s.call.AwaitIntent? then LostIntent(Step(s, ReplyLost)) else Step(s, ReplyLost).fenced
  {
  }

  lemma {:induction false} LostIntentStuck(s: Session, e: Event)
    requires CallInv(s) && LostIntent(s)
    ensures Step(s, e) == s
  {
  }

  /** An answer about the form window that makes no sense counts as lost, and fences. */
  lemma {:induction false} OnlyLoseLoses(s: Session, e: Event)
    requires CallInv(s) && CallMatches(s) && Settles(s, e) && !e.ReplyLost?
    ensures |Step(s, e).log| >= |s.log|
    ensures Step(s, e).log[|s.log| - 1].reply.Lost? ==> s.log[|s.log| - 1].body.Window? && Step(s, e).fenced
  {
  }

  lemma {:induction false} IntentUnfenced(s: Session, e: Event)
    requires CallInv(s) && Step(s, e).call.AwaitIntent?
    ensures !Step(s, e).fenced || Step(s, e) == s
  {
  }
}
