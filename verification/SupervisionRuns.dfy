/** The invariant of the supervisor, and what every run of it guarantees. */
module SupervisionRuns {
  import opened Basics
  import opened Supervision

  /* ------------------------------------------------------------------ the invariant */

  /** The entries that record an intent, in journal order. */
  function Intents(j: seq<Entry>): seq<Entry> {
    if j == [] then [] else
      var last := j[|j| - 1];
      Intents(j[..|j| - 1]) + if last.result.None? then [last] else []
  }

  predicate Answers(intent: Entry, outcome: Entry) {
    && intent.result.None?
    && outcome.result.Some? && outcome.dispatchedAt.Some?
    && outcome == ResultFor(intent, outcome.result.value, outcome.dispatchedAt.value)
  }

  /** Every intent is directly followed by its own result. */
  predicate Paired(j: seq<Entry>) {
    j != [] ==> |j| >= 2 && Answers(j[|j| - 2], j[|j| - 1]) && Paired(j[..|j| - 2])
  }

  function IntentsOf(admitted: seq<Admission>): seq<Entry> {
    seq(|admitted|, i requires 0 <= i < |admitted| => admitted[i].intent)
  }

  predicate Before(a: Entry, b: Entry) {
    a.epoch < b.epoch || (a.epoch == b.epoch && a.sequence < b.sequence)
  }

  predicate AdmissionOk(a: Admission, index: nat) {
    && a.intent.result.None? && a.intent.dispatchedAt.None? && a.intent.ambiguity.None?
    && a.intent.sequence >= 1
    && a.intent.actionId == ActionId(a.lease.leaseId, a.lease.epoch, a.intent.sequence)
    && a.intent.leaseId == a.lease.leaseId && a.intent.epoch == a.lease.epoch
    && a.now < a.lease.deadline
    && index < a.lease.maxActions
  }

  predicate JournalInv(s: State) {
    && (s.pending == NoAction ==> s.inFlight.None?)
    && (s.pending != NoAction ==> s.inFlight == Some(s.pending.intent.actionId) && s.pending.intent.result.None?)
    && (HasOutcome(s.pending) ==> Answers(s.pending.intent, s.pending.outcome))
    && (s.pending.ResultDurable? ==> s.journal != [] && s.journal[|s.journal| - 1] == s.pending.outcome)
    && if OpenInJournal(s.pending) then OpenWith(s.journal, s.pending.intent) else Paired(s.journal)
  }

  /** The suspended call's intent is in the journal and its result is not. */
  predicate OpenInJournal(p: Pending) {
    p.IntentDurable? || p.Dispatching? || p.FlushingResult? || p.ResultUnflushed?
  }

  /** Resolved pairs, then exactly the one open intent `i`. */
  predicate OpenWith(j: seq<Entry>, i: Entry) {
    j != [] && j[|j| - 1] == i && i.result.None? && Paired(j[..|j| - 1])
  }

  /** An action is in flight exactly while a call is suspended. */
  predicate Engaged(s: State) {
    && (s.inFlight.Some? <==> s.pending != NoAction)
    && (s.pending != NoAction ==> s.pending.intent.result.None?)
    && (HasOutcome(s.pending) ==> s.pending.outcome.result.Some?)
  }

  predicate AdmissionInv(s: State) {
    && s.actionsUsed == |s.admitted|
    && (forall i :: 0 <= i < |s.admitted| ==> AdmissionOk(s.admitted[i], i) && s.admitted[i].lease in s.adopted)
    && (forall i, j :: 0 <= i < j < |s.admitted| ==> Before(s.admitted[i].intent, s.admitted[j].intent))
    && Intents(s.journal) + Unjournaled(s.pending) == IntentsOf(s.admitted)
    && (s.pending != NoAction ==> s.admitted != [] && s.admitted[|s.admitted| - 1].intent == s.pending.intent)
  }

  /** The admitted intent that no resolved append covers yet. */
  function Unjournaled(p: Pending): seq<Entry> {
    if p.FlushingIntent? || p.IntentUnflushed? then [p.intent] else []
  }

  predicate LeaseInv(s: State) {
    && (s.lease.None? ==> s.admitted == [] && s.adopted == [] && s.pending == NoAction)
    && (s.lease.Some? ==>
          && s.adopted != [] && s.adopted[|s.adopted| - 1] == s.lease.value
          && (s.admitted != [] ==>
                var last := s.admitted[|s.admitted| - 1].intent;
                last.epoch < s.lease.value.epoch || (last.epoch == s.lease.value.epoch && last.sequence <= s.sequence))
          && (s.pending != NoAction ==>
                && s.pending.intent.epoch <= s.lease.value.epoch
                && s.sequence == if s.lease.value.epoch == s.pending.intent.epoch then s.pending.intent.sequence
                       else 0))
    && (forall i, j :: 0 <= i < j < |s.adopted| ==> s.adopted[i].epoch < s.adopted[j].epoch)
  }

  predicate DispatchInv(s: State) {
    && |s.dispatched| + (if s.pending.IntentDurable? then 1 else 0) == |Intents(s.journal)| <= |s.admitted|
    && (forall k :: 0 <= k < |s.dispatched| ==> DispatchOf(s.dispatched[k], s.admitted[k].intent))
  }

  /** A dispatched command is its intent, except possibly for the sequence number. */
  predicate DispatchOf(d: Dispatch, i: Entry) {
    && d.command.actionId == i.actionId && d.command.action == i.action
    && d.command.keyChord == i.keyChord && d.command.text == i.text
    && (d.command.sequence == i.sequence <==> d.heldEpoch == i.epoch)
  }

  predicate HasOutcome(p: Pending) {
    p.FlushingResult? || p.ResultUnflushed? || p.ResultDurable?
  }

  predicate FenceInv(s: State) {
    && (forall e :: e in s.journal && e.result == Some(Ambiguous) ==> s.fenced.Some?)
    && (HasOutcome(s.pending) && s.pending.outcome.result == Some(Ambiguous) ==> s.fenced.Some?)
  }

  predicate Inv(s: State) {
    JournalInv(s) && AdmissionInv(s) && LeaseInv(s) && DispatchInv(s) && FenceInv(s)
  }

  lemma {:induction false} IntentsAppend(j: seq<Entry>, e: Entry)
    ensures Intents(j + [e]) == Intents(j) + if e.result.None? then [e] else []
  {
    assert (j + [e])[..|j|] == j;
  }

  lemma {:induction false} PairedAppend(j: seq<Entry>, i: Entry, r: Entry)
    requires OpenWith(j, i) && Answers(i, r)
    ensures Paired(j + [r])
  {
    assert (j + [r])[..|j| - 1] == j[..|j| - 1];
  }

  lemma {:induction false} OpenAppend(j: seq<Entry>, i: Entry)
    requires Paired(j) && i.result.None?
    ensures OpenWith(j + [i], i)
  {
    assert (j + [i])[..|j|] == j;
  }

  lemma {:induction false} IntentsOfAppend(admitted: seq<Admission>, a: Admission)
    ensures IntentsOf(admitted + [a]) == IntentsOf(admitted) + [a.intent]
  {
  }

  /** Only the two append steps touch the journal. */
  predicate Appends(e: Event) {
    e.IntentAppended? || e.ResultAppended?
  }

  lemma {:induction false} AppendKeepsJournal(s: State, e: Event)
    requires JournalInv(s) && Appends(e)
    ensures JournalInv(Step(s, e))
  {
    if e.IntentAppended? && s.pending.FlushingIntent? {
      OpenAppend(s.journal, s.pending.intent);
    } else if e.ResultAppended? && s.pending.FlushingResult? {
      PairedAppend(s.journal, s.pending.intent, s.pending.outcome);
    }
  }

  lemma {:induction false} StepKeepsJournal(s: State, e: Event)
    requires JournalInv(s) && !Appends(e)
    ensures JournalInv(Step(s, e))
  {
    assert Step(s, e).journal == s.journal;
  }

  lemma {:induction false} AdmissionKept(s: State, t: State)
    requires AdmissionInv(s)
    requires t.admitted == s.admitted && t.actionsUsed == s.actionsUsed && s.adopted <= t.adopted
    requires Intents(t.journal) + Unjournaled(t.pending) == Intents(s.journal) + Unjournaled(s.pending)
    requires t.pending == NoAction || (s.pending != NoAction && t.pending.intent == s.pending.intent)
    ensures AdmissionInv(t)
  {
  }

  lemma {:induction false} PerformKeepsAdmission(s: State, e: Event)
    requires AdmissionInv(s) && LeaseInv(s) && Engaged(s)
    requires e.Perform? && Gate(s, e.action, e.now).None? && s.lease.Some?
    ensures AdmissionInv(Step(s, e))
  {
    var t := Step(s, e);
    var a := Admission(IntentFor(s.lease.value, s.sequence + 1, e), s.lease.value, e.now);
    assert t.admitted == s.admitted + [a];
    IntentsOfAppend(s.admitted, a);
    assert s.adopted[|s.adopted| - 1] in s.adopted;
    forall i, j | 0 <= i < j < |t.admitted|
      ensures Before(t.admitted[i].intent, t.admitted[j].intent)
    {
      if j == |s.admitted| && i < |s.admitted| - 1 {
        assert Before(s.admitted[i].intent, s.admitted[|s.admitted| - 1].intent);
      }
    }
  }

  /** What one step adds to the journaled intents. */
  lemma {:induction false} IntentsStep(s: State, e: Event)
    requires Engaged(s)
    ensures Intents(Step(s, e).journal)
         == Intents(s.journal) + if e.IntentAppended? && s.pending.FlushingIntent? then [s.pending.intent] else []
  {
    if e.IntentAppended? && s.pending.FlushingIntent? {
      IntentsAppend(s.journal, s.pending.intent);
    } else if e.ResultAppended? && s.pending.FlushingResult? {
      IntentsAppend(s.journal, s.pending.outcome);
    }
  }

  lemma {:induction false} AdoptedGrows(s: State, e: Event)
    ensures s.adopted <= Step(s, e).adopted
  {
    assert e.AdoptLease? && MayAdopt(s, e.lease) ==> Step(s, e).adopted == s.adopted + [e.lease];
    assert !(e.AdoptLease? && MayAdopt(s, e.lease)) ==> Step(s, e).adopted == s.adopted;
  }

  lemma {:induction false} QuietPending(s: State, e: Event)
    requires !Admits(s, e)
    ensures var t := Step(s, e);
            && t.admitted == s.admitted && t.actionsUsed == s.actionsUsed
            && (t.pending == NoAction || (s.pending != NoAction && t.pending.intent == s.pending.intent))
            && Unjournaled(t.pending) == if e.IntentAppended? && s.pending.FlushingIntent? then []
                   else Unjournaled(s.pending)
  {
  }

  /** A step that admits nothing leaves the admissions and their place in the journal alone. */
  lemma {:induction false} QuietStep(s: State, e: Event)
    requires Engaged(s) && !Admits(s, e)
    ensures var t := Step(s, e);
            && t.admitted == s.admitted && t.actionsUsed == s.actionsUsed && s.adopted <= t.adopted
            && (t.pending == NoAction || (s.pending != NoAction && t.pending.intent == s.pending.intent))
            && Intents(t.journal) + Unjournaled(t.pending) == Intents(s.journal) + Unjournaled(s.pending)
  {
    AdoptedGrows(s, e);
    QuietPending(s, e);
    IntentsStep(s, e);
    assert forall x: seq<Entry> :: x + [] == x;
  }

  lemma {:induction false} StepKeepsAdmission(s: State, e: Event)
    requires AdmissionInv(s) && LeaseInv(s) && Engaged(s)
    ensures AdmissionInv(Step(s, e))
  {
    if Admits(s, e) {
      PerformKeepsAdmission(s, e);
    } else {
      QuietStep(s, e);
      AdmissionKept(s, Step(s, e));
    }
  }

  lemma {:induction false} AdoptKeepsLease(s: State, e: Event)
    requires LeaseInv(s) && e.AdoptLease?
    ensures LeaseInv(Step(s, e))
  {
    if MayAdopt(s, e.lease) {
      assert Step(s, e).adopted == s.adopted + [e.lease];
    }
  }

  lemma {:induction false} PerformKeepsLease(s: State, e: Event)
    requires LeaseInv(s) && e.Perform?
    ensures LeaseInv(Step(s, e))
  {
    if Admits(s, e) {
      var a := Admission(IntentFor(s.lease.value, s.sequence + 1, e), s.lease.value, e.now);
      assert Step(s, e).admitted == s.admitted + [a];
    }
  }

  lemma {:induction false} StepKeepsLease(s: State, e: Event)
    requires LeaseInv(s) && !e.AdoptLease? && !e.Perform?
    ensures LeaseInv(Step(s, e))
  {
  }

  lemma {:induction false} CallKeepsDispatch(s: State, e: Event)
    requires DispatchInv(s) && LeaseInv(s) && AdmissionInv(s) && e.CallDispatch?
    ensures DispatchInv(Step(s, e))
  {
    var t, n := Step(s, e), |s.dispatched|;
    if Dispatches(s, e) {
      assert Intents(s.journal) + [] == Intents(s.journal);
      assert |IntentsOf(s.admitted)| == |s.admitted| == n + 1;
      assert AdmissionOk(s.admitted[n], n);
      CallMatches(s);
      forall k | 0 <= k < |t.dispatched|
        ensures DispatchOf(t.dispatched[k], t.admitted[k].intent)
      {
        assert k < n ==> t.dispatched[k] == s.dispatched[k];
      }
    }
  }

  /** The command takes its number from the lease held now. */
  lemma {:induction false} CallMatches(s: State)
    requires LeaseInv(s) && s.pending.IntentDurable? && s.lease.Some? && s.pending.intent.sequence >= 1
    ensures DispatchOf(DispatchFor(s, s.pending.intent), s.pending.intent)
  {
  }

  lemma {:induction false} DispatchKept(s: State, t: State)
    requires DispatchInv(s) && AdmissionInv(s)
    requires t.dispatched == s.dispatched && s.admitted <= t.admitted
    requires t.pending.IntentDurable? == (s.pending.IntentDurable? || |Intents(t.journal)| == |Intents(s.journal)| + 1)
    requires |Intents(t.journal)| <= |Intents(s.journal)| + |Unjournaled(s.pending)|
    requires |Intents(t.journal)| == |Intents(s.journal)|
             || (!s.pending.IntentDurable? && |Intents(t.journal)| == |Intents(s.journal)| + 1)
    ensures DispatchInv(t)
  {
    assert |IntentsOf(s.admitted)| == |s.admitted|;
  }

  lemma {:induction false} StepKeepsDispatch(s: State, e: Event)
    requires DispatchInv(s) && AdmissionInv(s) && Engaged(s) && !e.CallDispatch?
    ensures DispatchInv(Step(s, e))
  {
    IntentsStep(s, e);
    DispatchKept(s, Step(s, e));
  }

  lemma {:induction false} StepKeepsFence(s: State, e: Event)
    requires FenceInv(s)
    requires s.pending != NoAction ==> s.pending.intent.result.None?
    ensures FenceInv(Step(s, e))
  {
  }

  lemma {:induction false} StepKeepsInv(s: State, e: Event)
    requires Inv(s)
    ensures Inv(Step(s, e))
  {
    assert s.pending != NoAction ==> AdmissionOk(s.admitted[|s.admitted| - 1], |s.admitted| - 1);
    assert Engaged(s);
    if Appends(e) { AppendKeepsJournal(s, e); } else { StepKeepsJournal(s, e); }
    StepKeepsAdmission(s, e);
    if e.AdoptLease? {
      AdoptKeepsLease(s, e);
    } else if e.Perform? {
      PerformKeepsLease(s, e);
    } else {
      StepKeepsLease(s, e);
    }
    if e.CallDispatch? { CallKeepsDispatch(s, e); } else { StepKeepsDispatch(s, e); }
    StepKeepsFence(s, e);
  }

  lemma {:induction false} RunKeepsInv(s: State, es: seq<Event>)
    requires Inv(s)
    ensures Inv(Run(s, es))
    decreases |es|
  {
    if es != [] {
      StepKeepsInv(s, es[0]);
      RunKeepsInv(Step(s, es[0]), es[1..]);
    }
  }

  /* ------------------------------------------------------------------ what every run guarantees */

  /** Write-ahead: at every moment of every run, each dispatched command has its intent flushed. */
  lemma {:induction false} WriteAhead(started: real, es: seq<Event>)
    ensures var s := Run(Init(started), es);
            && |s.dispatched| <= |Intents(s.journal)|
            && forall k :: 0 <= k < |s.dispatched| ==> DispatchOf(s.dispatched[k], Intents(s.journal)[k])
  {
    var s := Run(Init(started), es);
    RunKeepsInv(Init(started), es);
    forall k | 0 <= k < |s.dispatched|
      ensures DispatchOf(s.dispatched[k], Intents(s.journal)[k])
    {
      assert (Intents(s.journal) + Unjournaled(s.pending))[k] == Intents(s.journal)[k];
      assert IntentsOf(s.admitted)[k] == s.admitted[k].intent;
    }
  }

  /** The text `lease:epoch:sequence` names its three parts, whatever the lease identifier contains. */
  lemma {:induction false} ActionIdInjective(l: string, e: nat, n: nat, l': string, e': nat, n': nat)
    requires ActionId(l, e, n) == ActionId(l', e', n')
    ensures l == l' && e == e' && n == n'
  {
    DecimalRoundTrip(e);
    DecimalRoundTrip(n);
    DecimalRoundTrip(e');
    DecimalRoundTrip(n');
    var a, a' := l + ":" + Decimal(e), l' + ":" + Decimal(e');
    assert a + [':'] + Decimal(n) == ActionId(l, e, n);
    assert a' + [':'] + Decimal(n') == ActionId(l', e', n');
    LastSplitUnique(a, Decimal(n), a', Decimal(n'), ':');
    LastSplitUnique(l, Decimal(e), l', Decimal(e'), ':');
  }

  /** Across all adopted leases no identifier is issued twice, so none is dispatched twice. */
  lemma {:induction false} AtMostOnce(started: real, es: seq<Event>, i: nat, j: nat)
    requires i < j < |Run(Init(started), es).dispatched|
    ensures var s := Run(Init(started), es);
            s.dispatched[i].command.actionId != s.dispatched[j].command.actionId
  {
    var s := Run(Init(started), es);
    RunKeepsInv(Init(started), es);
    var a, b := s.admitted[i], s.admitted[j];
    assert AdmissionOk(a, i) && AdmissionOk(b, j) && Before(a.intent, b.intent);
    assert DispatchOf(s.dispatched[i], a.intent) && DispatchOf(s.dispatched[j], b.intent);
    if a.intent.actionId == b.intent.actionId {
      ActionIdInjective(a.lease.leaseId, a.lease.epoch, a.intent.sequence, b.lease.leaseId, b.lease.epoch,
          b.intent.sequence);
    }
  }

  /** No admission at or after its lease's deadline, and no more admissions than the largest budget. */
  lemma {:induction false} BudgetAndDeadline(started: real, es: seq<Event>, bound: nat)
    requires forall l <- Run(Init(started), es).adopted :: l.maxActions <= bound
    ensures var s := Run(Init(started), es);
            && |s.dispatched| <= |s.admitted| <= bound
            && forall a <- s.admitted ::
                 a.lease in s.adopted && a.now < a.lease.deadline && a.intent.epoch == a.lease.epoch
  {
    var s := Run(Init(started), es);
    RunKeepsInv(Init(started), es);
    if s.admitted != [] {
      assert AdmissionOk(s.admitted[|s.admitted| - 1], |s.admitted| - 1);
    }
  }

  lemma {:induction false} PairedAt(j: seq<Entry>, i: nat)
    requires Paired(j) && i < |j|
    ensures j[i].result.None? ==> i + 1 < |j| && Answers(j[i], j[i + 1])
    decreases |j|
  {
    if i < |j| - 2 {
      PairedAt(j[..|j| - 2], i);
    }
  }

  /** Cancelled with nothing suspended: nothing will ever be admitted again. */
  predicate Quiescent(s: State) {
    s.cancelRequested && s.pending == NoAction && s.inFlight.None?
  }

  lemma {:induction false} QuiescentForever(s: State, es: seq<Event>)
    requires Quiescent(s)
    ensures var t := Run(s, es);
            Quiescent(t) && t.journal == s.journal && t.dispatched == s.dispatched && t.admitted == s.admitted
    decreases |es|
  {
    if es != [] {
      QuiescentForever(Step(s, es[0]), es[1..]);
    }
  }

  /**
   * When the supervisor may acknowledge a stop, every journaled intent is directly followed by its
   * own SUCCEEDED or FAILED result, and no continuation dispatches or journals anything more.
   */
  lemma {:induction false} StopAcknowledgementSound(started: real, es: seq<Event>, more: seq<Event>)
    requires MayAcknowledgeStop(Run(Init(started), es))
    ensures var s := Run(Init(started), es);
            && (forall i :: 0 <= i < |s.journal| && s.journal[i].result.None? ==>
                  && i + 1 < |s.journal| && Answers(s.journal[i], s.journal[i + 1])
                  && s.journal[i + 1].result.value != Ambiguous)
            && Run(s, more).journal == s.journal
            && Run(s, more).dispatched == s.dispatched
  {
    var s := Run(Init(started), es);
    RunKeepsInv(Init(started), es);
    forall i | 0 <= i < |s.journal| && s.journal[i].result.None?
      ensures i + 1 < |s.journal| && Answers(s.journal[i], s.journal[i + 1])
      ensures s.journal[i + 1].result.value != Ambiguous
    {
      PairedAt(s.journal, i);
      assert s.journal[i + 1] in s.journal;
    }
    QuiescentForever(s, more);
  }

  /** Fenced, or left for ever inside an append that failed. */
  predicate Blocked(s: State) {
    s.fenced.Some? || ((s.pending.IntentUnflushed? || s.pending.ResultUnflushed?) && s.inFlight.Some?)
  }

  /** A fence or a failed flush refuses every later action, whatever else happens. */
  lemma {:induction false} BlockedForever(s: State, es: seq<Event>)
    requires Blocked(s)
    ensures Blocked(Run(s, es)) && Run(s, es).admitted == s.admitted
    ensures s.fenced.Some? ==> Run(s, es).fenced.Some?
    ensures forall action, now :: Gate(Run(s, es), action, now).Some?
    decreases |es|
  {
    if es != [] {
      BlockedForever(Step(s, es[0]), es[1..]);
    }
  }

  /**
   * Adopting a lease while an action is being flushed changes the sequence number it is dispatched
   * under: `WriteAhead` says it equals the journaled one exactly when the lease held at dispatch is
   * the lease of the intent. Here it is not.
   */
  lemma {:induction false} AdoptionInFlightRenumbers(l: Lease, l2: Lease)
    requires l.epoch < l2.epoch && 0.0 < l.deadline && 0 < l.maxActions && 0.0 < l.maxWallTime
    ensures var s := Run(Init(0.0),
                [AdoptLease(l), Perform(Next, None, None, 0.0, ""), AdoptLease(l2), IntentAppended, CallDispatch]);
            && |s.dispatched| == 1 == |s.journal|
            && s.journal[0].sequence == 1 && s.dispatched[0].command.sequence == 0
  {
    var s1 := Step(Init(0.0), AdoptLease(l));
    var s2 := Step(s1, Perform(Next, None, None, 0.0, ""));
    var s3 := Step(s2, AdoptLease(l2));
    var s4 := Step(s3, IntentAppended);
    var s5 := Step(s4, CallDispatch);
    var es := [AdoptLease(l), Perform(Next, None, None, 0.0, ""), AdoptLease(l2), IntentAppended, CallDispatch];
    assert s2.pending.FlushingIntent? && s3.pending == s2.pending;
    calc {
      Run(Init(0.0), es);
      { assert es[1..] == [Perform(Next, None, None, 0.0, ""), AdoptLease(l2), IntentAppended, CallDispatch]; }
      Run(s1, [Perform(Next, None, None, 0.0, ""), AdoptLease(l2), IntentAppended, CallDispatch]);
      { assert [Perform(Next, None, None, 0.0, ""), AdoptLease(l2), IntentAppended, CallDispatch][1..]
          == [AdoptLease(l2), IntentAppended, CallDispatch]; }
      Run(s2, [AdoptLease(l2), IntentAppended, CallDispatch]);
      { assert [AdoptLease(l2), IntentAppended, CallDispatch][1..] == [IntentAppended, CallDispatch]; }
      Run(s3, [IntentAppended, CallDispatch]);
      { assert [IntentAppended, CallDispatch][1..] == [CallDispatch]; }
      Run(s4, [CallDispatch]);
      { assert [CallDispatch][1..] == []; }
      s5;
    }
  }
}
