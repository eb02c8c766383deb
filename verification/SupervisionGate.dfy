/**
 * What the local gate decides, told from the outside: by the events of the run, the leases adopted,
 * the actions admitted and the journal, and without any of the supervisor's own counters.
 */
module SupervisionGate {
  import opened Basics
  import opened Supervision
  import opened SupervisionRuns

  lemma {:induction false} RunSnoc(s: State, es: seq<Event>, e: Event)
    ensures Run(s, es + [e]) == Step(Run(s, es), e)
    decreases |es|
  {
    if es == [] {
      assert es + [e] == [e] && [e][1..] == [];
    } else {
      assert (es + [e])[1..] == es[1..] + [e];
      RunSnoc(Step(s, es[0]), es[1..], e);
    }
  }

  /** The state after the events. */
  function After(started: real, es: seq<Event>): State {
    Run(Init(started), es)
  }

  lemma {:induction false} AfterLast(started: real, es: seq<Event>)
    requires es != []
    ensures After(started, es) == Step(After(started, es[..|es| - 1]), es[|es| - 1])
  {
    assert es[..|es| - 1] + [es[|es| - 1]] == es;
    RunSnoc(Init(started), es[..|es| - 1], es[|es| - 1]);
  }

  /* ------------------------------------------------------------------ what an observer knows */

  predicate Leased(es: seq<Event>) {
    exists e <- es :: e.AdoptLease?
  }

  predicate CancelledIn(es: seq<Event>) {
    exists e <- es :: e.RequestCancellation?
  }

  /** The clock reading of the last request for an action under a lease, or that of the start. */
  function LastReading(started: real, es: seq<Event>): real {
    if es == [] then started else
      var n := |es| - 1;
      if es[n].Perform? && Leased(es[..n]) then es[n].now else LastReading(started, es[..n])
  }

  /** An event that fences: a reading below the last one, or the loss of a running dispatch. */
  predicate Fault(started: real, before: seq<Event>, e: Event) {
    || (e.Perform? && Leased(before) && e.now < LastReading(started, before))
    || (e.DispatchLost? && After(started, before).pending.Dispatching?)
  }

  predicate Faulted(started: real, es: seq<Event>) {
    es != [] && (Faulted(started, es[..|es| - 1]) || Fault(started, es[..|es| - 1], es[|es| - 1]))
  }

  /** The reading of the journal's last result. */
  function LastResult(j: seq<Entry>): Option<real> {
    if j == [] then None
    else if j[|j| - 1].dispatchedAt.Some? then j[|j| - 1].dispatchedAt
    else LastResult(j[..|j| - 1])
  }

  /** The seconds from the start to a result. */
  function Elapsed(started: real, reading: Option<real>): real {
    if reading.None? then 0.0 else (reading.value - started) / 1000.0
  }

  /* ------------------------------------------------------------------ the counters say the same */

  lemma {:induction false} LeasedNext(es: seq<Event>)
    requires es != []
    ensures Leased(es) <==> Leased(es[..|es| - 1]) || es[|es| - 1].AdoptLease?
    ensures CancelledIn(es) <==> CancelledIn(es[..|es| - 1]) || es[|es| - 1].RequestCancellation?
  {
    assert es == es[..|es| - 1] + [es[|es| - 1]];
  }

  /** Leases, cancellation, fence and clock. */
  predicate Told(started: real, es: seq<Event>, s: State) {
    && s.startedMonotonic == started
    && (s.lease.Some? <==> Leased(es)) && (s.cancelRequested <==> CancelledIn(es))
    && (s.fenced.Some? <==> Faulted(started, es))
    && (s.fenced.None? ==> s.lastMonotonic == LastReading(started, es))
    && (s.lease.None? ==> s.fenced.None? && s.pending == NoAction)
  }

  lemma {:induction false} StepTold(started: real, es: seq<Event>, s: State, e: Event)
    requires s == After(started, es) && Told(started, es, s)
    ensures Told(started, es + [e], Step(s, e))
  {
    assert (es + [e])[..|es|] == es;
    LeasedNext(es + [e]);
  }

  lemma {:induction false} RunTold(started: real, es: seq<Event>)
    ensures Told(started, es, After(started, es))
    decreases |es|
  {
    if es != [] {
      var before := es[..|es| - 1];
      RunTold(started, before);
      StepTold(started, before, After(started, before), es[|es| - 1]);
      AfterLast(started, es);
      assert before + [es[|es| - 1]] == es;
    }
  }

  /** The used wall time is that of the last result, flushed or about to be. */
  predicate WallInv(s: State) {
    && var read := if HasOutcome(s.pending) then s.pending.outcome.dispatchedAt else LastResult(s.journal);
    && s.wallTimeUsed == Elapsed(s.startedMonotonic, read)
    && (s.pending != NoAction <==> s.inFlight.Some?)
    && (s.pending != NoAction ==> s.pending.intent.dispatchedAt.None?)
    && (HasOutcome(s.pending) ==> s.pending.outcome.dispatchedAt.Some?)
    && (s.pending.ResultDurable? ==> LastResult(s.journal) == s.pending.outcome.dispatchedAt)
  }

  lemma {:induction false} LastResultAppend(j: seq<Entry>, e: Entry)
    ensures LastResult(j + [e]) == if e.dispatchedAt.Some? then e.dispatchedAt else LastResult(j)
  {
    assert (j + [e])[..|j|] == j;
  }

  lemma {:induction false} StepWall(s: State, e: Event)
    requires WallInv(s)
    ensures WallInv(Step(s, e))
  {
    if FlushesIntent(s, e) {
      LastResultAppend(s.journal, s.pending.intent);
    } else if FlushesResult(s, e) {
      LastResultAppend(s.journal, s.pending.outcome);
    }
  }

  lemma {:induction false} RunWall(s: State, es: seq<Event>)
    requires WallInv(s)
    ensures WallInv(Run(s, es))
    decreases |es|
  {
    if es != [] {
      StepWall(s, es[0]);
      RunWall(Step(s, es[0]), es[1..]);
    }
  }

  /* ------------------------------------------------------------------ the decision */

  /** A refusal, and whether there is cause for it. */
  datatype Reason = Reason(refusal: GateRefusal, holds: bool)

  /** The lease held is the last one adopted. */
  function Held(s: State): Lease
    requires s.adopted != []
  {
    s.adopted[|s.adopted| - 1]
  }

  /** The causes for refusing an action, most important first. */
  function Reasons(started: real, es: seq<Event>, action: Action, now: real): seq<Reason> {
    var s := After(started, es);
    [Reason(LeaseExpired, Faulted(started, es)),
     Reason(NotLeased, s.adopted == []),
     Reason(LeaseExpired, now < LastReading(started, es)),
     Reason(LeaseExpired, s.adopted != [] && now >= Held(s).deadline),
     Reason(CancellationRequested, CancelledIn(es)),
     Reason(ActionInFlight, s.pending != NoAction),
     Reason(ActionBudgetExhausted, s.adopted != [] && |s.admitted| >= Held(s).maxActions),
     Reason(WallTimeBudgetExhausted, s.adopted != [] && Elapsed(started, LastResult(s.journal)) >= Held(s).maxWallTime),
     Reason(ActionNotAllowed, action.Other?)]
  }

  /** The first refusal, from the `i`-th on, that there is cause for. */
  function First(reasons: seq<Reason>, i: nat): Option<GateRefusal>
    requires i <= |reasons|
    decreases |reasons| - i
  {
    if i == |reasons| then None
    else if reasons[i].holds then Some(reasons[i].refusal)
    else First(reasons, i + 1)
  }

  lemma {:induction false} FirstOfNine(rs: seq<Reason>)
    requires |rs| == 9
    ensures First(rs, 0) ==
              if rs[0].holds then Some(rs[0].refusal) else if rs[1].holds then Some(rs[1].refusal)
              else if rs[2].holds then Some(rs[2].refusal) else if rs[3].holds then Some(rs[3].refusal)
              else if rs[4].holds then Some(rs[4].refusal) else if rs[5].holds then Some(rs[5].refusal)
              else if rs[6].holds then Some(rs[6].refusal) else if rs[7].holds then Some(rs[7].refusal)
              else if rs[8].holds then Some(rs[8].refusal) else None
  {
    assert First(rs, 8) == if rs[8].holds then Some(rs[8].refusal) else None;
    assert First(rs, 6) == if rs[6].holds then Some(rs[6].refusal) else First(rs, 7);
    assert First(rs, 4) == if rs[4].holds then Some(rs[4].refusal) else First(rs, 5);
    assert First(rs, 2) == if rs[2].holds then Some(rs[2].refusal) else First(rs, 3);
  }

  /** The counters and fences that the gate looks at are the causes that an observer names. */
  lemma {:induction false} GateLooks(started: real, es: seq<Event>)
    ensures var s := After(started, es);
            && (s.fenced.Some? <==> Faulted(started, es)) && (s.lease.Some? <==> s.adopted != [])
            && (s.adopted != [] ==> s.lease == Some(Held(s)))
            && (s.fenced.None? ==> s.lastMonotonic == LastReading(started, es))
            && (s.cancelRequested <==> CancelledIn(es)) && (s.inFlight.Some? <==> s.pending != NoAction)
            && s.actionsUsed == |s.admitted|
            && (s.pending == NoAction ==> s.wallTimeUsed == Elapsed(started, LastResult(s.journal)))
  {
    RunTold(started, es);
    RunWall(Init(started), es);
    RunKeepsInv(Init(started), es);
  }

  /** After every run, the gate refuses for the first cause that an observer would name, and else admits. */
  lemma {:induction false} GateDecides(started: real, es: seq<Event>, action: Action, now: real)
    ensures Gate(After(started, es), action, now) == First(Reasons(started, es, action, now), 0)
  {
    GateLooks(started, es);
    FirstOfNine(Reasons(started, es, action, now));
  }

  predicate Asked(a: Admission, e: Event, lease: Lease)
    requires e.Perform?
  {
    && a.lease == lease && a.now == e.now
    && a.intent.action == e.action && a.intent.keyChord == e.keyChord && a.intent.text == e.text
    && a.intent.intentAtUtc == e.utc && a.intent.leaseId == lease.leaseId && a.intent.epoch == lease.epoch
  }

  /** Exactly the actions that nothing speaks against are admitted, as they were asked for, under the lease held. */
  lemma {:induction false} AdmittedIff(started: real, es: seq<Event>, e: Event)
    requires e.Perform?
    ensures var s, t := After(started, es), After(started, es + [e]);
            && t.dispatched == s.dispatched && t.journal == s.journal
            && |t.admitted| == |s.admitted| + (if First(Reasons(started, es, e.action, e.now), 0).None? then 1 else 0)
            && (|t.admitted| > |s.admitted| ==>
                  && s.adopted != [] && t.admitted[..|s.admitted|] == s.admitted
                  && Asked(t.admitted[|s.admitted|], e, Held(s)))
  {
    GateLooks(started, es);
    GateDecides(started, es, e.action, e.now);
    RunSnoc(Init(started), es, e);
  }

  /** Once a result was read at or after the wall-time budget of the lease held, nothing more is admitted under it. */
  lemma {:induction false} WallTimeExhausted(started: real, es: seq<Event>, e: Event)
    requires e.Perform?
    requires var s := After(started, es);
             s.journal != [] && s.adopted != [] && s.journal[|s.journal| - 1].dispatchedAt.Some?
             && (s.journal[|s.journal| - 1].dispatchedAt.value - started) / 1000.0 >= Held(s).maxWallTime
    ensures var s, t := After(started, es), After(started, es + [e]);
            t.admitted == s.admitted && t.dispatched == s.dispatched
  {
    var rs := Reasons(started, es, e.action, e.now);
    assert rs[7].holds;
    FirstOfNine(rs);
    AdmittedIff(started, es, e);
    RunSnoc(Init(started), es, e);
  }

  lemma {:induction false} AdoptedRow(s: State, e: Event)
    requires e.AdoptLease?
    ensures Step(s, e).adopted == s.adopted + if MayAdopt(s, e.lease) then [e.lease] else []
  {
    assert s.adopted + [] == s.adopted;
  }

  /** Epochs only rise, so the lease held has the highest. */
  lemma {:induction false} HighestHeld(s: State, epoch: nat)
    requires Inv(s)
    ensures (s.lease.Some? ==> s.lease.value.epoch < epoch) <==> forall l <- s.adopted :: l.epoch < epoch
  {
    if s.adopted != [] {
      assert Held(s) in s.adopted;
    }
  }

  /** A lease is adopted exactly while nothing has fenced, and only when its epoch is above every earlier one. */
  lemma {:induction false} AdoptedIff(started: real, es: seq<Event>, e: Event)
    requires e.AdoptLease?
    ensures var s, t := After(started, es), After(started, es + [e]);
            t.adopted == s.adopted + if !Faulted(started, es) && (forall l <- s.adopted :: l.epoch < e.lease.epoch)
                                     then [e.lease] else []
  {
    GateLooks(started, es);
    RunKeepsInv(Init(started), es);
    RunSnoc(Init(started), es, e);
    AdoptedRow(After(started, es), e);
    HighestHeld(After(started, es), e.lease.epoch);
  }
}
