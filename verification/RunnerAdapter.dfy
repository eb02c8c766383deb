/** The reader adapter: what holds whenever it is entered, and when it can no longer be entered. */
module RunnerAdapter {
  import opened Basics
  import opened Supervision
  import opened SupervisionRuns
  import opened Runner
  import opened RunnerInv

  /** The callback has not reached the adapter yet. */
  predicate BeforeAdapter(k: Cont) {
    Active(k) && !k.InAdapter? && !k.Observing?
  }

  predicate PastPreflight(k: Cont) {
    Active(k) && !k.Preflighting? && !k.RetainingPreflight?
  }

  /** The command's own intent is in the flushed journal, under the server's identity for it. */
  predicate IntentIn(journal: seq<Entry>, c: Command) {
    exists e <- journal ::
      e.result.None? && e.serverActionId == Some(c.actionId) && e.sequence == c.sequence && SameWork(e, c)
  }

  predicate PassedIn(retained: seq<Preflight>, c: Command) {
    Preflight(c.actionId, true) in retained
  }

  /** A continuing callback works on the last committed command, durable and preflighted as far as it has come. */
  predicate ContKnown(k: Cont, commands: seq<Command>, journal: seq<Entry>, retained: seq<Preflight>) {
    Active(k) ==>
      && commands != [] && k.c == commands[|commands| - 1]
      && IntentIn(journal, k.c)
      && (PastPreflight(k) ==> PassedIn(retained, k.c))
  }

  /** A callback that is still going belongs to the suspended `perform`, or everything is fenced. */
  predicate ContOwned(s: Runner) {
    Active(s.cont) ==>
      || s.fenced
      || (s.pc.Supervised?
          && (s.sup.pending.Dispatching?
              || (HasOutcome(s.sup.pending) && s.sup.pending.outcome.result == Some(Ambiguous))))
      || (s.pc.Returned? && (s.pc.outcome.Rejected? || s.pc.outcome == Settled(Ambiguous)))
  }

  predicate EnteredBacked(entered: seq<Command>, commands: seq<Command>, journal: seq<Entry>,
                          retained: seq<Preflight>) {
    forall c <- entered :: c in commands && IntentIn(journal, c) && PassedIn(retained, c)
  }

  /** The current command may still enter the adapter. */
  predicate MayYetEnter(s: Runner) {
    BeforeAdapter(s.cont) || (s.pc.Supervised? && (s.sup.pending.FlushingIntent? || s.sup.pending.IntentDurable?))
  }

  predicate Rising(entered: seq<Command>) {
    forall i, j :: 0 <= i < j < |entered| ==> entered[i].sequence < entered[j].sequence
  }

  predicate Below(entered: seq<Command>, bound: int) {
    forall c <- entered :: c.sequence <= bound
  }

  function Bound(s: Runner): int {
    |s.commands| - if MayYetEnter(s) then 1 else 0
  }

  predicate AdapterInv(s: Runner) {
    && ContKnown(s.cont, s.commands, s.journal, s.retained)
    && ContOwned(s)
    && EnteredBacked(s.entered, s.commands, s.journal, s.retained)
    && Rising(s.entered) && Below(s.entered, Bound(s))
  }

  /* ---- inputs that neither move the callback nor commit anything ---- */

  predicate MovesCallback(e: Input) {
    e.DispatchCommitted? || e.DispatchCalled? || e.RaceSettled? || e.Callback?
  }

  /** The callback and its history are the same, and the journal only grows. */
  predicate SameAdapter(s: Runner, t: Runner) {
    t.cont == s.cont && t.commands == s.commands && t.retained == s.retained && t.entered == s.entered
    && Extends(s.journal, t.journal)
  }

  predicate Extends(j: seq<Entry>, longer: seq<Entry>) {
    longer == j || (longer != [] && longer[..|longer| - 1] == j)
  }

  /** What such a step may do to control. */
  predicate KeepsOwner(s: Runner, t: Runner) {
    && (s.fenced ==> t.fenced)
    && (ContOwned(s) ==> ContOwned(t))
    && (MayYetEnter(t) ==> MayYetEnter(s))
  }

  lemma {:induction false} IntentStays(journal: seq<Entry>, longer: seq<Entry>, c: Command)
    requires IntentIn(journal, c) && Extends(journal, longer)
    ensures IntentIn(longer, c)
  {
    var e :|
      e in journal && e.result.None? && e.serverActionId == Some(c.actionId) && e.sequence == c.sequence
      && SameWork(e, c);
    assert e in longer;
  }

  lemma {:induction false} QuietKeeps(s: Runner, t: Runner)
    requires AdapterInv(s) && SameAdapter(s, t) && KeepsOwner(s, t)
    ensures AdapterInv(t)
  {
    if Active(s.cont) {
      IntentStays(s.journal, t.journal, s.cont.c);
    }
    forall c | c in t.entered
      ensures c in t.commands && IntentIn(t.journal, c) && PassedIn(t.retained, c)
    {
      IntentStays(s.journal, t.journal, c);
    }
  }

  lemma {:induction false} QuietFrame(cfg: Config, s: Runner, e: Input)
    requires !MovesCallback(e)
    ensures SameAdapter(s, Advance(cfg, s, e))
  {
  }

  lemma {:induction false} QuietOwner(cfg: Config, s: Runner, e: Input)
    requires PcInv(s) && !MovesCallback(e) && !Drives(e)
    ensures KeepsOwner(s, Advance(cfg, s, e))
  {
  }

  /** An append, a return or a timeout leaves the callback with its owner. */
  lemma {:induction false} FlushOwner(cfg: Config, s: Runner, e: Input)
    requires PcInv(s) && !MovesCallback(e) && Drives(e)
    ensures KeepsOwner(s, Advance(cfg, s, e))
  {
  }

  lemma {:induction false} QuietKeepsAdapter(cfg: Config, s: Runner, e: Input)
    requires AdapterInv(s) && PcInv(s) && !MovesCallback(e)
    ensures AdapterInv(Advance(cfg, s, e))
  {
    QuietFrame(cfg, s, e);
    if Drives(e) { FlushOwner(cfg, s, e); } else { QuietOwner(cfg, s, e); }
    QuietKeeps(s, Advance(cfg, s, e));
  }

  /* ---- inputs that move the callback ---- */

  lemma {:induction false} CommitOwner(cfg: Config, s: Runner, e: Input)
    requires PcInv(s) && e.DispatchCommitted?
    ensures var t := Advance(cfg, s, e);
            && t.cont == s.cont && t.retained == s.retained && t.entered == s.entered && t.journal == s.journal
            && (Commits(s, e) ==> t.commands == s.commands + [e.command] && s.pc.Committing? && !s.fenced)
            && (!Commits(s, e) ==> t.commands == s.commands && KeepsOwner(s, t))
  {
  }

  lemma {:induction false} CommitKeepsAdapter(cfg: Config, s: Runner, e: Input)
    requires AdapterInv(s) && PcInv(s) && CommandsInv(s) && e.DispatchCommitted?
    ensures AdapterInv(Advance(cfg, s, e))
  {
    var t := Advance(cfg, s, e);
    CommitOwner(cfg, s, e);
    if Commits(s, e) {
      assert !Active(s.cont);
      assert Bound(s) == |s.commands| <= Bound(t);
    } else {
      QuietKeeps(s, t);
    }
  }

  /** The race can settle only with a callback that has settled. */
  lemma {:induction false} SettleKeepsAdapter(cfg: Config, s: Runner, e: Input)
    requires AdapterInv(s) && e.RaceSettled?
    ensures AdapterInv(Advance(cfg, s, e))
  {
    assert SupEvent(s, e).None? ==> Advance(cfg, s, e) == s;
  }

  lemma {:induction false} CallKeepsAdapter(cfg: Config, s: Runner, e: Input)
    requires AdapterInv(s) && PcInv(s) && Lockstep(s) && CommandsInv(s) && JournalInv(s.sup) && PendingFacts(s.sup)
    requires s.sup.lease.Some? && e.DispatchCalled?
    ensures AdapterInv(Advance(cfg, s, e))
  {
    if SupEvent(s, e).Some? {
      OpenIntentIn(s);
      CallFrame(cfg, s, e);
      CalledKeeps(s, SupNext(s, e));
    } else {
      assert Advance(cfg, s, e) == s;
    }
  }

  lemma {:induction false} CallFrame(cfg: Config, s: Runner, e: Input)
    requires e.DispatchCalled? && SupEvent(s, e).Some? && s.commands != [] && s.sup.lease.Some?
    ensures Advance(cfg, s, e) == s.(cont := Preflighting(s.commands[|s.commands| - 1]), sup := SupNext(s, e))
    ensures SupNext(s, e).pending.Dispatching?
  {
  }

  lemma {:induction false} CalledKeeps(s: Runner, sup: State)
    requires AdapterInv(s) && s.commands != [] && IntentIn(s.journal, s.commands[|s.commands| - 1])
    requires s.pc.Supervised? && s.sup.pending.IntentDurable? && sup.pending.Dispatching?
    ensures AdapterInv(s.(cont := Preflighting(s.commands[|s.commands| - 1]), sup := sup))
  {
  }

  /** While the supervisor is about to dispatch, the runner's journal ends in the last command's intent. */
  lemma {:induction false} OpenIntentIn(s: Runner)
    requires PcInv(s) && Lockstep(s) && CommandsInv(s) && JournalInv(s.sup) && PendingFacts(s.sup)
    requires s.pc.Supervised? && s.sup.pending.IntentDurable?
    ensures s.commands != [] && IntentIn(s.journal, s.commands[|s.commands| - 1])
  {
    var j, i, n := s.sup.journal, s.sup.pending.intent, |s.commands|;
    assert OpenWith(j, i) && Live(s);
    assert SameWork(s.sup.admitted[n - 1].intent, s.commands[n - 1]);
    assert s.journal[|j| - 1] == Tagged(i, s.commands[n - 1]);
    assert s.journal[|j| - 1] in s.journal;
  }

  lemma {:induction false} CallbackFrame(cfg: Config, s: Runner, e: Input)
    requires e.Callback?
    ensures Advance(cfg, s, e) == s.(cont := ContNext(cfg, s, e.wake), retained := RetainedNext(s, e),
                                     entered := if Enters(cfg, s, e) then s.entered + [s.cont.c] else s.entered)
  {
  }

  /** A step of the callback keeps its command, and enters the adapter only from its last check. */
  lemma {:induction false} ContNextSame(cfg: Config, s: Runner, wake: Wake)
    ensures var k := ContNext(cfg, s, wake);
            && (Active(k) ==> Active(s.cont) && k.c == s.cont.c)
            && (BeforeAdapter(k) ==> BeforeAdapter(s.cont))
            && (PastPreflight(k) ==>
                 PastPreflight(s.cont) || (s.cont.RetainingPreflight? && wake.ContRetained? && s.cont.passed))
            && (k.InAdapter? && !s.cont.InAdapter? ==> s.cont.SeeingOrigin? && Open(s))
  {
  }

  lemma {:induction false} CallbackKeepsAdapter(cfg: Config, s: Runner, e: Input)
    requires AdapterInv(s) && PcInv(s) && CommandsInv(s) && e.Callback?
    ensures AdapterInv(Advance(cfg, s, e))
  {
    var t := Advance(cfg, s, e);
    CallbackFrame(cfg, s, e);
    ContNextSame(cfg, s, e.wake);
    if Enters(cfg, s, e) {
      assert s.cont.c in s.commands && s.cont.c.sequence == |s.commands|;
      assert MayYetEnter(s) && !MayYetEnter(t);
    } else {
      assert MayYetEnter(t) ==> MayYetEnter(s);
    }
  }

  /* ------------------------------------------------------------------ every run */

  /** Everything the steps keep. */
  predicate Safe(cfg: Config, s: Runner) {
    && Inv(s.sup) && OneLease(cfg, s.sup)
    && PcInv(s) && Lockstep(s) && CommandsInv(s) && AdapterInv(s)
  }

  lemma {:induction false} StartSafe(cfg: Config)
    ensures Safe(cfg, Start(cfg))
  {
    StepKeepsInv(Supervision.Init(cfg.started), AdoptLease(cfg.lease));
  }

  lemma {:induction false} AdvanceKeepsAdapter(cfg: Config, s: Runner, e: Input)
    requires AdapterInv(s) && PcInv(s) && Lockstep(s) && CommandsInv(s) && JournalInv(s.sup) && PendingFacts(s.sup)
    requires s.sup.lease.Some?
    ensures AdapterInv(Advance(cfg, s, e))
  {
    if !MovesCallback(e) {
      QuietKeepsAdapter(cfg, s, e);
    } else if e.DispatchCommitted? {
      CommitKeepsAdapter(cfg, s, e);
    } else if e.DispatchCalled? {
      CallKeepsAdapter(cfg, s, e);
    } else if e.RaceSettled? {
      SettleKeepsAdapter(cfg, s, e);
    } else {
      CallbackKeepsAdapter(cfg, s, e);
    }
  }

  lemma {:induction false} AdvanceKeepsSafe(cfg: Config, s: Runner, e: Input)
    requires Safe(cfg, s)
    ensures Safe(cfg, Advance(cfg, s, e))
  {
    PendingKnown(cfg, s.sup);
    AdvanceKeepsSup(cfg, s, e);
    AdvanceKeepsPc(cfg, s, e);
    AdvanceKeepsLockstep(cfg, s, e);
    AdvanceKeepsAdapter(cfg, s, e);
  }

  lemma {:induction false} ExecuteKeepsSafe(cfg: Config, s: Runner, es: seq<Input>)
    requires Safe(cfg, s)
    ensures Safe(cfg, Execute(cfg, s, es))
    decreases |es|
  {
    if es != [] {
      AdvanceKeepsSafe(cfg, s, es[0]);
      ExecuteKeepsSafe(cfg, Advance(cfg, s, es[0]), es[1..]);
    }
  }

  lemma {:induction false} Reachable(cfg: Config, es: seq<Input>)
    ensures Safe(cfg, Execute(cfg, Start(cfg), es))
  {
    StartSafe(cfg);
    ExecuteKeepsSafe(cfg, Start(cfg), es);
  }

  /* ------------------------------------------------------------------ what every run guarantees */

  predicate CommittedIn(rows: seq<Row>, c: Command) {
    exists r <- rows :: r.command == c
  }

  lemma {:induction false} CommittedRow(s: Runner, c: Command)
    requires CommandsInv(s) && c in s.commands
    ensures CommittedIn(s.rows, c)
  {
    var i :| 0 <= i < |s.commands| && s.commands[i] == c;
    assert s.rows[i] in s.rows;
  }

  /**
   * Every command that ever entered the adapter has its intent durable in the journal, is committed
   * by the control plane, and has an all-TRUE preflight retained; and no command enters twice.
   */
  lemma {:induction false} AdapterEntriesBacked(cfg: Config, es: seq<Input>, i: nat)
    requires i < |Execute(cfg, Start(cfg), es).entered|
    ensures var s := Execute(cfg, Start(cfg), es); var c := s.entered[i];
            && IntentIn(s.journal, c) && CommittedIn(s.rows, c) && PassedIn(s.retained, c)
            && forall j :: 0 <= j < i ==> s.entered[j].sequence != c.sequence
  {
    Reachable(cfg, es);
    var s := Execute(cfg, Start(cfg), es);
    assert s.entered[i] in s.entered;
    CommittedRow(s, s.entered[i]);
  }

  /** The state in which a command may enter. */
  predicate MayEnter(s: Runner, c: Command) {
    && IntentIn(s.journal, c) && CommittedIn(s.rows, c) && PassedIn(s.retained, c)
    && s.commands != [] && c == s.commands[|s.commands| - 1]
    && s.busy && s.executing && !s.stopping && !s.fenced
  }

  /** The moment of entry: all of that already holds, `perform` is still suspended, nothing is cancelled or fenced. */
  lemma {:induction false} AdapterEntry(cfg: Config, es: seq<Input>, e: Input)
    ensures var s := Execute(cfg, Start(cfg), es); var t := Advance(cfg, s, e);
            t.entered == s.entered
            || (s.cont.SeeingOrigin? && t.entered == s.entered + [s.cont.c] && MayEnter(s, s.cont.c))
  {
    Reachable(cfg, es);
    EntrySafe(cfg, Execute(cfg, Start(cfg), es), e);
  }

  lemma {:induction false} EntrySafe(cfg: Config, s: Runner, e: Input)
    requires PcInv(s) && CommandsInv(s) && AdapterInv(s)
    ensures var t := Advance(cfg, s, e);
            t.entered == s.entered
            || (s.cont.SeeingOrigin? && t.entered == s.entered + [s.cont.c] && MayEnter(s, s.cont.c))
  {
    OnlyCallbackEnters(cfg, s, e);
    if s.cont.SeeingOrigin? {
      assert s.cont.c in s.commands;
      CommittedRow(s, s.cont.c);
    }
  }

  lemma {:induction false} OnlyCallbackEnters(cfg: Config, s: Runner, e: Input)
    requires PcInv(s)
    ensures var t := Advance(cfg, s, e);
            t.entered == s.entered
            || (e.Callback? && s.cont.SeeingOrigin? && Open(s) && t.entered == s.entered + [s.cont.c])
  {
  }

  /** Fences are permanent, and the runner never leaves its stopping state. */
  lemma {:induction false} FencesStay(cfg: Config, s: Runner, e: Input)
    ensures s.fenced ==> Advance(cfg, s, e).fenced
    ensures s.stopping ==> Advance(cfg, s, e).stopping
  {
  }

  /** After `requestCancellation`, or once fenced, no continuation however late enters the adapter. */
  lemma {:induction false} NeverEnteredAgain(cfg: Config, s: Runner, more: seq<Input>)
    requires Safe(cfg, s) && (s.stopping || s.fenced)
    ensures Execute(cfg, s, more).entered == s.entered
    decreases |more|
  {
    if more != [] {
      AdvanceKeepsSafe(cfg, s, more[0]);
      OnlyCallbackEnters(cfg, s, more[0]);
      FencesStay(cfg, s, more[0]);
      NeverEnteredAgain(cfg, Advance(cfg, s, more[0]), more[1..]);
    }
  }

  lemma {:induction false} CancelledNeverEnters(cfg: Config, s: Runner, more: seq<Input>)
    requires Safe(cfg, s)
    ensures Execute(cfg, Advance(cfg, s, Cancel), more).entered == s.entered
  {
    AdvanceKeepsSafe(cfg, s, Cancel);
    OnlyCallbackEnters(cfg, s, Cancel);
    NeverEnteredAgain(cfg, Advance(cfg, s, Cancel), more);
  }

  /** Whatever can still enter was committed after the first `n` commands. */
  predicate LateInv(s: Runner, n: nat, m: nat) {
    && |s.commands| >= n && |s.entered| >= m
    && (forall k :: m <= k < |s.entered| ==> s.entered[k].sequence > n)
    && (!s.fenced && (s.pc.Supervised? || Active(s.cont)) ==> |s.commands| > n)
  }

  lemma {:induction false} LateStep(cfg: Config, s: Runner, e: Input, n: nat, m: nat)
    requires PcInv(s) && CommandsInv(s) && AdapterInv(s) && LateInv(s, n, m)
    ensures LateInv(Advance(cfg, s, e), n, m)
  {
    OnlyCallbackEnters(cfg, s, e);
    LateControl(cfg, s, e);
  }

  /** Only a commitment starts a `perform` or, through it, a callback. */
  predicate NoneStarted(s: Runner, t: Runner) {
    t.commands == s.commands && (s.fenced ==> t.fenced)
    && (t.pc.Supervised? || Active(t.cont) ==> s.pc.Supervised? || Active(s.cont))
  }

  lemma {:induction false} LateControl(cfg: Config, s: Runner, e: Input)
    requires PcInv(s)
    ensures var t := Advance(cfg, s, e);
            NoneStarted(s, t) || (|t.commands| > |s.commands|)
  {
    if e.Callback? {
      CallbackFrame(cfg, s, e);
      ContNextSame(cfg, s, e.wake);
    }
  }

  lemma {:induction false} LateExecute(cfg: Config, s: Runner, more: seq<Input>, n: nat, m: nat)
    requires Safe(cfg, s) && LateInv(s, n, m)
    ensures LateInv(Execute(cfg, s, more), n, m)
    decreases |more|
  {
    if more != [] {
      AdvanceKeepsSafe(cfg, s, more[0]);
      LateStep(cfg, s, more[0], n, m);
      LateExecute(cfg, Advance(cfg, s, more[0]), more[1..], n, m);
    }
  }

  /**
   * Once `perform` has returned, no continuation of it, nor of any earlier one, enters the adapter:
   * whatever enters later was committed later.
   */
  lemma {:induction false} ReturnedNeverEnters(cfg: Config, es: seq<Input>, more: seq<Input>, k: nat)
    requires !Execute(cfg, Start(cfg), es).busy
    requires |Execute(cfg, Start(cfg), es).entered| <= k < |Execute(cfg, Execute(cfg, Start(cfg), es), more).entered|
    ensures Execute(cfg, Execute(cfg, Start(cfg), es), more).entered[k].sequence > |Execute(cfg, Start(cfg),
                es).commands|
  {
    var s := Execute(cfg, Start(cfg), es);
    Reachable(cfg, es);
    LateExecute(cfg, s, more, |s.commands|, |s.entered|);
  }
}
