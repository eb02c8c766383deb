/**
 * A run without any fault that the server nevertheless refuses: two actions, the second one's result
 * read from a clock that lags behind the first's. The same runs show that clean stops exist.
 */
module RunnerWitness {
  import opened Basics
  import opened Supervision
  import opened JournalFile
  import opened JournalValidator
  import opened Runner
  import opened RunnerAdapter
  import opened RunnerStop
  import opened RunnerAgreement

  ghost predicate Reaches(cfg: Config, s: Runner, t: Runner) {
    exists es :: Execute(cfg, s, es) == t
  }

  lemma {:induction false} ExecuteAppend(cfg: Config, s: Runner, es: seq<Input>, e: Input)
    ensures Execute(cfg, s, es + [e]) == Advance(cfg, Execute(cfg, s, es), e)
    decreases |es|
  {
    if es == [] {
      assert [e][1..] == [];
      assert Execute(cfg, s, [e]) == Execute(cfg, Advance(cfg, s, e), []);
    } else {
      assert (es + [e])[0] == es[0] && (es + [e])[1..] == es[1..] + [e];
      ExecuteAppend(cfg, Advance(cfg, s, es[0]), es[1..], e);
    }
  }

  lemma {:induction false} ReachNext(cfg: Config, s: Runner, t: Runner, e: Input)
    requires Reaches(cfg, s, t)
    ensures Reaches(cfg, s, Advance(cfg, t, e))
  {
    var es :| Execute(cfg, s, es) == t;
    ExecuteAppend(cfg, s, es, e);
  }

  lemma {:induction false} ReachSelf(cfg: Config, s: Runner)
    ensures Reaches(cfg, s, s)
  {
    assert Execute(cfg, s, []) == s;
  }

  /** Nothing is going on and nothing stands in the way of the next action. */
  predicate Ready(cfg: Config, s: Runner) {
    && s.pc.Idle? && !s.busy && !s.fenced && !s.stopping && s.cont.NoCont?
    && (s.started || EntriesRead(cfg, s) == [])
    && s.sup.pending.NoAction? && s.sup.fenced.None? && s.sup.lease == Some(cfg.lease) && s.sup.sequence == s.sequence
    && !cfg.formEffects
  }

  const ORIGIN := "https://app.test"

  function Intent(s: Runner, lease: Lease, c: Command, now: real): Entry {
    IntentFor(lease, s.sup.sequence + 1, Perform(c.action, c.keyChord, c.text, now, ""))
  }

  /** The runner while the supervisor flushes the intent of `c`. */
  function Begun(cfg: Config, s: Runner, c: Command, now: real): Runner {
    s.(busy := true, started := true, origin := ORIGIN, sequence := s.sequence + 1, rows := s.rows + [Row(c, None)],
       commands := s.commands + [c], executing := true, aborted := false, pc := Supervised(c.actionId),
       sup := Supervision.Step(s.sup, Perform(c.action, c.keyChord, c.text, now, "")))
  }

  predicate Admissible(cfg: Config, s: Runner, c: Command, now: real) {
    Ready(cfg, s) && c.sequence == s.sequence + 1 && Gate(s.sup, c.action, now).None?
  }

  /* ---- one step each ---- */

  lemma {:induction false} RequestStep(cfg: Config, s0: Runner, s: Runner, req: Request) returns (t: Runner)
    requires Ready(cfg, s)
    requires Reaches(cfg, s0, s)
    ensures Reaches(cfg, s0, t)
    ensures t == s.(busy := true, pc := if s.started then Probing(req) else ReadingJournal(req))
  {
    ReachNext(cfg, s0, s, RequestPerform(req));
    t := Advance(cfg, s, RequestPerform(req));
  }

  lemma {:induction false} JournalStep(cfg: Config, s0: Runner, s: Runner) returns (t: Runner)
    requires s.pc.ReadingJournal? && EntriesRead(cfg, s) == []
    requires Reaches(cfg, s0, s)
    ensures Reaches(cfg, s0, t)
    ensures t == s.(started := true, pc := Probing(s.pc.req))
  {
    ReachNext(cfg, s0, s, JournalRead);
    t := Advance(cfg, s, JournalRead);
  }

  lemma {:induction false} ProbeStep(cfg: Config, s0: Runner, s: Runner) returns (t: Runner)
    requires s.pc.Probing?
    requires Reaches(cfg, s0, s)
    ensures Reaches(cfg, s0, t)
    ensures t == s.(pc := LocatingOrigin(s.pc.req))
  {
    ReachNext(cfg, s0, s, Probed(true));
    t := Advance(cfg, s, Probed(true));
  }

  lemma {:induction false} OriginStep(cfg: Config, s0: Runner, s: Runner) returns (t: Runner)
    requires s.pc.LocatingOrigin? && !s.stopping
    requires Reaches(cfg, s0, s)
    ensures Reaches(cfg, s0, t)
    ensures t == s.(origin := ORIGIN, sequence := s.sequence + 1, pc := RetainingIntent(s.pc.req))
  {
    ReachNext(cfg, s0, s, OriginSeen(ORIGIN));
    t := Advance(cfg, s, OriginSeen(ORIGIN));
  }

  lemma {:induction false} RetainStep(cfg: Config, s0: Runner, s: Runner, id: string) returns (t: Runner)
    requires s.pc.RetainingIntent?
    requires Reaches(cfg, s0, s)
    ensures Reaches(cfg, s0, t)
    ensures t == s.(pc := Committing(s.pc.req, id))
  {
    ReachNext(cfg, s0, s, IntentRetained(id));
    t := Advance(cfg, s, IntentRetained(id));
  }

  lemma {:induction false} CommitStep(cfg: Config, s0: Runner, s: Runner, c: Command, now: real) returns (t: Runner)
    requires s.pc.Committing? && Accepted(s, s.pc.req, s.pc.id, c) && Gate(s.sup, c.action, now).None?
    requires Reaches(cfg, s0, s)
    ensures Reaches(cfg, s0, t)
    ensures t == s.(rows := s.rows + [Row(c, None)], commands := s.commands + [c], executing := true, aborted := false,
               pc := Supervised(c.actionId), sup := Supervision.Step(s.sup,
                   Perform(c.action, c.keyChord, c.text, now, "")))
  {
    ReachNext(cfg, s0, s, DispatchCommitted(c, now, ""));
    t := Advance(cfg, s, DispatchCommitted(c, now, ""));
  }

  lemma {:induction false} Prepares(cfg: Config, s0: Runner, s: Runner, req: Request, id: string) returns (t: Runner)
    requires Ready(cfg, s) && Reaches(cfg, s0, s)
    ensures Reaches(cfg, s0, t)
    ensures t
                == s.(busy := true, started := true, origin := ORIGIN, sequence := s.sequence + 1,
                    pc := Committing(req, id))
  {
    t := RequestStep(cfg, s0, s, req);
    if !s.started {
      t := JournalStep(cfg, s0, t);
    }
    t := ProbeStep(cfg, s0, t);
    t := OriginStep(cfg, s0, t);
    t := RetainStep(cfg, s0, t, id);
  }

  lemma {:induction false} Begin(cfg: Config, s0: Runner, s: Runner, c: Command, now: real)
    requires Admissible(cfg, s, c, now) && Reaches(cfg, s0, s)
    ensures Reaches(cfg, s0, Begun(cfg, s, c, now))
  {
    var t := Prepares(cfg, s0, s, Request(c.action, c.keyChord), c.actionId);
    t := CommitStep(cfg, s0, t, c, now);
  }

  /** `perform` awaits the supervisor, whose only command is the last one, and nothing has gone wrong. */
  predicate Working(cfg: Config, s: Runner, c: Command) {
    && s.pc.Supervised? && s.commands != [] && s.commands[|s.commands| - 1] == c
    && Open(s) && !s.aborted && s.origin == ORIGIN && s.sup.lease.Some? && !cfg.formEffects
  }

  lemma {:induction false} FlushStep(cfg: Config, s0: Runner, s: Runner, c: Command) returns (t: Runner)
    requires Working(cfg, s, c) && s.sup.pending.FlushingIntent? && s.sup.pending.intent.sequence == c.sequence
    requires Reaches(cfg, s0, s)
    ensures Reaches(cfg, s0, t)
    ensures t == s.(journal := s.journal + [Tagged(s.sup.pending.intent, c)],
               sup := s.sup.(pending := IntentDurable(s.sup.pending.intent),
                   journal := s.sup.journal + [s.sup.pending.intent]))
  {
    ReachNext(cfg, s0, s, Input.IntentFlushed(true));
    t := Advance(cfg, s, Input.IntentFlushed(true));
  }

  lemma {:induction false} CallStep(cfg: Config, s0: Runner, s: Runner, c: Command) returns (t: Runner)
    requires Working(cfg, s, c) && s.sup.pending.IntentDurable?
    requires Reaches(cfg, s0, s)
    ensures Reaches(cfg, s0, t)
    ensures t == s.(cont := Preflighting(c), sup := Supervision.Step(s.sup, CallDispatch))
  {
    ReachNext(cfg, s0, s, DispatchCalled);
    t := Advance(cfg, s, DispatchCalled);
  }

  lemma {:induction false} CallbackStep(cfg: Config, s0: Runner, s: Runner, wake: Wake) returns (t: Runner)
    requires !s.cont.RetainingPreflight? && !s.cont.SeeingOrigin?
    requires Reaches(cfg, s0, s)
    ensures Reaches(cfg, s0, t)
    ensures t == s.(cont := ContNext(cfg, s, wake))
  {
    ReachNext(cfg, s0, s, Callback(wake));
    t := Advance(cfg, s, Callback(wake));
  }

  lemma {:induction false} PreflightStep(cfg: Config, s0: Runner, s: Runner, c: Command) returns (t: Runner)
    requires Working(cfg, s, c) && s.cont == RetainingPreflight(c, true)
    requires Reaches(cfg, s0, s)
    ensures Reaches(cfg, s0, t)
    ensures t == s.(cont := Authorizing(c), retained := s.retained + [Preflight(c.actionId, true)])
  {
    ReachNext(cfg, s0, s, Callback(ContRetained));
    t := Advance(cfg, s, Callback(ContRetained));
  }

  lemma {:induction false} EnterStep(cfg: Config, s0: Runner, s: Runner, c: Command) returns (t: Runner)
    requires Working(cfg, s, c) && s.cont == SeeingOrigin(c)
    requires Reaches(cfg, s0, s)
    ensures Reaches(cfg, s0, t)
    ensures t == s.(cont := InAdapter(c), entered := s.entered + [c])
  {
    ReachNext(cfg, s0, s, Callback(ContOrigin(ORIGIN, true)));
    t := Advance(cfg, s, Callback(ContOrigin(ORIGIN, true)));
  }

  /** The dispatch callback from its call to its retained preflight. */
  lemma {:induction false} Preflights(cfg: Config, s0: Runner, s: Runner, c: Command) returns (t: Runner)
    requires Working(cfg, s, c) && s.sup.pending.IntentDurable? && Reaches(cfg, s0, s)
    ensures Reaches(cfg, s0, t)
    ensures t
                == s.(cont := Authorizing(c), sup := Supervision.Step(s.sup, CallDispatch),
                    retained := s.retained + [Preflight(c.actionId, true)])
    ensures Working(cfg, t, c)
  {
    t := CallStep(cfg, s0, s, c);
    t := CallbackStep(cfg, s0, t, ContProbed(true, true));
    t := PreflightStep(cfg, s0, t, c);
  }

  lemma {:induction false} AuthorizeStep(cfg: Config, s0: Runner, s: Runner, c: Command) returns (t: Runner)
    requires Working(cfg, s, c) && s.cont == Authorizing(c)
    requires Reaches(cfg, s0, s)
    ensures Reaches(cfg, s0, t)
    ensures t == s.(cont := SeeingOrigin(c))
  {
    ReachNext(cfg, s0, s, Callback(ContAuthorized));
    t := Advance(cfg, s, Callback(ContAuthorized));
  }

  lemma {:induction false} AnswerStep(cfg: Config, s0: Runner, s: Runner, c: Command) returns (t: Runner)
    requires s.cont == InAdapter(c)
    requires Reaches(cfg, s0, s)
    ensures Reaches(cfg, s0, t)
    ensures t == s.(cont := Resolved(true))
  {
    t := CallbackStep(cfg, s0, s, ContAdapter(true, false));
  }

  /** From there to the adapter's answer. */
  lemma {:induction false} Acts(cfg: Config, s0: Runner, s: Runner, c: Command) returns (t: Runner)
    requires Working(cfg, s, c) && s.cont == Authorizing(c) && Reaches(cfg, s0, s)
    ensures Reaches(cfg, s0, t)
    ensures t == s.(cont := Resolved(true), entered := s.entered + [c])
  {
    t := AuthorizeStep(cfg, s0, s, c);
    t := EnterStep(cfg, s0, t, c);
    t := AnswerStep(cfg, s0, t, c);
  }

  lemma {:induction false} SettleStep(cfg: Config, s0: Runner, s: Runner, later: real) returns (t: Runner)
    requires s.pc.Supervised? && s.sup.pending.Dispatching? && s.cont == Resolved(true)
    requires Reaches(cfg, s0, s)
    ensures Reaches(cfg, s0, t)
    ensures var i := s.sup.pending.intent;
            t
            == s.(cont := NoCont, sup := s.sup.(wallTimeUsed := (later - s.sup.startedMonotonic) / 1000.0,
                                                pending := FlushingResult(i, ResultFor(i, Succeeded, later))))
  {
    ReachNext(cfg, s0, s, RaceSettled(later));
    t := Advance(cfg, s, RaceSettled(later));
  }

  lemma {:induction false} ResultStep(cfg: Config, s0: Runner, s: Runner, c: Command) returns (t: Runner)
    requires s.pc.Supervised? && s.commands != [] && s.commands[|s.commands| - 1] == c
             && s.sup.pending.FlushingResult? && s.sup.pending.outcome.sequence == c.sequence
    requires Reaches(cfg, s0, s)
    ensures Reaches(cfg, s0, t)
    ensures t == s.(journal := s.journal + [Tagged(s.sup.pending.outcome, c)],
               sup := s.sup.(pending := ResultDurable(s.sup.pending.intent, s.sup.pending.outcome),
                   journal := s.sup.journal + [s.sup.pending.outcome]))
  {
    ReachNext(cfg, s0, s, Input.ResultFlushed(true));
    t := Advance(cfg, s, Input.ResultFlushed(true));
  }

  lemma {:induction false} ReturnStep(cfg: Config, s0: Runner, s: Runner) returns (t: Runner)
    requires s.pc.Supervised? && s.sup.pending.ResultDurable? && s.sup.pending.outcome.result == Some(Succeeded)
    requires Reaches(cfg, s0, s)
    ensures Reaches(cfg, s0, t)
    ensures t
                == s.(pc := Returned(s.pc.id, Outcome.Settled(Succeeded)),
                    sup := s.sup.(pending := NoAction, inFlight := None))
  {
    ReachNext(cfg, s0, s, SupervisorReturns);
    t := Advance(cfg, s, SupervisorReturns);
  }

  lemma {:induction false} ResumeStep(cfg: Config, s0: Runner, s: Runner) returns (t: Runner)
    requires s.pc.Returned? && s.pc.outcome == Outcome.Settled(Succeeded)
    requires Reaches(cfg, s0, s)
    ensures Reaches(cfg, s0, t)
    ensures t == s.(aborted := true, executing := false, pc := Completing(s.pc.id, Succeeded))
  {
    ReachNext(cfg, s0, s, Resume);
    t := Advance(cfg, s, Resume);
  }

  function Stopped(s: Runner, stop: bool): Runner {
    s.(aborted := true, executing := false, busy := false, pc := Idle, stopping := s.stopping || stop,
       stopSucceeded := stop || s.stopSucceeded, sup := s.sup.(cancelRequested := s.sup.cancelRequested || stop))
  }

  lemma {:induction false} CompleteStep(cfg: Config, s0: Runner, s: Runner, c: Command) returns (t: Runner)
    requires s.pc.Completing? && s.pc.status == Succeeded && s.commands != [] && s.commands[|s.commands| - 1] == c
    requires Reaches(cfg, s0, s)
    ensures Reaches(cfg, s0, t)
    ensures t == Stopped(s.(rows := SetLastStatus(s.rows, Succeeded)), c.action.Stop?)
  {
    ReachNext(cfg, s0, s, ActionCompleted);
    t := Advance(cfg, s, ActionCompleted);
  }

  /** From the callback's answer to the flushed result. */
  lemma {:induction false} Records(cfg: Config, s0: Runner, s: Runner, c: Command, later: real) returns (t: Runner)
    requires Working(cfg, s, c) && s.sup.pending.Dispatching? && s.cont == Resolved(true) && Reaches(cfg, s0, s)
    requires s.sup.pending.intent.sequence == c.sequence
    ensures Reaches(cfg, s0, t) && Working(cfg, t, c)
    ensures t == Recorded(s.(cont := NoCont), c, s.sup.pending.intent, later)
  {
    var u := SettleStep(cfg, s0, s, later);
    t := ResultStep(cfg, s0, u, c);
  }

  /** The runner once the result of `c`, read at `later`, is flushed. */
  function Recorded(s: Runner, c: Command, i: Entry, later: real): Runner {
    var r := ResultFor(i, Succeeded, later);
    s.(journal := s.journal + [Tagged(r, c)],
       sup := s.sup.(wallTimeUsed := (later - s.sup.startedMonotonic) / 1000.0, pending := ResultDurable(i, r),
                     journal := s.sup.journal + [r]))
  }

  /** From there to `perform`'s return. */
  lemma {:induction false} Concludes(cfg: Config, s0: Runner, s: Runner, c: Command) returns (t: Runner)
    requires Working(cfg, s, c) && s.sup.pending.ResultDurable? && s.sup.pending.outcome.result == Some(Succeeded)
    requires Reaches(cfg, s0, s)
    ensures Reaches(cfg, s0, t)
    ensures t
                == Stopped(s.(rows := SetLastStatus(s.rows, Succeeded),
                    sup := s.sup.(pending := NoAction, inFlight := None)),
                         c.action.Stop?)
  {
    t := ComesBack(cfg, s0, s, c);
    t := CompleteStep(cfg, s0, t, c);
  }

  lemma {:induction false} ComesBack(cfg: Config, s0: Runner, s: Runner, c: Command) returns (t: Runner)
    requires Working(cfg, s, c) && s.sup.pending.ResultDurable? && s.sup.pending.outcome.result == Some(Succeeded)
    requires Reaches(cfg, s0, s)
    ensures Reaches(cfg, s0, t)
    ensures t == s.(aborted := true, executing := false, pc := Completing(s.pc.id, Succeeded),
                    sup := s.sup.(pending := NoAction, inFlight := None))
  {
    t := ReturnStep(cfg, s0, s);
    t := ResumeStep(cfg, s0, t);
  }

  /** What one clean action leaves behind. */
  predicate Acted(s: Runner, t: Runner, c: Command, now: real, later: real) {
    && t.pc.Idle? && !t.busy && !t.fenced && t.cont.NoCont? && t.started
    && t.stopping == t.stopSucceeded == t.sup.cancelRequested == c.action.Stop?
    && t.sequence == t.sup.sequence == s.sequence + 1 && t.commands == s.commands + [c]
    && |t.journal| == |s.journal| + 2 && t.journal[..|s.journal|] == s.journal
       && t.journal[|s.journal| + 1].dispatchedAt == Some(later)
    && t.journal[|s.journal|].dispatchedAt.None?
    && t.sup.pending.NoAction? && t.sup.inFlight.None? && t.sup.fenced.None? && t.sup.lease == s.sup.lease
    && t.sup.lastMonotonic == now && t.sup.actionsUsed == s.sup.actionsUsed + 1
    && t.sup.wallTimeUsed == (later - s.sup.startedMonotonic) / 1000.0
       && t.sup.startedMonotonic == s.sup.startedMonotonic
  }

  /** The runner while the supervisor is about to dispatch `c`. */
  function Flushed(cfg: Config, s: Runner, c: Command, now: real): Runner {
    var b, i := Begun(cfg, s, c, now), Intent(s, cfg.lease, c, now);
    b.(journal := s.journal + [Tagged(i, c)],
        sup := b.sup.(pending := IntentDurable(i), journal := s.sup.journal + [i]))
  }

  lemma {:induction false} Flushes(cfg: Config, s0: Runner, s: Runner, c: Command, now: real)
    requires Admissible(cfg, s, c, now) && Reaches(cfg, s0, s)
    ensures Reaches(cfg, s0, Flushed(cfg, s, c, now)) && Working(cfg, Flushed(cfg, s, c, now), c)
  {
    Begin(cfg, s0, s, c, now);
    var b := Begun(cfg, s, c, now);
    var t := FlushStep(cfg, s0, b, c);
  }

  /** The runner while the reader adapter's answer for `c` awaits the supervisor. */
  function Answered(cfg: Config, s: Runner, c: Command, now: real): Runner {
    var f := Flushed(cfg, s, c, now);
    f.(cont := Resolved(true), sup := Supervision.Step(f.sup, CallDispatch),
       retained := f.retained + [Preflight(c.actionId, true)], entered := f.entered + [c])
  }

  lemma {:induction false} AdapterAnswers(cfg: Config, s0: Runner, s: Runner, c: Command, now: real)
    requires Admissible(cfg, s, c, now) && Reaches(cfg, s0, s)
    ensures Reaches(cfg, s0, Answered(cfg, s, c, now)) && Working(cfg, Answered(cfg, s, c, now), c)
    ensures Answered(cfg, s, c, now).sup.pending == Dispatching(Intent(s, cfg.lease, c, now))
  {
    Flushes(cfg, s0, s, c, now);
    var t := Preflights(cfg, s0, Flushed(cfg, s, c, now), c);
    t := Acts(cfg, s0, t, c);
  }

  /** Every admissible action can run to its end without a fault, whatever the clock reads at its result. */
  lemma {:induction false} ActionRuns(cfg: Config, s0: Runner, s: Runner, c: Command, now: real, later: real)
    returns (t: Runner)
    requires Admissible(cfg, s, c, now) && !s.stopSucceeded && !s.sup.cancelRequested && Reaches(cfg, s0, s)
    ensures Reaches(cfg, s0, t) && Acted(s, t, c, now, later)
  {
    AdapterAnswers(cfg, s0, s, c, now);
    var u := Records(cfg, s0, Answered(cfg, s, c, now), c, later);
    t := Concludes(cfg, s0, u, c);
  }

  const LEASE := Lease("lease", 1, 100.0, 10, 60.0)

  /** A runner over a journal file that was found to hold `initial`. */
  function Over(c: Codec, initial: string): Config {
    Config(LEASE, false, 0.0, c, initial)
  }

  lemma {:induction false} StartReady(c: Codec, initial: string)
    requires Read(c, initial) == []
    ensures Ready(Over(c, initial), Start(Over(c, initial)))
    ensures var s := Start(Over(c, initial));
            !s.stopSucceeded && !s.sup.cancelRequested && s.sequence == 0 && s.journal == [] && s.commands == []
            && s.entered == []
  {
    assert initial + "" == initial;
  }

  /** Two clean actions, the second a STOP, admitted at 0 and 1 with results read at `first` and `second`. */
  lemma {:induction false} TwoActions(c: Codec, initial: string, first: real, second: real) returns (es: seq<Input>)
    requires Read(c, initial) == [] && first < 60000.0
    ensures var s := Execute(Over(c, initial), Start(Over(c, initial)), es);
            CleanStop(s) && TwoPairs(s.journal, first, second)
  {
    var cfg := Over(c, initial);
    var s1 := FirstAction(c, initial, first);
    StopAdmissible(c, initial, s1, first);
    var s2 := ActionRuns(cfg, Start(cfg), s1, SECOND, 1.0, second);
    TwoActed(c, initial, s1, s2, first, second);
    es :| Execute(cfg, Start(cfg), es) == s2;
  }

  lemma {:induction false} FirstAction(c: Codec, initial: string, first: real) returns (s: Runner)
    requires Read(c, initial) == []
    ensures var cfg := Over(c, initial); Reaches(cfg, Start(cfg), s) && Acted(Start(cfg), s, FIRST, 0.0, first)
  {
    var cfg := Over(c, initial);
    StartReady(c, initial);
    ReachSelf(cfg, Start(cfg));
    s := ActionRuns(cfg, Start(cfg), Start(cfg), FIRST, 0.0, first);
  }

  predicate TwoPairs(j: seq<Entry>, first: real, second: real) {
    && |j| == 4 && j[0].dispatchedAt.None? && j[1].dispatchedAt == Some(first)
    && j[2].dispatchedAt.None? && j[3].dispatchedAt == Some(second)
  }

  lemma {:induction false} TwoActed(c: Codec, initial: string, s1: Runner, s2: Runner, first: real, second: real)
    requires Acted(Start(Over(c, initial)), s1, FIRST, 0.0, first) && Acted(s1, s2, SECOND, 1.0, second)
    ensures CleanStop(s2) && TwoPairs(s2.journal, first, second)
  {
    assert |Start(Over(c, initial)).journal| == 0;
    assert s2.journal[..2] == s1.journal;
  }

  const FIRST := Command("a", 1, Next, None, None)
  const SECOND := Command("b", 2, Stop, None, None)

  lemma {:induction false} StopAdmissible(c: Codec, initial: string, s: Runner, first: real)
    requires Acted(Start(Over(c, initial)), s, FIRST, 0.0, first) && first < 60000.0
    ensures Admissible(Over(c, initial), s, SECOND, 1.0)
  {
    assert s.sup.wallTimeUsed < 60.0;
  }

  lemma {:induction false} FourWritable(c: Codec, j: seq<Entry>, first: real, second: real)
    requires c.finite(first) && c.finite(second) && TwoPairs(j, first, second)
    ensures AllWritable(c, j)
  {
  }

  /**
   * A clean stop that `finish` accepts and the server refuses: the second result is read at 2, after
   * one at 10, while the gate saw 0 and 1. With readings in order the same run is accepted.
   */
  lemma {:induction false} LaggingClockRefused(w: Wire) returns (es: seq<Input>)
    requires Agreeing(w) && w.codec.finite(10.0) && w.codec.finite(2.0)
    ensures var cfg := Over(w.codec, ""); var s := Execute(cfg, Start(cfg), es);
            CleanStop(s) && ChecksOut(cfg, s) && !Accepts(w, LEASE, FileOf(cfg, s), s.rows)
  {
    ReadTail(w.codec, "");
    es := TwoActions(w.codec, "", 10.0, 2.0);
    var j := Execute(Over(w.codec, ""), Start(Over(w.codec, "")), es).journal;
    LagsBehind(j);
    FourWritable(w.codec, j, 10.0, 2.0);
    ProducerMeetsValidator(Over(w.codec, ""), es, w);
  }

  lemma {:induction false} LagsBehind(j: seq<Entry>)
    requires TwoPairs(j, 10.0, 2.0)
    ensures !ReadingsRise(j)
  {
    assert !RisesAt(j, 1);
  }

  /* ------------------------------------------------------------------ starting behind a torn line */

  /** A crash left the first `k` bytes of a line. */
  predicate TornLine(c: Codec, torn: Entry, k: nat) {
    Writable(c, torn) && 0 < k < |c.encode(torn)|
  }

  lemma {:induction false} TornReadsEmpty(c: Codec, torn: Entry, k: nat)
    requires Lawful(c) && TornLine(c, torn, k)
    ensures var t := c.encode(torn)[..k]; LF !in t && !Blank(t) && Read(c, t) == []
  {
    var t := c.encode(torn)[..k];
    ReadTail(c, t);
    assert t[0] == '{' && t[0] in t;
  }

  /**
   * A runner that starts on a file with a torn first line: it runs, its intent is flushed and its
   * command enters the reader adapter, and yet the file reads as empty. A crash now leaves a report
   * that finds nothing unresolved and asks for no quarantine.
   */
  lemma {:induction false} TornStartHidesDispatch(c: Codec, torn: Entry, k: nat) returns (es: seq<Input>)
    requires Lawful(c) && TornLine(c, torn, k)
    ensures var cfg := Over(c, c.encode(torn)[..k]); var s := Execute(cfg, Start(cfg), es);
            && |s.entered| == 1 && |s.journal| == 1 && s.journal[0].result.None?
            && EntriesRead(cfg, s) == [] && Report(EntriesRead(cfg, s)) == RecoveryReport([], false)
  {
    var t := c.encode(torn)[..k];
    var cfg := Over(c, t);
    TornReadsEmpty(c, torn, k);
    es := EntersOnce(c, t);
    ReadBehindTorn(c, t, Execute(cfg, Start(cfg), es).journal);
  }

  lemma {:induction false} EntersOnce(c: Codec, initial: string) returns (es: seq<Input>)
    requires Read(c, initial) == []
    ensures var cfg := Over(c, initial); var s := Execute(cfg, Start(cfg), es);
            && |s.entered| == 1 && |s.journal| == 1 && s.journal[0].result.None? && s.journal[0].dispatchedAt.None?
  {
    var cfg, a := Over(c, initial), FIRST;
    var s0 := Start(cfg);
    StartReady(c, initial);
    ReachSelf(cfg, s0);
    AdapterAnswers(cfg, s0, s0, a, 0.0);
    es :| Execute(cfg, s0, es) == Answered(cfg, s0, a, 0.0);
  }

  /** And if nothing crashes, the session runs to a clean STOP that `finish` then refuses. */
  lemma {:induction false} TornStartCannotFinish(c: Codec, torn: Entry, k: nat) returns (es: seq<Input>)
    requires Lawful(c) && TornLine(c, torn, k) && c.finite(1.0) && c.finite(2.0)
    ensures var cfg := Over(c, c.encode(torn)[..k]); var s := Execute(cfg, Start(cfg), es);
            CleanStop(s) && !ChecksOut(cfg, s)
  {
    var t := c.encode(torn)[..k];
    TornReadsEmpty(c, torn, k);
    es := TwoActions(c, t, 1.0, 2.0);
    FourWritable(c, Execute(Over(c, t), Start(Over(c, t)), es).journal, 1.0, 2.0);
    ReachableFinishable(Over(c, t), es);
    StopChecksOut(Over(c, t), Execute(Over(c, t), Start(Over(c, t)), es));
  }
}
