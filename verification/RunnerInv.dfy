/** What every step of the runner keeps: the lockstep between runner, supervisor, journal and server. */
module RunnerInv {
  import opened Basics
  import opened Supervision
  import opened SupervisionRuns
  import opened Runner

  predicate Unflushed(p: Pending) {
    p.IntentUnflushed? || p.ResultUnflushed?
  }

  /* ------------------------------------------------------------------ the supervisor component */

  /** The runner adopts one lease, once, so its supervisor numbers its admissions 1, 2, 3, ... */
  predicate OneLease(cfg: Config, s: State) {
    && s.lease == Some(cfg.lease)
    && s.sequence == |s.admitted|
    && forall i :: 0 <= i < |s.admitted| ==> s.admitted[i].intent.sequence == i + 1 && s.admitted[i].lease == cfg.lease
  }

  lemma {:induction false} StepKeepsOneLease(cfg: Config, s: State, e: Event)
    requires OneLease(cfg, s) && !e.AdoptLease?
    ensures OneLease(cfg, Supervision.Step(s, e))
  {
    if Admits(s, e) {
      assert Supervision.Step(s, e).admitted
          == s.admitted + [Admission(IntentFor(s.lease.value, s.sequence + 1, e), s.lease.value, e.now)];
    }
  }

  lemma {:induction false} AdvanceKeepsSup(cfg: Config, s: Runner, e: Input)
    requires Inv(s.sup) && OneLease(cfg, s.sup)
    ensures Inv(Advance(cfg, s, e).sup) && OneLease(cfg, Advance(cfg, s, e).sup)
  {
    assert Advance(cfg, s, e).sup == SupNext(s, e);
    if SupEvent(s, e).Some? {
      var x := SupEvent(s, e).value;
      assert !x.AdoptLease?;
      StepKeepsInv(s.sup, x);
      StepKeepsOneLease(cfg, s.sup, x);
    }
  }

  /** What the lockstep needs to know about the suspended action. */
  predicate PendingFacts(s: State) {
    && Engaged(s)
    && (s.pending != NoAction ==> s.admitted != [] && s.pending.intent == s.admitted[|s.admitted| - 1].intent)
    && (s.pending != NoAction ==> s.pending.intent.sequence == |s.admitted|)
    && (HasOutcome(s.pending) ==> s.pending.outcome.sequence == |s.admitted|)
    && (s.pending.ResultDurable? ==> s.journal != [] && s.journal[|s.journal| - 1] == s.pending.outcome)
    && (s.pending.ResultDurable? ==> |Results(s.journal)| == |s.admitted|)
  }

  function Results(j: seq<Entry>): seq<Entry> {
    if j == [] then [] else
      var last := j[|j| - 1];
      Results(j[..|j| - 1]) + if last.result.Some? then [last] else []
  }

  lemma {:induction false} ResultsAppend(j: seq<Entry>, e: Entry)
    ensures Results(j + [e]) == Results(j) + if e.result.Some? then [e] else []
  {
    assert (j + [e])[..|j|] == j;
  }

  lemma {:induction false} PairedCounts(j: seq<Entry>)
    requires Paired(j)
    ensures |j| == 2 * |Intents(j)| && |Results(j)| == |Intents(j)|
    decreases |j|
  {
    if j != [] {
      var shorter := j[..|j| - 2];
      PairedCounts(shorter);
      assert j[..|j| - 1] == shorter + [j[|j| - 2]];
      IntentsAppend(shorter, j[|j| - 2]);
      ResultsAppend(shorter, j[|j| - 2]);
    }
  }

  lemma {:induction false} PendingKnown(cfg: Config, s: State)
    requires Inv(s) && OneLease(cfg, s)
    ensures PendingFacts(s)
  {
    if s.pending.ResultDurable? {
      PairedCounts(s.journal);
      assert |IntentsOf(s.admitted)| == |s.admitted|;
      assert Intents(s.journal) + [] == Intents(s.journal);
    }
  }

  /* ------------------------------------------------------------------ control flow */

  predicate ControlInv(s: Runner) {
    && (s.busy <==> !s.pc.Idle?)
    && (PreCommit(s.pc) || s.pc.Supervised? ==> !s.fenced)
    && (s.executing ==> s.pc.Supervised? || s.pc.Returned?)
    && (s.pc.Recovering? ==> s.fenced)
    && (s.pc.Completing? && s.pc.status.Ambiguous? ==> s.fenced)
    && (s.stopSucceeded ==> s.stopping && (s.pc.Idle? || s.pc.Closing? || s.pc.Posting?))
  }

  /** `perform` awaits the supervisor exactly while the supervisor is in an action it can still finish. */
  predicate CoupledInv(s: Runner) {
    && (s.pc.Supervised? <==> s.sup.pending != NoAction && !Unflushed(s.sup.pending))
    && (Unflushed(s.sup.pending) ==> s.fenced || s.pc.Returned?)
    && (Unflushed(s.sup.pending) && s.pc.Returned? ==> s.pc.outcome.Rejected?)
  }

  predicate PcInv(s: Runner) {
    ControlInv(s) && CoupledInv(s)
  }

  /** `pc` and the flags it goes with. */
  lemma {:induction false} AdvanceKeepsBusy(cfg: Config, s: Runner, e: Input)
    requires PcInv(s)
    ensures var t := Advance(cfg, s, e);
            && (t.busy <==> !t.pc.Idle?)
            && (t.executing ==> t.pc.Supervised? || t.pc.Returned?)
            && (t.stopSucceeded ==> t.stopping && (t.pc.Idle? || t.pc.Closing? || t.pc.Posting?))
  {
  }

  lemma {:induction false} AdvanceKeepsFence(cfg: Config, s: Runner, e: Input)
    requires PcInv(s)
    ensures var t := Advance(cfg, s, e);
            && (PreCommit(t.pc) || t.pc.Supervised? ==> !t.fenced)
            && (t.pc.Recovering? ==> t.fenced)
            && (t.pc.Completing? && t.pc.status.Ambiguous? ==> t.fenced)
  {
  }

  /** Only these events move the supervisor's suspended call. */
  predicate Drives(e: Input) {
    e.DispatchCommitted? || e.IntentFlushed? || e.DispatchCalled? || e.RaceSettled? || e.RaceTimedOut?
    || e.ResultFlushed? || e.SupervisorReturns?
  }

  lemma {:induction false} DriveKeepsCoupled(cfg: Config, s: Runner, e: Input)
    requires PcInv(s) && Engaged(s.sup) && Drives(e)
    ensures CoupledInv(Advance(cfg, s, e))
  {
  }

  lemma {:induction false} OtherKeepsCoupled(cfg: Config, s: Runner, e: Input)
    requires PcInv(s) && !Drives(e)
    ensures CoupledInv(Advance(cfg, s, e))
  {
    assert SupNext(s, e).pending == s.sup.pending;
  }

  lemma {:induction false} AdvanceKeepsPc(cfg: Config, s: Runner, e: Input)
    requires PcInv(s) && Engaged(s.sup)
    ensures PcInv(Advance(cfg, s, e))
  {
    AdvanceKeepsBusy(cfg, s, e);
    AdvanceKeepsFence(cfg, s, e);
    if Drives(e) { DriveKeepsCoupled(cfg, s, e); } else { OtherKeepsCoupled(cfg, s, e); }
  }

  /* ------------------------------------------------------------------ the lockstep */

  /** No failure so far: the runner could still finish cleanly. */
  predicate Live(s: Runner) {
    !s.fenced && !(s.pc.Returned? && !s.pc.outcome.Settled?)
  }

  /** Between numbering an action and the server's commitment of it. */
  function Ahead(pc: Pc): nat {
    if pc.RetainingIntent? || pc.Committing? then 1 else 0
  }

  /** Between the server's commitment and the acknowledgement of the result. */
  predicate PostCommit(pc: Pc) {
    pc.Supervised? || pc.Returned? || pc.Completing?
  }

  /** The result that is known but not yet acknowledged. */
  function StatusOf(pc: Pc): Option<Status> {
    if pc.Completing? then Some(pc.status)
    else if pc.Returned? && pc.outcome.Settled? then Some(pc.outcome.status)
    else None
  }

  predicate SameWork(i: Entry, c: Command) {
    i.action == c.action && i.keyChord == c.keyChord && i.text == c.text
  }

  predicate Numbered(commands: seq<Command>, rows: seq<Row>) {
    && |rows| == |commands|
    && forall i :: 0 <= i < |commands| ==> commands[i].sequence == i + 1 && rows[i].command == commands[i]
  }

  predicate CommandsInv(s: Runner) {
    Numbered(s.commands, s.rows)
  }

  /** The journal is the supervisor's, each entry tagged with the server's identity for its action. */
  predicate TagsMatch(journal: seq<Entry>, supJournal: seq<Entry>, commands: seq<Command>) {
    && |journal| == |supJournal|
    && forall k :: 0 <= k < |journal| ==>
         && 1 <= supJournal[k].sequence <= |commands|
         && journal[k] == Tagged(supJournal[k], commands[supJournal[k].sequence - 1])
  }

  /** The first `n` acknowledged results are the first `n` journaled ones. */
  predicate RowsMatch(rows: seq<Row>, results: seq<Entry>, n: int) {
    0 <= n <= |rows| && n <= |results| && forall k :: 0 <= k < n ==> rows[k].status == results[k].result
  }

  /** A known but unacknowledged result is the last journaled one. */
  predicate StatusMatches(status: Option<Status>, n: nat, results: seq<Entry>) {
    status.Some? ==> 0 < n == |results| && results[n - 1].result == status
  }

  predicate WorkMatches(admitted: seq<Admission>, commands: seq<Command>) {
    |admitted| == |commands| && forall i :: 0 <= i < |commands| ==> SameWork(admitted[i].intent, commands[i])
  }

  function Settled(s: Runner): int {
    |s.rows| - if PostCommit(s.pc) then 1 else 0
  }

  /** Runner sequence, supervisor sequence and command count advance together; journal and rows follow. */
  predicate Lockstep(s: Runner) {
    Live(s) ==>
      && s.sequence == |s.commands| + Ahead(s.pc)
      && WorkMatches(s.sup.admitted, s.commands)
      && TagsMatch(s.journal, s.sup.journal, s.commands)
      && RowsMatch(s.rows, Results(s.sup.journal), Settled(s))
      && StatusMatches(StatusOf(s.pc), |s.rows|, Results(s.sup.journal))
  }

  /* ---- what one step can do to the lockstep ---- */

  datatype Effect =
    | NoChange                              // nothing tracked changes
    | Numbering                             // the action gets its sequence number
    | Commitment(a: Admission, c: Command)  // committed by the server and admitted by the supervisor
    | Journaling(e: Entry)                  // one more entry in both journals
    | Returning(status: Status)             // the supervisor returns the result
    | Acknowledgement(status: Status)       // the server acknowledges the result
    | Death                                 // some failure: the runner is live no more
    | Refusal(c: Command)                   // committed by the server, refused by the supervisor's gate

  predicate SameCommands(s: Runner, t: Runner) {
    t.commands == s.commands && |t.rows| == |s.rows|
    && forall i :: 0 <= i < |s.rows| ==> t.rows[i].command == s.rows[i].command
  }

  predicate SameJournals(s: Runner, t: Runner) {
    t.journal == s.journal && t.sup.journal == s.sup.journal
  }

  predicate SameData(s: Runner, t: Runner) {
    && t.commands == s.commands && t.rows == s.rows && t.sequence == s.sequence
    && t.sup.admitted == s.sup.admitted && SameJournals(s, t)
  }

  predicate SameStage(s: Runner, t: Runner) {
    && (Live(t) ==> Live(s))
    && (Live(t) ==>
         Ahead(t.pc) == Ahead(s.pc) && PostCommit(t.pc) == PostCommit(s.pc) && StatusOf(t.pc) == StatusOf(s.pc))
  }

  predicate Has(s: Runner, t: Runner, f: Effect) {
    match f
    case NoChange => SameData(s, t) && SameStage(s, t)
    case Numbering =>
      && SameData(s, t.(sequence := s.sequence)) && t.sequence == s.sequence + 1
      && Live(s) && s.pc.LocatingOrigin? && t.pc.RetainingIntent?
    case Commitment(a, c) =>
      && Live(s) && s.pc.Committing? && t.pc.Supervised? && t.sequence == s.sequence == c.sequence
      && t.commands == s.commands + [c] && t.rows == s.rows + [Row(c, None)]
      && t.sup.admitted == s.sup.admitted + [a] && SameWork(a.intent, c) && SameJournals(s, t)
    case Journaling(e) =>
      && t.commands == s.commands && t.rows == s.rows && t.sequence == s.sequence && t.sup.admitted == s.sup.admitted
      && s.commands != [] && e.sequence == |s.sup.admitted|
      && t.sup.journal == s.sup.journal + [e]
      && t.journal == s.journal + [Tagged(e, s.commands[|s.commands| - 1])]
      && SameStage(s, t) && s.pc.Supervised? && t.pc.Supervised?
    case Returning(status) =>
      && SameData(s, t) && (Live(t) ==> Live(s)) && s.pc.Supervised? && t.pc.Returned? && StatusOf(t.pc) == Some(status)
      && s.sup.journal != [] && s.sup.journal[|s.sup.journal| - 1].result == Some(status)
      && |Results(s.sup.journal)| == |s.sup.admitted|
    case Acknowledgement(status) =>
      && (Live(t) ==> Live(s)) && s.pc.Completing? && s.pc.status == status && t.pc.Idle?
      && t.rows == SetLastStatus(s.rows, status) && SameData(s, t.(rows := s.rows))
    case Death => !Live(t) && SameCommands(s, t)
    case Refusal(c) =>
      !Live(t) && Live(s) && s.pc.Committing? && s.sequence == c.sequence && t.commands == s.commands + [c]
      && t.rows == s.rows + [Row(c, None)]
  }

  lemma {:induction false} NumberedAppend(commands: seq<Command>, rows: seq<Row>, c: Command)
    requires Numbered(commands, rows) && c.sequence == |commands| + 1
    ensures Numbered(commands + [c], rows + [Row(c, None)])
  {
  }

  lemma {:induction false} WorkAppend(admitted: seq<Admission>, commands: seq<Command>, a: Admission, c: Command)
    requires WorkMatches(admitted, commands) && SameWork(a.intent, c)
    ensures WorkMatches(admitted + [a], commands + [c])
  {
  }

  lemma {:induction false} TagsGrow(journal: seq<Entry>, supJournal: seq<Entry>, commands: seq<Command>, c: Command)
    requires TagsMatch(journal, supJournal, commands)
    ensures TagsMatch(journal, supJournal, commands + [c])
  {
  }

  lemma {:induction false} TagsAppend(journal: seq<Entry>, supJournal: seq<Entry>, commands: seq<Command>, e: Entry)
    requires TagsMatch(journal, supJournal, commands) && 1 <= e.sequence == |commands|
    ensures TagsMatch(journal + [Tagged(e, commands[|commands| - 1])], supJournal + [e], commands)
  {
  }

  lemma {:induction false} RowsGrow(rows: seq<Row>, results: seq<Entry>, n: int, r: Row)
    requires RowsMatch(rows, results, n)
    ensures RowsMatch(rows + [r], results, n)
  {
  }

  lemma {:induction false} ResultsLonger(rows: seq<Row>, results: seq<Entry>, n: int, e: Entry)
    requires RowsMatch(rows, results, n)
    ensures RowsMatch(rows, results + if e.result.Some? then [e] else [], n)
  {
  }

  lemma {:induction false} CommitKeeps(s: Runner, t: Runner, a: Admission, c: Command)
    requires Lockstep(s) && CommandsInv(s) && Has(s, t, Commitment(a, c))
    ensures Lockstep(t) && CommandsInv(t)
  {
    NumberedAppend(s.commands, s.rows, c);
    CommitLocks(s, t, a, c);
  }

  lemma {:induction false} CommitLocks(s: Runner, t: Runner, a: Admission, c: Command)
    requires Lockstep(s) && |s.rows| == |s.commands| && Has(s, t, Commitment(a, c))
    ensures Lockstep(t)
  {
    CommitMatches(s, a, c);
    assert Ahead(t.pc) == 0 && StatusOf(t.pc).None?;
    assert Settled(t) == |s.rows|;
  }

  /** The new command has an admission, an untagged row, and nothing in the journal yet. */
  lemma {:induction false} CommitMatches(s: Runner, a: Admission, c: Command)
    requires Live(s) && Lockstep(s) && s.pc.Committing? && SameWork(a.intent, c)
    ensures WorkMatches(s.sup.admitted + [a], s.commands + [c])
    ensures TagsMatch(s.journal, s.sup.journal, s.commands + [c])
    ensures RowsMatch(s.rows + [Row(c, None)], Results(s.sup.journal), |s.rows|)
  {
    WorkAppend(s.sup.admitted, s.commands, a, c);
    TagsGrow(s.journal, s.sup.journal, s.commands, c);
    RowsGrow(s.rows, Results(s.sup.journal), |s.rows|, Row(c, None));
  }

  lemma {:induction false} JournalKeeps(s: Runner, t: Runner, e: Entry)
    requires Lockstep(s) && CommandsInv(s) && Has(s, t, Journaling(e))
    ensures Lockstep(t) && CommandsInv(t)
  {
    if Live(t) {
      JournalMatches(s, e);
    }
  }

  lemma {:induction false} JournalMatches(s: Runner, e: Entry)
    requires Live(s) && Lockstep(s) && s.commands != [] && e.sequence == |s.sup.admitted|
    ensures TagsMatch(s.journal + [Tagged(e, s.commands[|s.commands| - 1])], s.sup.journal + [e], s.commands)
    ensures RowsMatch(s.rows, Results(s.sup.journal + [e]), Settled(s))
  {
    ResultsAppend(s.sup.journal, e);
    TagsAppend(s.journal, s.sup.journal, s.commands, e);
    ResultsLonger(s.rows, Results(s.sup.journal), Settled(s), e);
  }

  lemma {:induction false} RevealKeeps(s: Runner, t: Runner, status: Status)
    requires Lockstep(s) && CommandsInv(s) && Has(s, t, Returning(status))
    ensures Lockstep(t) && CommandsInv(t)
  {
    var j := s.sup.journal;
    assert Results(j)[|Results(j)| - 1] == j[|j| - 1];
  }

  lemma {:induction false} AcknowledgeKeeps(s: Runner, t: Runner, status: Status)
    requires Lockstep(s) && CommandsInv(s) && Has(s, t, Acknowledgement(status))
    ensures Lockstep(t) && CommandsInv(t)
  {
    if Live(t) {
      assert RowsMatch(t.rows, Results(t.sup.journal), Settled(t));
    }
  }

  lemma {:induction false} EffectKeeps(s: Runner, t: Runner, f: Effect)
    requires Lockstep(s) && CommandsInv(s) && Has(s, t, f)
    ensures Lockstep(t) && CommandsInv(t)
  {
    match f
    case Commitment(a, c) => CommitKeeps(s, t, a, c);
    case Journaling(e) => JournalKeeps(s, t, e);
    case Returning(status) => RevealKeeps(s, t, status);
    case Acknowledgement(status) => AcknowledgeKeeps(s, t, status);
    case Refusal(c) => NumberedAppend(s.commands, s.rows, c);
    case NoChange =>
    case Numbering =>
    case Death =>
  }

  /* ---- which of these each input does ---- */

  lemma {:induction false} CommitEffect(cfg: Config, s: Runner, e: Input) returns (f: Effect)
    requires PcInv(s) && e.DispatchCommitted?
    ensures Has(s, Advance(cfg, s, e), f)
  {
    if Commits(s, e) && Gate(s.sup, e.command.action, e.now).None? && s.sup.lease.Some? {
      var x := Perform(e.command.action, e.command.keyChord, e.command.text, e.now, e.utc);
      f := Commitment(Admission(NewIntent(s.sup, x), s.sup.lease.value, e.now), e.command);
    } else {
      f := if Commits(s, e) then Refusal(e.command) else if s.pc.Committing? then Death else NoChange;
    }
  }

  lemma {:induction false} IntentEffect(cfg: Config, s: Runner, e: Input) returns (f: Effect)
    requires PcInv(s) && PendingFacts(s.sup) && e.IntentFlushed?
    ensures Has(s, Advance(cfg, s, e), f)
  {
    f := if SupEvent(s, e) == Some(IntentAppended) then Journaling(s.sup.pending.intent)
         else if SupEvent(s, e).Some? then Death else NoChange;
  }

  lemma {:induction false} ResultEffect(cfg: Config, s: Runner, e: Input) returns (f: Effect)
    requires PcInv(s) && PendingFacts(s.sup) && e.ResultFlushed?
    ensures Has(s, Advance(cfg, s, e), f)
  {
    f := if SupEvent(s, e) == Some(ResultAppended) then Journaling(s.sup.pending.outcome)
         else if SupEvent(s, e).Some? then Death else NoChange;
  }

  lemma {:induction false} ReturnEffect(cfg: Config, s: Runner, e: Input) returns (f: Effect)
    requires PcInv(s) && PendingFacts(s.sup) && e.SupervisorReturns?
    ensures Has(s, Advance(cfg, s, e), f)
  {
    f := if s.pc.Supervised? && s.sup.pending.ResultDurable? then Returning(s.sup.pending.outcome.result.value)
        else NoChange;
  }

  lemma {:induction false} PrepareEffect(cfg: Config, s: Runner, e: Input) returns (f: Effect)
    requires PcInv(s) && (e.OriginSeen? || e.ActionCompleted?)
    ensures Has(s, Advance(cfg, s, e), f)
  {
    f := if Numbers(s, e) then Numbering
         else if e.ActionCompleted? && s.pc.Completing? then Acknowledgement(s.pc.status)
         else if e.ActionCompleted? && s.pc.Recovering? then Death
         else NoChange;
  }

  lemma {:induction false} OtherEffect(cfg: Config, s: Runner, e: Input)
    requires PcInv(s) && !e.DispatchCommitted? && !e.IntentFlushed? && !e.ResultFlushed? && !e.SupervisorReturns?
    requires !e.OriginSeen? && !e.ActionCompleted?
    ensures SameData(s, Advance(cfg, s, e)) && SameStage(s, Advance(cfg, s, e))
  {
  }

  lemma {:induction false} EffectOf(cfg: Config, s: Runner, e: Input) returns (f: Effect)
    requires PcInv(s) && PendingFacts(s.sup)
    ensures Has(s, Advance(cfg, s, e), f)
  {
    match e
    case DispatchCommitted(_, _, _) => f := CommitEffect(cfg, s, e);
    case IntentFlushed(_) => f := IntentEffect(cfg, s, e);
    case ResultFlushed(_) => f := ResultEffect(cfg, s, e);
    case SupervisorReturns => f := ReturnEffect(cfg, s, e);
    case OriginSeen(_) => f := PrepareEffect(cfg, s, e);
    case ActionCompleted => f := PrepareEffect(cfg, s, e);
    case _ => OtherEffect(cfg, s, e); f := NoChange;
  }

  lemma {:induction false} AdvanceKeepsLockstep(cfg: Config, s: Runner, e: Input)
    requires PcInv(s) && Lockstep(s) && CommandsInv(s) && PendingFacts(s.sup)
    ensures Lockstep(Advance(cfg, s, e)) && CommandsInv(Advance(cfg, s, e))
  {
    var f := EffectOf(cfg, s, e);
    EffectKeeps(s, Advance(cfg, s, e), f);
  }
}
