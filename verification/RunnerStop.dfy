/** What `finish` finds in the journal file after a clean stop, and when it goes on to the control plane. */
module RunnerStop {
  import opened Basics
  import opened Supervision
  import opened SupervisionRuns
  import opened JournalFile
  import opened Runner
  import opened RunnerInv
  import opened RunnerAdapter

  /* ------------------------------------------------------------------ three more invariants */

  /** A successful stop is the last command, and the last result the control plane acknowledged. */
  predicate StopInv(s: Runner) {
    s.stopSucceeded ==>
      && s.commands != [] && |s.rows| == |s.commands|
      && s.commands[|s.commands| - 1].action.Stop? && s.rows[|s.rows| - 1].status == Some(Succeeded)
  }

  /** `finish` posts at most once, and only behind its fence. */
  predicate PostInv(s: Runner) {
    s.posted <= 1 && (!s.fenced || s.pc.Closing? ==> s.posted == 0) && (s.pc.Closing? ==> s.fenced)
  }

  /** The first `perform` found a file that reads as empty; before that nothing was appended. */
  predicate BegunInv(cfg: Config, s: Runner) {
    if s.started then Read(cfg.codec, cfg.initial) == []
    else s.commands == [] && s.journal == [] && (s.pc.Idle? || s.pc.ReadingJournal?)
  }

  lemma {:induction false} AdvanceKeepsStop(cfg: Config, s: Runner, e: Input)
    requires StopInv(s) && PcInv(s) && CommandsInv(s)
    ensures StopInv(Advance(cfg, s, e))
  {
    if !e.ActionCompleted? && !e.DispatchCommitted? {
      assert Advance(cfg, s, e).commands == s.commands && Advance(cfg, s, e).rows == s.rows;
    }
  }

  lemma {:induction false} AdvanceKeepsPost(cfg: Config, s: Runner, e: Input)
    requires PostInv(s) && PcInv(s)
    ensures PostInv(Advance(cfg, s, e))
  {
  }

  /** Only a read that finds the file empty gets the first `perform` past its first `await`. */
  lemma {:induction false} AdvanceKeepsBegun(cfg: Config, s: Runner, e: Input)
    requires BegunInv(cfg, s) && PcInv(s) && !s.started && !s.stopSucceeded
    ensures BegunInv(cfg, Advance(cfg, s, e))
  {
    assert FileOf(cfg, s) == cfg.initial;
    assert !Commits(s, e) && !Journals(s, e);
    BegunPc(cfg, s, e);
  }

  lemma {:induction false} BegunPc(cfg: Config, s: Runner, e: Input)
    requires PcInv(s) && !s.started && !s.stopSucceeded && (s.pc.Idle? || s.pc.ReadingJournal?)
    ensures FindsEmpty(cfg, s, e) || Advance(cfg, s, e).pc.Idle? || Advance(cfg, s, e).pc.ReadingJournal?
  {
  }

  predicate Finishable(cfg: Config, s: Runner) {
    Safe(cfg, s) && StopInv(s) && PostInv(s) && BegunInv(cfg, s)
  }

  lemma {:induction false} AdvanceKeepsFinishable(cfg: Config, s: Runner, e: Input)
    requires Finishable(cfg, s)
    ensures Finishable(cfg, Advance(cfg, s, e))
  {
    AdvanceKeepsSafe(cfg, s, e);
    AdvanceKeepsStop(cfg, s, e);
    AdvanceKeepsPost(cfg, s, e);
    if s.started {
      assert Advance(cfg, s, e).started;
    } else {
      AdvanceKeepsBegun(cfg, s, e);
    }
  }

  lemma {:induction false} ExecuteKeepsFinishable(cfg: Config, s: Runner, es: seq<Input>)
    requires Finishable(cfg, s)
    ensures Finishable(cfg, Execute(cfg, s, es))
    decreases |es|
  {
    if es != [] {
      AdvanceKeepsFinishable(cfg, s, es[0]);
      ExecuteKeepsFinishable(cfg, Advance(cfg, s, es[0]), es[1..]);
    }
  }

  lemma {:induction false} ReachableFinishable(cfg: Config, es: seq<Input>)
    ensures Finishable(cfg, Execute(cfg, Start(cfg), es))
  {
    StartSafe(cfg);
    ExecuteKeepsFinishable(cfg, Start(cfg), es);
  }

  /* ------------------------------------------------------------------ the journal of a clean stop */

  /** The guard of `finish`. */
  predicate CleanStop(s: Runner) {
    !s.busy && !s.fenced && s.stopSucceeded && MayAcknowledgeStop(s.sup)
  }

  lemma {:induction false} PairedIndex(j: seq<Entry>, k: nat)
    requires Paired(j) && k < |Intents(j)|
    ensures |j| == 2 * |Intents(j)| && |Results(j)| == |Intents(j)|
    ensures j[2 * k] == Intents(j)[k] && j[2 * k + 1] == Results(j)[k] && Answers(j[2 * k], j[2 * k + 1])
    decreases |j|
  {
    PairedCounts(j);
    var shorter := j[..|j| - 2];
    assert j[..|j| - 1] == shorter + [j[|j| - 2]];
    IntentsAppend(shorter, j[|j| - 2]);
    ResultsAppend(shorter, j[|j| - 2]);
    if k < |Intents(shorter)| {
      PairedIndex(shorter, k);
    } else {
      PairedCounts(shorter);
    }
  }

  /** The `k`-th pair of a clean journal, field by field, against the control plane's `k`-th row. */
  predicate CleanAt(j: seq<Entry>, rows: seq<Row>, lease: Lease, k: nat) {
    && 2 * k + 1 < |j| && k < |rows|
    && var i, r, c := j[2 * k], j[2 * k + 1], rows[k].command;
    && i.result.None? && i.dispatchedAt.None? && i.ambiguity.None?
    && r.dispatchedAt.Some? && (rows[k].status == Some(Succeeded) || rows[k].status == Some(Failed))
    && r == i.(dispatchedAt := r.dispatchedAt, result := rows[k].status)
    && i.actionId == ActionId(lease.leaseId, lease.epoch, k + 1)
    && i.serverActionId == Some(c.actionId)
    && i.leaseId == lease.leaseId && i.epoch == lease.epoch
    && i.sequence == k + 1 == c.sequence
    && SameWork(i, c)
  }

  /** The `k`-th pair of a supervisor journal with nothing pending and nothing ambiguous. */
  predicate SettledAt(j: seq<Entry>, lease: Lease, k: nat) {
    && 2 * k + 1 < |j|
    && var i, r := j[2 * k], j[2 * k + 1];
    && i.result.None? && i.dispatchedAt.None? && i.ambiguity.None?
    && r.dispatchedAt.Some? && (r.result == Some(Succeeded) || r.result == Some(Failed))
    && r == i.(dispatchedAt := r.dispatchedAt, result := r.result)
    && i.actionId == ActionId(lease.leaseId, lease.epoch, k + 1)
    && i.leaseId == lease.leaseId && i.epoch == lease.epoch && i.sequence == k + 1
  }

  lemma {:induction false} SettledPair(cfg: Config, s: State, k: nat)
    requires Paired(s.journal) && FenceInv(s) && s.fenced.None? && Intents(s.journal) == IntentsOf(s.admitted)
    requires k < |s.admitted| && AdmissionOk(s.admitted[k], k)
    requires s.admitted[k].intent.sequence == k + 1 && s.admitted[k].lease == cfg.lease
    ensures |s.journal| == 2 * |s.admitted| && |Results(s.journal)| == |s.admitted|
    ensures SettledAt(s.journal, cfg.lease, k)
    ensures s.journal[2 * k] == s.admitted[k].intent && s.journal[2 * k + 1] == Results(s.journal)[k]
  {
    var j := s.journal;
    assert Intents(j)[k] == s.admitted[k].intent;
    PairedIndex(j, k);
    assert j[2 * k + 1] in j;
  }

  lemma {:induction false} StoppedSup(cfg: Config, s: State, k: nat)
    requires Inv(s) && OneLease(cfg, s) && s.pending == NoAction && s.fenced.None? && k < |s.admitted|
    ensures |s.journal| == 2 * |s.admitted| && |Results(s.journal)| == |s.admitted|
    ensures SettledAt(s.journal, cfg.lease, k)
    ensures s.journal[2 * k] == s.admitted[k].intent && s.journal[2 * k + 1] == Results(s.journal)[k]
  {
    assert Intents(s.journal) + [] == Intents(s.journal);
    SettledPair(cfg, s, k);
  }

  lemma {:induction false} TaggedPair(s: Runner, lease: Lease, k: nat)
    requires k < |s.commands| && CommandsInv(s)
    requires WorkMatches(s.sup.admitted, s.commands) && TagsMatch(s.journal, s.sup.journal, s.commands)
    requires RowsMatch(s.rows, Results(s.sup.journal), |s.rows|)
    requires SettledAt(s.sup.journal, lease, k)
    requires |Results(s.sup.journal)| == |s.commands|
    requires s.sup.journal[2 * k] == s.sup.admitted[k].intent && s.sup.journal[2 * k + 1] == Results(s.sup.journal)[k]
    ensures CleanAt(s.journal, s.rows, lease, k)
  {
    assert s.rows[k].status == Results(s.sup.journal)[k].result;
    assert s.journal[2 * k] == Tagged(s.sup.journal[2 * k], s.commands[k]);
    assert s.journal[2 * k + 1] == Tagged(s.sup.journal[2 * k + 1], s.commands[k]);
  }

  lemma {:induction false} CleanPairAt(cfg: Config, s: Runner, k: nat)
    requires Safe(cfg, s) && CleanStop(s) && k < |s.commands|
    ensures |s.journal| == 2 * |s.commands| && |s.rows| == |s.commands| && CleanAt(s.journal, s.rows, cfg.lease, k)
  {
    StoppedSup(cfg, s.sup, k);
    assert Live(s) && RunnerInv.Settled(s) == |s.rows|;
    TaggedPair(s, cfg.lease, k);
  }

  /* ------------------------------------------------------------------ `finish`'s own check */

  /** The entries of a clean stop, alone in the file, pass. */
  lemma {:induction false} CleanTail(cfg: Config, s: Runner)
    requires Safe(cfg, s) && StopInv(s) && CleanStop(s)
    ensures |s.journal| == 2 * |s.commands| && s.journal != [] && TailChecks(s.journal, s.commands, cfg.lease)
  {
    CleanPairs(cfg, s);
    CleanPairAt(cfg, s, |s.commands| - 1);
    CleanLast(s, cfg.lease);
  }

  lemma {:induction false} CleanPairs(cfg: Config, s: Runner)
    requires Safe(cfg, s) && CleanStop(s) && s.commands != []
    ensures |s.journal| == 2 * |s.commands|
    ensures forall k :: 0 <= k < |s.commands| ==> TailPair(s.journal, s.commands, cfg.lease, k)
  {
    CleanPairTail(cfg, s, 0);
    forall k | 0 <= k < |s.commands|
      ensures TailPair(s.journal, s.commands, cfg.lease, k)
    {
      CleanPairTail(cfg, s, k);
    }
  }

  lemma {:induction false} CleanPairTail(cfg: Config, s: Runner, k: nat)
    requires Safe(cfg, s) && CleanStop(s) && k < |s.commands|
    ensures |s.journal| == 2 * |s.commands| && TailPair(s.journal, s.commands, cfg.lease, k)
  {
    CleanPairAt(cfg, s, k);
    CleanTailPair(s.journal, s.rows, s.commands, cfg.lease, k);
  }

  lemma {:induction false} CleanTailPair(j: seq<Entry>, rows: seq<Row>, commands: seq<Command>, lease: Lease, k: nat)
    requires |j| == 2 * |commands| && k < |commands| == |rows| && rows[k].command == commands[k]
             && CleanAt(j, rows, lease, k)
    ensures TailPair(j, commands, lease, k)
  {
  }

  /** The last pair is the STOP's. */
  lemma {:induction false} CleanLast(s: Runner, lease: Lease)
    requires s.stopSucceeded && StopInv(s) && CommandsInv(s)
    requires |s.journal| == 2 * |s.commands| && CleanAt(s.journal, s.rows, lease, |s.commands| - 1)
    ensures s.journal[|s.journal| - 1].result == Some(Succeeded) && s.journal[|s.journal| - 1].action.Stop?
  {
    var k := |s.commands| - 1;
    assert s.journal[|s.journal| - 1] == s.journal[2 * k + 1];
    assert s.rows[k].command.action.Stop?;
  }

  /** After a clean stop the file's own check passes exactly when nothing but white space stood on its last line. */
  lemma {:induction false} StopChecksOut(cfg: Config, s: Runner)
    requires Finishable(cfg, s) && CleanStop(s) && Lawful(cfg.codec) && AllWritable(cfg.codec, s.journal)
    ensures ChecksOut(cfg, s) <==> Blank(Torn(cfg.initial))
  {
    CleanTail(cfg, s);
    ReadBehind(cfg.codec, cfg.initial, s.journal);
    assert |s.journal[1..]| < 2 * |s.commands|;
  }

  /**
   * In every run, from every file the runner was given: after a clean stop, `finish` reaches the
   * control plane if and only if what followed the file's last newline when the runner started was
   * JSON white space. A file left torn by a crash passes the runner's first check, which only asks
   * whether the file reads as empty, and then no clean stop can be finished.
   */
  lemma {:induction false} FinishPostsIff(cfg: Config, es: seq<Input>)
    requires CleanStop(Execute(cfg, Start(cfg), es))
    requires Lawful(cfg.codec) && AllWritable(cfg.codec, Execute(cfg, Start(cfg), es).journal)
    ensures var s := Execute(cfg, Start(cfg), es);
            var t := Advance(cfg, Advance(cfg, s, RequestFinish), FinishRead);
            && Read(cfg.codec, cfg.initial) == [] && s.posted == 0
            && t.posted == (if Blank(Torn(cfg.initial)) then 1 else 0)
            && (t.pc.Posting? <==> Blank(Torn(cfg.initial)))
  {
    var s := Execute(cfg, Start(cfg), es);
    ReachableFinishable(cfg, es);
    StopChecksOut(cfg, s);
    FinishReads(cfg, s);
  }

  lemma {:induction false} FinishReads(cfg: Config, s: Runner)
    requires CleanStop(s)
    ensures var t := Advance(cfg, Advance(cfg, s, RequestFinish), FinishRead);
            t.posted == s.posted + (if ChecksOut(cfg, s) then 1 else 0) && (t.pc.Posting? <==> ChecksOut(cfg, s))
  {
    var u := Advance(cfg, s, RequestFinish);
    assert u.pc.Closing? && u.journal == s.journal && u.commands == s.commands && u.posted == s.posted;
    assert ChecksOut(cfg, u) == ChecksOut(cfg, s);
  }

  /** Every run: behind a torn line, the first entry that the runner flushes is lost to any reader, and only that. */
  lemma {:induction false} BehindTornLine(cfg: Config, es: seq<Input>)
    requires Lawful(cfg.codec) && AllWritable(cfg.codec, Execute(cfg, Start(cfg), es).journal)
    requires Execute(cfg, Start(cfg), es).journal != []
    ensures var s := Execute(cfg, Start(cfg), es);
            EntriesRead(cfg, s) == if Blank(Torn(cfg.initial)) then s.journal else s.journal[1..]
  {
    ReachableFinishable(cfg, es);
    ReadBehind(cfg.codec, cfg.initial, Execute(cfg, Start(cfg), es).journal);
  }

  /** `finish` reaches the control plane at most once in any run. */
  lemma {:induction false} FinishPostedOnce(cfg: Config, es: seq<Input>)
    ensures Execute(cfg, Start(cfg), es).posted <= 1
  {
    ReachableFinishable(cfg, es);
  }
}
