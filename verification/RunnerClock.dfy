/** With a clock that never runs backwards, the readings that the server checks are in order. */
module RunnerClock {
  import opened Basics
  import opened Supervision
  import opened JournalFile
  import opened JournalValidator
  import opened Runner
  import opened RunnerStop
  import opened RunnerAgreement

  /** The clock reading that a step takes, if it takes one. */
  function Reading(e: Input): Option<real> {
    match e
    case DispatchCommitted(_, now, _) => Some(now)
    case RaceSettled(now) => Some(now)
    case RaceTimedOut(now) => Some(now)
    case _ => None
  }

  /** No reading of the run is below `from` or below an earlier one. */
  predicate ClockRises(es: seq<Input>, from: real) {
    if es == [] then true
    else if Reading(es[0]).Some? then from <= Reading(es[0]).value && ClockRises(es[1..], Reading(es[0]).value)
    else ClockRises(es[1..], from)
  }

  predicate UpTo(j: seq<Entry>, last: real) {
    forall e <- j :: e.dispatchedAt.Some? ==> 0.0 <= e.dispatchedAt.value <= last
  }

  predicate InOrder(j: seq<Entry>) {
    forall i, k :: 0 <= i < k < |j| && j[i].dispatchedAt.Some? && j[k].dispatchedAt.Some?
      ==> j[i].dispatchedAt.value <= j[k].dispatchedAt.value
  }

  /** The entry that is being flushed was read from the clock after everything in the journal. */
  predicate PendingTimed(p: Pending, j: seq<Entry>, last: real) {
    && (p.FlushingIntent? ==> p.intent.dispatchedAt.None?)
    && (p.FlushingResult? ==>
          p.outcome.dispatchedAt.Some? && UpTo(j, p.outcome.dispatchedAt.value) && UpTo([p.outcome], last))
  }

  predicate Timed(s: Runner, last: real) {
    0.0 <= last && InOrder(s.journal) && UpTo(s.journal, last) && PendingTimed(s.sup.pending, s.journal, last)
  }

  lemma {:induction false} AppendInOrder(j: seq<Entry>, e: Entry, last: real)
    requires InOrder(j) && UpTo(j, last) && UpTo([e], last)
    requires e.dispatchedAt.Some? ==> UpTo(j, e.dispatchedAt.value)
    ensures InOrder(j + [e]) && UpTo(j + [e], last)
  {
    var longer := j + [e];
    assert e in [e];
    forall i, k | 0 <= i < k < |longer| && longer[i].dispatchedAt.Some? && longer[k].dispatchedAt.Some?
      ensures longer[i].dispatchedAt.value <= longer[k].dispatchedAt.value
    {
      assert longer[i] in j;
    }
  }

  /** What a step appends, and what it leaves to be flushed. */
  lemma {:induction false} AppendsPending(cfg: Config, s: Runner, e: Input)
    ensures var t, p := Advance(cfg, s, e), s.sup.pending;
            || t.journal == s.journal
            || (p.FlushingIntent? && s.commands != [] && t.sup.pending.IntentDurable?
                && t.journal == s.journal + [Tagged(p.intent, s.commands[|s.commands| - 1])])
            || (p.FlushingResult? && s.commands != [] && t.sup.pending.ResultDurable?
                && t.journal == s.journal + [Tagged(p.outcome, s.commands[|s.commands| - 1])])
  {
  }

  lemma {:induction false} PendingOf(cfg: Config, s: Runner, e: Input)
    ensures var p, q := s.sup.pending, Advance(cfg, s, e).sup.pending;
            && (q.FlushingIntent? ==> q == p || q.intent.dispatchedAt.None?)
            && (q.FlushingResult? ==> q == p || (Reading(e).Some? && q.outcome.dispatchedAt == Reading(e)))
            && (q.FlushingIntent? || q.FlushingResult? ==> Advance(cfg, s, e).journal == s.journal)
  {
  }

  lemma {:induction false} AdvanceKeepsTimed(cfg: Config, s: Runner, e: Input, last: real, next: real)
    requires Timed(s, last) && last <= next && (Reading(e).Some? ==> Reading(e).value == next)
    ensures Timed(Advance(cfg, s, e), next)
  {
    AppendsPending(cfg, s, e);
    PendingOf(cfg, s, e);
    var t, p := Advance(cfg, s, e), s.sup.pending;
    if t.journal != s.journal {
      var x := t.journal[|s.journal|];
      assert p.FlushingResult? ==> p.outcome in [p.outcome];
      AppendInOrder(s.journal, x, next);
    } else if t.sup.pending.FlushingResult? && t.sup.pending == p {
      assert p.outcome in [p.outcome];
    }
  }

  lemma {:induction false} ExecuteKeepsTimed(cfg: Config, s: Runner, es: seq<Input>, last: real)
    requires Timed(s, last) && ClockRises(es, last)
    ensures InOrder(Execute(cfg, s, es).journal) && exists end :: UpTo(Execute(cfg, s, es).journal, end)
    decreases |es|
  {
    if es == [] {
      assert UpTo(s.journal, last);
    } else {
      var next: real := if Reading(es[0]).Some? then Reading(es[0]).value else last;
      AdvanceKeepsTimed(cfg, s, es[0], last, next);
      ExecuteKeepsTimed(cfg, Advance(cfg, s, es[0]), es[1..], next);
    }
  }

  lemma {:induction false} StartTimed(cfg: Config)
    ensures Timed(Start(cfg), 0.0)
  {
  }

  lemma {:induction false} AnsweredRise(j: seq<Entry>, n: nat)
    requires InOrder(j) && (exists end :: UpTo(j, end)) && |j| == 2 * n
    requires forall k :: 0 <= k < n ==> AnsweredAt(j, k)
    ensures ReadingsRise(j)
  {
    var end :| UpTo(j, end);
    forall k | 0 <= k < |j| / 2
      ensures RisesAt(j, k)
    {
      assert AnsweredAt(j, k);
      assert j[2 * k + 1] in j;
      if k > 0 {
        assert AnsweredAt(j, k - 1);
      }
    }
  }

  lemma {:induction false} StopAnswered(cfg: Config, s: Runner)
    requires Finishable(cfg, s) && CleanStop(s)
    ensures |s.journal| == 2 * |s.rows| && forall k :: 0 <= k < |s.rows| ==> AnsweredAt(s.journal, k)
  {
    StopPairs(cfg, s);
    forall k | 0 <= k < |s.rows|
      ensures AnsweredAt(s.journal, k)
    {
      CleanAnswered(s.journal, s.rows, cfg.lease, k);
    }
  }

  lemma {:induction false} ClockReadingsRise(cfg: Config, es: seq<Input>)
    requires CleanStop(Execute(cfg, Start(cfg), es)) && ClockRises(es, 0.0)
    ensures ReadingsRise(Execute(cfg, Start(cfg), es).journal)
  {
    var s := Execute(cfg, Start(cfg), es);
    ReachableFinishable(cfg, es);
    StopAnswered(cfg, s);
    StartTimed(cfg);
    ExecuteKeepsTimed(cfg, Start(cfg), es, 0.0);
    AnsweredRise(s.journal, |s.rows|);
  }

  /**
   * In a run whose clock never runs backwards from zero, the journal of a clean stop is accepted
   * subject only to what the file held before, its size, and the stamps.
   */
  lemma {:induction false} RisingClockAccepted(cfg: Config, es: seq<Input>, w: Wire)
    requires Agreeing(w) && w.codec == cfg.codec && CleanStop(Execute(cfg, Start(cfg), es))
    requires AllWritable(w.codec, Execute(cfg, Start(cfg), es).journal) && ClockRises(es, 0.0)
    ensures var s := Execute(cfg, Start(cfg), es);
            Accepts(w, cfg.lease, FileOf(cfg, s), s.rows)
            <==> Skips(cfg.initial) && |FileOf(cfg, s)| <= MAX_ARTIFACT_BYTES && StampsValid(w.py, s.journal)
  {
    ProducerMeetsValidator(cfg, es, w);
    ClockReadingsRise(cfg, es);
  }
}
