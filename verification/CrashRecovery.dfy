/** A crash at any moment of any supervisor run, and what the restart finds in the journal file. */
module CrashRecovery {
  import opened Basics
  import opened Supervision
  import opened SupervisionRuns
  import opened JournalFile

  /** The entry whose append has begun and has not resolved, if any. */
  function Unconfirmed(p: Pending): Option<Entry> {
    match p
    case FlushingIntent(i) => Some(i)
    case IntentUnflushed(i) => Some(i)
    case FlushingResult(_, r) => Some(r)
    case ResultUnflushed(_, r) => Some(r)
    case _ => None
  }

  /** The file after a crash that kept `k` bytes of the unconfirmed append. */
  function OnDisk(c: Codec, s: State, k: nat): string
    requires k <= UnconfirmedLength(c, s)
  {
    Lines(c, s.journal) + if Unconfirmed(s.pending).Some? then Line(c, Unconfirmed(s.pending).value)[..k] else ""
  }

  /** Every clock reading in the file is a finite double. */
  predicate FileWritable(c: Codec, s: State) {
    AllWritable(c, s.journal) && (Unconfirmed(s.pending).Some? ==> Writable(c, Unconfirmed(s.pending).value))
  }

  function UnconfirmedLength(c: Codec, s: State): nat {
    if Unconfirmed(s.pending).Some? then |Line(c, Unconfirmed(s.pending).value)| else 0
  }

  /** Whatever survives of a file whose last append did not resolve has the shape `OnDisk` gives it. */
  lemma {:induction false} SurvivorShape(flushed: string, bytes: string, k: nat, survived: string)
    requires k <= |bytes| && Survives(flushed + bytes[..k], |flushed|, survived)
    ensures exists n :: 0 <= n <= |bytes| && survived == flushed + bytes[..n]
  {
    var n := |survived| - |flushed|;
    assert survived == flushed + bytes[..n];
  }

  /* ------------------------------------------------------------------ reports of paired journals */

  lemma {:induction false} PairedLatestHasResult(j: seq<Entry>, id: string)
    requires Paired(j)
    ensures LatestOf(j, id).Some? ==> LatestOf(j, id).value.result.Some?
    decreases |j|
  {
    if j != [] {
      var n := |j|;
      PairedLatestHasResult(j[..n - 2], id);
      assert j[..n - 1][..n - 2] == j[..n - 2];
      assert j[n - 2].actionId == j[n - 1].actionId;
      assert j[..n - 1][n - 2] == j[n - 2];
    }
  }

  predicate Distinct(ids: seq<string>) {
    forall i, j :: 0 <= i < j < |ids| ==> ids[i] != ids[j]
  }

  lemma {:induction false} FirstSeenDistinct(es: seq<Entry>)
    ensures Distinct(FirstSeen(es))
    decreases |es|
  {
    if es != [] {
      FirstSeenDistinct(es[..|es| - 1]);
    }
  }

  lemma {:induction false} OpenAmongDistinct(es: seq<Entry>, ids: seq<string>, i: nat, j: nat)
    requires Distinct(ids) && i < j < |OpenAmong(es, ids)|
    ensures OpenAmong(es, ids)[i] != OpenAmong(es, ids)[j]
    decreases |ids|
  {
    var n := |ids| - 1;
    var shorter := OpenAmong(es, ids[..n]);
    LatestOfNamed(es, ids[n]);
    if j < |shorter| {
      OpenAmongDistinct(es, ids[..n], i, j);
    } else {
      OpenAmongExact(es, ids[..n], shorter[i]);
    }
  }

  lemma {:induction false} PairedReport(j: seq<Entry>)
    requires Paired(j)
    ensures Report(j).unresolved == []
  {
    var open := Report(j).unresolved;
    if open != [] {
      ReportExact(j, open[0]);
      PairedLatestHasResult(j, open[0].actionId);
    }
  }

  lemma {:induction false} OpenReport(j: seq<Entry>, i: Entry)
    requires OpenWith(j, i)
    ensures Report(j).unresolved == [i]
  {
    var open := Report(j).unresolved;
    forall e | e in open
      ensures e == i
    {
      ReportExact(j, e);
      PairedLatestHasResult(j[..|j| - 1], e.actionId);
    }
    ReportExact(j, i);
    assert i in open;
    if |open| > 1 {
      assert open[0] in open && open[1] in open;
      FirstSeenDistinct(j);
      OpenAmongDistinct(j, FirstSeen(j), 0, 1);
    }
  }

  /* ------------------------------------------------------------------ the theorem */

  /** What the restart reads: every confirmed entry, and the unconfirmed one if it survived whole. */
  lemma {:induction false} RecoveredEntries(c: Codec, s: State, k: nat)
    requires Lawful(c) && FileWritable(c, s) && k <= UnconfirmedLength(c, s)
    ensures Read(c, OnDisk(c, s, k)) == s.journal + Recovered(c, s, k)
  {
    var u := Unconfirmed(s.pending);
    if u.Some? {
      ReadLines(c, s.journal, Line(c, u.value)[..k]);
      ReadTorn(c, u.value, k);
    } else {
      ReadLines(c, s.journal, "");
      ReadTail(c, "");
    }
  }

  function Recovered(c: Codec, s: State, k: nat): seq<Entry> {
    match Unconfirmed(s.pending)
    case Some(e) => if k < |c.encode(e)| then [] else [e]
    case None => []
  }

  lemma {:induction false} RecoveredShape(c: Codec, s: State, k: nat)
    requires JournalInv(s)
    ensures var j := s.journal + Recovered(c, s, k);
            Paired(j) || (s.pending != NoAction && OpenWith(j, s.pending.intent))
  {
    if Recovered(c, s, k) == [] {
      assert s.journal + Recovered(c, s, k) == s.journal;
    } else if s.pending.FlushingIntent? || s.pending.IntentUnflushed? {
      OpenAppend(s.journal, s.pending.intent);
    } else {
      PairedAppend(s.journal, s.pending.intent, s.pending.outcome);
    }
  }

  lemma {:induction false} IntentsPrefix(j: seq<Entry>, i: nat)
    requires i < |Intents(j)|
    ensures Intents(j)[i] in j && Intents(j)[i].result.None?
    decreases |j|
  {
    if i < |Intents(j[..|j| - 1])| {
      IntentsPrefix(j[..|j| - 1], i);
    }
  }

  /**
   * At every crash point of every run, with any part of the unconfirmed line surviving: each action
   * whose dispatch began has its intent in the file; the report is exactly the file's last entry
   * when that entry is an intent and is empty otherwise; and quarantine is set in just that case.
   */
  lemma {:induction false} RecoveryIsExact(c: Codec, started: real, es: seq<Event>, k: nat)
    requires Lawful(c) && FileWritable(c, Run(Init(started), es))
    requires k <= UnconfirmedLength(c, Run(Init(started), es))
    ensures var s := Run(Init(started), es);
            RecoversExactly(Read(c, OnDisk(c, s, k)), s.dispatched)
  {
    var s := Run(Init(started), es);
    RunKeepsInv(Init(started), es);
    WriteAhead(started, es);
    RecoveryAt(c, s, k);
  }

  lemma {:induction false} RecoveryAt(c: Codec, s: State, k: nat)
    requires Lawful(c) && FileWritable(c, s) && k <= UnconfirmedLength(c, s) && JournalInv(s)
    requires |s.dispatched| <= |Intents(s.journal)|
    requires forall k :: 0 <= k < |s.dispatched| ==> DispatchOf(s.dispatched[k], Intents(s.journal)[k])
    ensures RecoversExactly(Read(c, OnDisk(c, s, k)), s.dispatched)
  {
    RecoveredEntries(c, s, k);
    RecoveredShape(c, s, k);
    var entries := s.journal + Recovered(c, s, k);
    DispatchedSurvive(s, entries);
    ReportOfRecovered(entries, if s.pending == NoAction then None else Some(s.pending.intent));
  }

  predicate RecoversExactly(entries: seq<Entry>, dispatched: seq<Dispatch>) {
    var lastOpen := entries != [] && entries[|entries| - 1].result.None?;
    && (forall d <- dispatched :: IntentFor(entries, d.command.actionId))
    && Report(entries).unresolved == (if lastOpen then [entries[|entries| - 1]] else [])
    && (Report(entries).mustQuarantine <==> lastOpen)
  }

  predicate IntentFor(entries: seq<Entry>, id: string) {
    exists e <- entries :: e.actionId == id && e.result.None?
  }

  lemma {:induction false} DispatchedSurvive(s: State, entries: seq<Entry>)
    requires |s.dispatched| <= |Intents(s.journal)| && s.journal <= entries
    requires forall k :: 0 <= k < |s.dispatched| ==> DispatchOf(s.dispatched[k], Intents(s.journal)[k])
    ensures forall d <- s.dispatched :: IntentFor(entries, d.command.actionId)
  {
    forall d | d in s.dispatched
      ensures IntentFor(entries, d.command.actionId)
    {
      var n :| 0 <= n < |s.dispatched| && s.dispatched[n] == d;
      DispatchedIntentIn(s, entries, n);
    }
  }

  lemma {:induction false} ReportOfRecovered(j: seq<Entry>, i: Option<Entry>)
    requires Paired(j) || (i.Some? && OpenWith(j, i.value))
    ensures var lastOpen := j != [] && j[|j| - 1].result.None?;
            && Report(j).unresolved == (if lastOpen then [j[|j| - 1]] else [])
            && (Report(j).mustQuarantine <==> lastOpen)
  {
    if Paired(j) {
      PairedReport(j);
    } else {
      OpenReport(j, i.value);
    }
  }

  lemma {:induction false} DispatchedIntentIn(s: State, j: seq<Entry>, n: nat)
    requires n < |s.dispatched| <= |Intents(s.journal)|
    requires DispatchOf(s.dispatched[n], Intents(s.journal)[n]) && s.journal <= j
    ensures IntentFor(j, s.dispatched[n].command.actionId)
  {
    IntentsPrefix(s.journal, n);
    assert Intents(s.journal)[n] in j;
  }

  /* ------------------------------------------------------------------ where the code falls short */

  /**
   * A journal file left by a crash is complete lines and then a torn line `t`. A later session that
   * appends to it flushes its intent, yet the intent can be read back exactly when `t` is empty:
   * when the file was empty or ended in a newline. Nothing checks that before appending.
   */
  lemma {:induction false} IntentReadableIffNoTornLine(c: Codec, prior: seq<Entry>, torn: Entry, k: nat, e: Entry)
    requires Lawful(c) && AllWritable(c, prior + [torn, e]) && k <= |c.encode(torn)| && e !in prior
    ensures var content := Lines(c, prior) + c.encode(torn)[..k];
            e in Read(c, content + Line(c, e)) <==> content == "" || content[|content| - 1] == LF
  {
    var t := c.encode(torn)[..k];
    var content := Lines(c, prior) + t;
    Associates(Lines(c, prior), t, Line(c, e));
    ReadLines(c, prior, t + Line(c, e));
    ReadOne(c, t, e);
    if k == 0 {
      assert content == Lines(c, prior);
      LinesEndInNewline(c, prior);
    } else {
      assert t[0] in t;
      assert content[|content| - 1] == t[k - 1];
      assert t[k - 1] in c.encode(torn);
    }
  }

  /** One line appended behind a torn one. */
  lemma {:induction false} ReadOne(c: Codec, t: string, e: Entry)
    requires Lawful(c) && Writable(c, e) && LF !in t
    ensures Read(c, t + Line(c, e)) == if Blank(t) then [e] else []
  {
    assert [e][1..] == [];
    assert Lines(c, [e]) == Line(c, e) + "" == Line(c, e);
    ReadBehindTorn(c, t, [e]);
  }

  lemma {:induction false} LinesEndInNewline(c: Codec, es: seq<Entry>)
    ensures Lines(c, es) == "" || Lines(c, es)[|Lines(c, es)| - 1] == LF
    decreases |es|
  {
    if es != [] {
      LinesEndInNewline(c, es[1..]);
    }
  }

  /**
   * The consequence: a journal holding only a torn first line reads as empty, which is all a new
   * runner checks; whatever intent the new session flushes next, a crash right after its dispatch
   * leaves a file whose report finds nothing unresolved and asks for no quarantine.
   */
  lemma {:induction false} TornFirstLineHidesIntent(c: Codec, torn: Entry, k: nat, intent: Entry)
    requires Lawful(c) && Writable(c, torn) && Writable(c, intent) && 0 < k < |c.encode(torn)|
    ensures Read(c, c.encode(torn)[..k]) == []
    ensures Report(Read(c, c.encode(torn)[..k] + Line(c, intent))) == RecoveryReport([], false)
  {
    var t := c.encode(torn)[..k];
    ReadTail(c, t);
    assert t[0] in t;
    ReadOne(c, t, intent);
  }

  /* ---- a result that never arrived ---- */

  const LEASE := Lease("lease", 1, 100.0, 10, 60.0)

  /** One action, dispatched, and given up at `later` when its result had not arrived. */
  function TimedOut(later: real): seq<Event> {
    [AdoptLease(LEASE), Perform(Next, None, None, 0.0, ""), IntentAppended, CallDispatch, DispatchLost(later),
        ResultAppended]
  }

  lemma {:induction false} RunMore(s: State, es: seq<Event>, e: Event)
    ensures Run(s, es + [e]) == Step(Run(s, es), e)
    decreases |es|
  {
    if es == [] {
      assert [e][1..] == [];
      assert Run(s, [e]) == Run(Step(s, e), []);
    } else {
      assert (es + [e])[0] == es[0] && (es + [e])[1..] == es[1..] + [e];
      RunMore(Step(s, es[0]), es[1..], e);
    }
  }

  /** Up to the dispatch, one action is open in the journal. */
  lemma {:induction false} DispatchedOnce(later: real)
    ensures var s := Run(Init(0.0), TimedOut(later)[..4]);
            && s.pending.Dispatching? && s.journal == [s.pending.intent] && |s.dispatched| == 1
            && s.pending.intent.result.None? && s.pending.intent.dispatchedAt.None?
            && s.dispatched[0].command.actionId == s.pending.intent.actionId
  {
    var es := TimedOut(later);
    RunMore(Init(0.0), [], es[0]);
    RunMore(Init(0.0), [es[0]], es[1]);
    RunMore(Init(0.0), [es[0], es[1]], es[2]);
    RunMore(Init(0.0), [es[0], es[1], es[2]], es[3]);
    assert es[..4] == [es[0], es[1], es[2]] + [es[3]];
    assert [es[0], es[1], es[2]] == [es[0], es[1]] + [es[2]] && [es[0], es[1]] == [es[0]] + [es[1]]
           && [es[0]] == [] + [es[0]];
  }

  /**
   * AMBIGUOUS counts as resolved: a run whose one dispatch timed out fences for good and flushes the
   * AMBIGUOUS result; after a restart the report is empty and asks for no quarantine.
   */
  lemma {:induction false} AmbiguousNotReported(c: Codec, later: real)
    requires Lawful(c) && c.finite(later)
    ensures var s := Run(Init(0.0), TimedOut(later));
            && |s.dispatched| == 1 && s.fenced == Some(ActionResultNeverArrived)
            && |s.journal| == 2 && s.journal[1].result == Some(Ambiguous)
            && s.journal[1].actionId == s.dispatched[0].command.actionId
            && Unconfirmed(s.pending).None?
            && Report(Read(c, OnDisk(c, s, 0))) == RecoveryReport([], false)
  {
    var es := TimedOut(later);
    var s := Run(Init(0.0), es[..4]);
    DispatchedOnce(later);
    RunMore(Init(0.0), es[..4], es[4]);
    RunMore(Init(0.0), es[..5], es[5]);
    assert es[..4] + [es[4]] == es[..5] && es[..5] + [es[5]] == es;
    AmbiguousReport(c, s, later);
  }

  lemma {:induction false} AmbiguousReport(c: Codec, s: State, later: real)
    requires Lawful(c) && c.finite(later) && s.pending.Dispatching? && s.journal == [s.pending.intent]
    requires s.pending.intent.result.None? && s.pending.intent.dispatchedAt.None?
    ensures var t := Step(Step(s, DispatchLost(later)), ResultAppended);
            && t.journal == [s.pending.intent, ResultFor(s.pending.intent, Ambiguous, later)]
            && t.fenced == Some(ActionResultNeverArrived) && t.dispatched == s.dispatched
               && Unconfirmed(t.pending).None?
            && Report(Read(c, OnDisk(c, t, 0))) == RecoveryReport([], false)
  {
    var t := Step(Step(s, DispatchLost(later)), ResultAppended);
    var i, r := s.pending.intent, ResultFor(s.pending.intent, Ambiguous, later);
    assert t.journal == [i, r];
    RecoveredEntries(c, t, 0);
    assert [i][..0] == [] && [i] + [r] == [i, r];
    PairedAppend([i], i, r);
    PairedReport(t.journal);
    assert t.journal + [] == t.journal;
  }
}
