/**
 * What led up to a commitment, to an entry into the reader adapter and to an answer of the dispatch
 * callback, told by the inputs of the run: which of them moved `perform`, and which the callback.
 */
module RunnerTrail {
  import opened Basics
  import opened Supervision
  import opened SupervisionRuns
  import opened Runner
  import opened RunnerInv
  import opened RunnerAdapter

  /** The state after the inputs. */
  function After(cfg: Config, es: seq<Input>): Runner {
    Execute(cfg, Start(cfg), es)
  }

  lemma {:induction false} ExecuteLast(cfg: Config, s: Runner, es: seq<Input>)
    requires es != []
    ensures Execute(cfg, s, es) == Advance(cfg, Execute(cfg, s, es[..|es| - 1]), es[|es| - 1])
    decreases |es|
  {
    if |es| > 1 {
      ExecuteLast(cfg, Advance(cfg, s, es[0]), es[1..]);
      assert es[1..][..|es| - 2] == es[..|es| - 1][1..];
    } else {
      assert es[1..] == [] && es[..0] == [];
    }
  }

  /* ------------------------------------------------------------------ the origin */

  /** The origin that was seen last while `perform` was locating it. */
  function LastOrigin(cfg: Config, es: seq<Input>): string
    decreases |es|
  {
    if es == [] then "" else
      var before, e := es[..|es| - 1], es[|es| - 1];
      if e.OriginSeen? && After(cfg, before).pc.LocatingOrigin? then e.origin else LastOrigin(cfg, before)
  }

  /** The remembered origin is that one. */
  lemma {:induction false} OriginRemembered(cfg: Config, es: seq<Input>)
    ensures After(cfg, es).origin == LastOrigin(cfg, es)
    decreases |es|
  {
    if es != [] {
      OriginRemembered(cfg, es[..|es| - 1]);
      ExecuteLast(cfg, Start(cfg), es);
    }
  }

  lemma {:induction false} EntryWake(cfg: Config, s: Runner, e: Input)
    requires Advance(cfg, s, e).entered != s.entered
    ensures s.cont.SeeingOrigin? && Advance(cfg, s, e).entered == s.entered + [s.cont.c]
    ensures e == Callback(ContOrigin(s.origin, true))
  {
  }

  /* ------------------------------------------------------------------ the callback */

  /** The wakes that moved the dispatch callback since it was called. */
  function Trail(cfg: Config, es: seq<Input>): seq<Wake>
    decreases |es|
  {
    if es == [] then [] else
      var before, e := es[..|es| - 1], es[|es| - 1];
      if After(cfg, es).cont == After(cfg, before).cont then Trail(cfg, before)
      else if e.Callback? then Trail(cfg, before) + [e.wake]
      else []
  }

  /** The action may submit a form: it activates, or presses ENTER or SPACE. */
  predicate MaySubmit(c: Command) {
    c.action == Activate || (c.action == KeyChord && c.keyChord in {Some("ENTER"), Some("SPACE")})
  }

  /** Preflight, its retention and the approval, and for what may submit a form the permit as well. */
  function FullChecks(cfg: Config, c: Command): seq<Wake> {
    [ContProbed(true, true), ContRetained, ContAuthorized]
    + if cfg.formEffects && MaySubmit(c) then [ContFormPermitted] else []
  }

  /** All checks were passed, and then the origin was seen in time. */
  predicate Entered(cfg: Config, c: Command, trail: seq<Wake>) {
    var n := |FullChecks(cfg, c)|;
    |trail| == n + 1 && trail[..n] == FullChecks(cfg, c) && trail[n].ContOrigin? && trail[n].inTime
  }

  /** And then the adapter answered, and `stage` of its observations were retained. */
  predicate Answered(cfg: Config, c: Command, ok: bool, observed: bool, stage: nat, trail: seq<Wake>) {
    var n := |trail| - stage;
    && n >= 1 && Entered(cfg, c, trail[..n - 1]) && trail[n - 1] == ContAdapter(ok, observed)
    && forall i :: n <= i < |trail| ==> trail[i] == ContObserved
  }

  /** How the callback came to where it is. */
  ghost predicate Came(cfg: Config, k: Cont, trail: seq<Wake>) {
    match k
    case NoCont => trail == []
    case Preflighting(_) => trail == []
    case RetainingPreflight(_, passed) => trail == [ContProbed(passed, true)]
    case Authorizing(_) => trail == [ContProbed(true, true), ContRetained]
    case AuthorizingForm(c) =>
      trail == [ContProbed(true, true), ContRetained, ContAuthorized] && cfg.formEffects && MaySubmit(c)
    case SeeingOrigin(c) => trail == FullChecks(cfg, c)
    case InAdapter(c) => Entered(cfg, c, trail)
    case Observing(c, ok, stage) => stage <= 2 && Answered(cfg, c, ok, true, stage, trail)
    case Resolved(ok) => exists c :: Answered(cfg, c, ok, false, 0, trail) || Answered(cfg, c, ok, true, 3, trail)
    case Failing => true
  }

  lemma {:induction false} WakeChecks(cfg: Config, s: Runner, wake: Wake, trail: seq<Wake>)
    requires Came(cfg, s.cont, trail) && ContNext(cfg, s, wake) != s.cont
    requires !s.cont.InAdapter? && !s.cont.Observing?
    ensures Came(cfg, ContNext(cfg, s, wake), trail + [wake])
  {
    if s.cont.SeeingOrigin? {
      assert (trail + [wake])[..|trail|] == trail;
    }
  }

  lemma {:induction false} WakeObserves(cfg: Config, s: Runner, wake: Wake, trail: seq<Wake>)
    requires Came(cfg, s.cont, trail) && ContNext(cfg, s, wake) != s.cont
    requires s.cont.InAdapter? || s.cont.Observing?
    ensures Came(cfg, ContNext(cfg, s, wake), trail + [wake])
  {
    var k, c := ContNext(cfg, s, wake), s.cont.c;
    if s.cont.InAdapter? {
      assert (trail + [wake])[..|trail|] == trail;
    } else {
      var n := |trail| - s.cont.stage;
      assert (trail + [wake])[..n - 1] == trail[..n - 1];
    }
    if k.Observing? {
      assert Answered(cfg, c, k.ok, true, k.stage, trail + [wake]);
    } else if k.Resolved? && wake.ContAdapter? {
      assert Answered(cfg, c, k.ok, false, 0, trail + [wake]);
    } else if k.Resolved? {
      assert Answered(cfg, c, k.ok, true, 3, trail + [wake]);
    }
  }

  /** Only the supervisor's call starts a callback, and only its race forgets one. */
  lemma {:induction false} ContFrom(cfg: Config, s: Runner, e: Input)
    requires Advance(cfg, s, e).cont != s.cont
    ensures e.DispatchCalled? || e.RaceSettled? || e.Callback?
    ensures e.DispatchCalled? ==> Advance(cfg, s, e).cont.Preflighting?
    ensures e.RaceSettled? ==> Advance(cfg, s, e).cont.NoCont?
    ensures e.Callback? ==> Advance(cfg, s, e).cont == ContNext(cfg, s, e.wake)
  {
  }

  lemma {:induction false} CallbackCame(cfg: Config, es: seq<Input>)
    ensures Came(cfg, After(cfg, es).cont, Trail(cfg, es))
    decreases |es|
  {
    if es != [] {
      var before, e := es[..|es| - 1], es[|es| - 1];
      var s, trail := After(cfg, before), Trail(cfg, before);
      CallbackCame(cfg, before);
      ExecuteLast(cfg, Start(cfg), es);
      if After(cfg, es).cont != s.cont {
        ContFrom(cfg, s, e);
        if e.Callback? {
          if s.cont.InAdapter? || s.cont.Observing? {
            WakeObserves(cfg, s, e.wake, trail);
          } else {
            WakeChecks(cfg, s, e.wake, trail);
          }
        }
      }
    }
  }

  /**
   * At every entry into the reader adapter: the callback has passed, in this order, an all-TRUE
   * preflight, its retention, the approval and, where the action may submit a form, the form permit;
   * and the origin just seen, in time, is the one `perform` saw before it announced the action.
   */
  lemma {:induction false} EntersAfterChecks(cfg: Config, es: seq<Input>, e: Input)
    requires After(cfg, es + [e]).entered != After(cfg, es).entered
    ensures e == Callback(ContOrigin(LastOrigin(cfg, es), true))
    ensures var s, t := After(cfg, es), After(cfg, es + [e]);
            s.cont.SeeingOrigin? && t.entered == s.entered + [s.cont.c] && Trail(cfg, es) == FullChecks(cfg, s.cont.c)
  {
    ExecuteLast(cfg, Start(cfg), es + [e]);
    assert (es + [e])[..|es|] == es;
    EntryWake(cfg, After(cfg, es), e);
    OriginRemembered(cfg, es);
    CallbackCame(cfg, es);
  }

  /** A SUCCEEDED or FAILED dispatch is the adapter's own answer, with every observation that it announced retained. */
  lemma {:induction false} AnswerIsAdapters(cfg: Config, es: seq<Input>, e: Input, ok: bool, now: real)
    requires SupEvent(After(cfg, es), e) == Some(DispatchResolved(ok, now))
    ensures exists c ::
              Answered(cfg, c, ok, false, 0, Trail(cfg, es)) || Answered(cfg, c, ok, true, 3, Trail(cfg, es))
  {
    CallbackCame(cfg, es);
  }

  /** A runner that is stopping, fenced or not executing begins no further check and no observation. */
  lemma {:induction false} ClosedStops(cfg: Config, s: Runner, wake: Wake)
    requires !s.executing || s.stopping || s.fenced
    ensures var k := ContNext(cfg, s, wake);
            k == s.cont || (!k.RetainingPreflight? && !k.Authorizing? && !k.InAdapter? && !k.Observing?)
  {
  }

  /** Nor does one whose authority was withdrawn ask for approval, or go on after it. */
  lemma {:induction false} AbortedStops(cfg: Config, s: Runner, wake: Wake)
    requires s.aborted && (s.cont.RetainingPreflight? || s.cont.Authorizing?)
    ensures ContNext(cfg, s, wake) == s.cont || ContNext(cfg, s, wake).Failing?
  {
  }

  /* ------------------------------------------------------------------ `perform` */

  /** The inputs that moved `perform` since it was called. */
  function Path(cfg: Config, es: seq<Input>): seq<Input>
    decreases |es|
  {
    if es == [] then [] else
      var before, e := es[..|es| - 1], es[|es| - 1];
      if After(cfg, es).pc == After(cfg, before).pc then Path(cfg, before)
      else if e.RequestPerform? then [e]
      else Path(cfg, before) + [e]
  }

  /** The first call reads the journal file, and found no entry in it. */
  predicate HasRead(cfg: Config, es: seq<Input>)
    decreases |es|
  {
    es != []
    && var before, e := es[..|es| - 1], es[|es| - 1];
       || HasRead(cfg, before)
       || (e.JournalRead? && After(cfg, before).pc.ReadingJournal? && EntriesRead(cfg, After(cfg, before)) == [])
  }

  lemma {:induction false} StartedIffRead(cfg: Config, es: seq<Input>)
    ensures After(cfg, es).started <==> HasRead(cfg, es)
    decreases |es|
  {
    if es != [] {
      StartedIffRead(cfg, es[..|es| - 1]);
      ExecuteLast(cfg, Start(cfg), es);
    }
  }

  predicate Opening(path: seq<Input>, req: Request) {
    path == [RequestPerform(req)] || path == [RequestPerform(req), JournalRead]
  }

  /** How `perform` came to where it is, up to the control plane's commitment. */
  predicate Led(pc: Pc, path: seq<Input>, origin: string) {
    var n := |path|;
    match pc
    case ReadingJournal(req) => path == [RequestPerform(req)]
    case Probing(req) => Opening(path, req)
    case LocatingOrigin(req) => n >= 1 && Opening(path[..n - 1], req) && path[n - 1] == Probed(true)
    case RetainingIntent(req) =>
      n >= 2 && Opening(path[..n - 2], req) && path[n - 2] == Probed(true) && path[n - 1] == OriginSeen(origin)
    case Committing(req, id) =>
      n >= 3 && Opening(path[..n - 3], req)
      && path[n - 3] == Probed(true) && path[n - 2] == OriginSeen(origin) && path[n - 1] == IntentRetained(id)
    case _ => true
  }

  /** The one input that leads to this await, from the await before it. */
  predicate LeadsTo(pc: Pc, origin: string, e: Input, pc': Pc, origin': string) {
    match pc'
    case ReadingJournal(_) => false
    case Probing(req) => pc == ReadingJournal(req) && e == JournalRead
    case LocatingOrigin(req) => pc == Probing(req) && e == Probed(true)
    case RetainingIntent(req) => pc == LocatingOrigin(req) && e == OriginSeen(origin')
    case Committing(req, id) => pc == RetainingIntent(req) && e == IntentRetained(id) && origin' == origin
    case _ => true
  }

  lemma {:induction false} LedByRow(cfg: Config, s: Runner, e: Input)
    requires !e.RequestPerform?
    ensures var t := Advance(cfg, s, e);
            if t.pc == s.pc then !s.pc.LocatingOrigin? ==> t.origin == s.origin
            else LeadsTo(s.pc, s.origin, e, t.pc, t.origin)
  {
  }

  lemma {:induction false} LedFurther(pc: Pc, origin: string, e: Input, path: seq<Input>, pc': Pc, origin': string)
    requires Led(pc, path, origin) && LeadsTo(pc, origin, e, pc', origin')
    ensures Led(pc', path + [e], origin')
  {
    var n, p := |path|, path + [e];
    assert p[..n] == path && (n >= 1 ==> p[..n - 1] == path[..n - 1]) && (n >= 2 ==> p[..n - 2] == path[..n - 2]);
  }

  lemma {:induction false} LedOn(cfg: Config, s: Runner, e: Input, path: seq<Input>)
    requires Led(s.pc, path, s.origin) && !e.RequestPerform?
    ensures var t := Advance(cfg, s, e);
            if t.pc == s.pc then Led(t.pc, path, t.origin) else Led(t.pc, path + [e], t.origin)
  {
    var t := Advance(cfg, s, e);
    LedByRow(cfg, s, e);
    if t.pc != s.pc {
      LedFurther(s.pc, s.origin, e, path, t.pc, t.origin);
    }
  }

  lemma {:induction false} RequestLeads(cfg: Config, s: Runner, e: Input)
    requires e.RequestPerform? && PcInv(s)
    ensures var t := Advance(cfg, s, e);
            && (t.pc == s.pc || Led(t.pc, [e], t.origin)) && t.origin == s.origin
  {
  }

  lemma {:induction false} PathLeads(cfg: Config, es: seq<Input>)
    ensures Led(After(cfg, es).pc, Path(cfg, es), After(cfg, es).origin)
    decreases |es|
  {
    if es != [] {
      var before, e := es[..|es| - 1], es[|es| - 1];
      PathLeads(cfg, before);
      ExecuteLast(cfg, Start(cfg), es);
      Reachable(cfg, before);
      if e.RequestPerform? {
        RequestLeads(cfg, After(cfg, before), e);
      } else {
        LedOn(cfg, After(cfg, before), e, Path(cfg, before));
      }
    }
  }

  /** The actions announced so far: the origin was found, and nobody had asked to stop. */
  function Announced(cfg: Config, es: seq<Input>): nat
    decreases |es|
  {
    if es == [] then 0 else
      var before, e := es[..|es| - 1], es[|es| - 1];
      var s := After(cfg, before);
      Announced(cfg, before) + if e.OriginSeen? && s.pc.LocatingOrigin? && !s.stopping then 1 else 0
  }

  lemma {:induction false} SequenceCounts(cfg: Config, es: seq<Input>)
    ensures After(cfg, es).sequence == Announced(cfg, es)
    decreases |es|
  {
    if es != [] {
      SequenceCounts(cfg, es[..|es| - 1]);
      ExecuteLast(cfg, Start(cfg), es);
    }
  }

  /** The request that the command answers, and what was awaited for it, in order, before it was committed. */
  predicate AsAsked(path: seq<Input>, c: Command, origin: string) {
    && path != [] && path[0].RequestPerform? && c.action == path[0].req.action
    && Led(Committing(path[0].req, c.actionId), path, origin)
  }

  lemma {:induction false} FirstAsked(path: seq<Input>, req: Request, id: string, origin: string)
    requires Led(Committing(req, id), path, origin)
    ensures path != [] && path[0] == RequestPerform(req)
  {
    assert path[..|path| - 3][0] == path[0];
  }

  lemma {:induction false} AfterMore(cfg: Config, es: seq<Input>, e: Input)
    ensures After(cfg, es + [e]) == Advance(cfg, After(cfg, es), e)
  {
    ExecuteLast(cfg, Start(cfg), es + [e]);
    assert (es + [e])[..|es|] == es;
  }

  lemma {:induction false} CommandRow(cfg: Config, s: Runner, e: Input)
    requires Advance(cfg, s, e).commands != s.commands
    ensures e.DispatchCommitted? && Advance(cfg, s, e).commands == s.commands + [e.command] && s.pc.Committing?
    ensures e.command.actionId == s.pc.id && e.command.sequence == s.sequence && e.command.action == s.pc.req.action
  {
  }

  /**
   * A command is registered only as the control plane's answer to the one request that is being
   * performed: after the preflight passed, the origin was seen and the intent was retained under the
   * command's own identity, with the next number.
   */
  lemma {:induction false} CommittedAsAsked(cfg: Config, es: seq<Input>, e: Input)
    requires After(cfg, es + [e]).commands != After(cfg, es).commands
    ensures e.DispatchCommitted? && After(cfg, es + [e]).commands == After(cfg, es).commands + [e.command]
    ensures AsAsked(Path(cfg, es), e.command, LastOrigin(cfg, es)) && e.command.sequence == Announced(cfg, es)
  {
    AfterMore(cfg, es, e);
    CommandRow(cfg, After(cfg, es), e);
    PathLeads(cfg, es);
    OriginRemembered(cfg, es);
    SequenceCounts(cfg, es);
    var pc := After(cfg, es).pc;
    FirstAsked(Path(cfg, es), pc.req, pc.id, LastOrigin(cfg, es));
  }

  /** A call of `perform` is taken on exactly while none is suspended, nothing has fenced, and nobody asked to stop. */
  lemma {:induction false} TakenOnIff(cfg: Config, es: seq<Input>, req: Request)
    ensures var s, t := After(cfg, es), After(cfg, es + [RequestPerform(req)]);
            t.pc == if !s.pc.Idle? || s.fenced || s.stopping then s.pc
                    else if HasRead(cfg, es) then Probing(req) else ReadingJournal(req)
  {
    ExecuteLast(cfg, Start(cfg), es + [RequestPerform(req)]);
    assert (es + [RequestPerform(req)])[..|es|] == es;
    StartedIffRead(cfg, es);
    Reachable(cfg, es);
  }

  /* ------------------------------------------------------------------ what fences */

  /** The awaited step of `perform` failed, or came back with an outcome that nobody may act on. */
  predicate Fails(cfg: Config, s: Runner, e: Input) {
    match s.pc
    case ReadingJournal(_) => e.Throws? || (e.JournalRead? && EntriesRead(cfg, s) != [])
    case Probing(_) => e.Throws? || e == Probed(false)
    case LocatingOrigin(_) => e.Throws? || (e.OriginSeen? && s.stopping)
    case RetainingIntent(_) => e.Throws?
    case Committing(req, id) =>
      || e.Throws?
      || (e.DispatchCommitted? && !(e.command.actionId == id && e.command.sequence == s.sequence
                                    && e.command.action == req.action))
    case Returned(_, outcome) => e.Resume? && !(outcome == Settled(Succeeded) || outcome == Settled(Failed))
    case Completing(_, _) => e.Throws?
    case _ => false
  }

  /** The runner is fenced, for good, by exactly these failures, and by the beginning of `finish`. */
  lemma {:induction false} FencedIff(cfg: Config, s: Runner, e: Input)
    requires PcInv(s)
    ensures Advance(cfg, s, e).fenced
            <==> s.fenced || Fails(cfg, s, e)
                 || (e.RequestFinish? && s.pc.Idle? && s.stopSucceeded && MayAcknowledgeStop(s.sup))
  {
  }

  /** What was asked to stop stays so: by a cancellation, or by the acknowledged result of a STOP. */
  lemma {:induction false} StoppingIff(cfg: Config, s: Runner, e: Input)
    ensures Advance(cfg, s, e).stopping
            <==> s.stopping || e.Cancel?
                 || (e.ActionCompleted? && s.pc.Completing?
                     && s.commands != [] && s.commands[|s.commands| - 1].action.Stop?)
  {
  }

  /* ------------------------------------------------------------------ what is journaled */

  /** An append that resolved, of the entry that the supervisor is flushing. */
  predicate Appended(s: Runner, e: Input) {
    && s.pc.Supervised?
    && ((e == IntentFlushed(true) && s.sup.pending.FlushingIntent?)
        || (e == ResultFlushed(true) && s.sup.pending.FlushingResult?))
  }

  function Flushing(p: Pending): Entry
    requires p.FlushingIntent? || p.FlushingResult?
  {
    if p.FlushingIntent? then p.intent else p.outcome
  }

  /** The journal's wrapper never finds an entry of another command. */
  lemma {:induction false} AlwaysMatches(cfg: Config, s: Runner)
    requires Safe(cfg, s) && s.pc.Supervised?
    ensures s.commands != []
    ensures s.sup.pending.FlushingIntent? ==> MayJournal(s, s.sup.pending.intent)
    ensures s.sup.pending.FlushingResult? ==> MayJournal(s, s.sup.pending.outcome)
  {
    PendingKnown(cfg, s.sup);
    assert Live(s) && |s.sup.admitted| == |s.commands|;
  }

  /**
   * The journal grows exactly by the appends that resolved, each with the supervisor's entry under the
   * identity of the command being performed; an append that failed sends `perform` to its recovery.
   */
  lemma {:induction false} JournaledIff(cfg: Config, es: seq<Input>, e: Input)
    ensures var s, t := After(cfg, es), After(cfg, es + [e]);
            if Appended(s, e) then s.commands != []
              && t.journal == s.journal + [Tagged(Flushing(s.sup.pending), s.commands[|s.commands| - 1])]
            else t.journal == s.journal
    ensures var s, t := After(cfg, es), After(cfg, es + [e]);
            Rejects(s, e) ==> t.pc == Returned(s.pc.id, Rejected)
  {
    AfterMore(cfg, es, e);
    Reachable(cfg, es);
    var s := After(cfg, es);
    if s.pc.Supervised? {
      AlwaysMatches(cfg, s);
    }
    JournalRow(cfg, s, e);
  }

  predicate Rejects(s: Runner, e: Input) {
    && s.pc.Supervised?
    && ((e == IntentFlushed(false) && s.sup.pending.FlushingIntent?)
        || (e == ResultFlushed(false) && s.sup.pending.FlushingResult?))
  }

  lemma {:induction false} JournalRow(cfg: Config, s: Runner, e: Input)
    requires s.pc.Supervised? ==>
               && s.commands != []
               && (s.sup.pending.FlushingIntent? ==> MayJournal(s, s.sup.pending.intent))
               && (s.sup.pending.FlushingResult? ==> MayJournal(s, s.sup.pending.outcome))
    ensures Advance(cfg, s, e).journal
            == if Appended(s, e) then s.journal + [Tagged(Flushing(s.sup.pending), s.commands[|s.commands| - 1])]
               else s.journal
    ensures Rejects(s, e) ==> Advance(cfg, s, e).pc == Returned(s.pc.id, Rejected)
  {
  }

  /* ------------------------------------------------------------------ `finish` */

  /** A journal entry of the command: without a result when it is the intent, and else resolved. */
  predicate EntryOf(e: Entry, c: Command, lease: Lease, intent: bool) {
    && e.serverActionId == Some(c.actionId) && e.sequence == c.sequence && e.action == c.action
    && e.leaseId == lease.leaseId && e.epoch == lease.epoch
    && if intent then e.result.None? else e.result == Some(Succeeded) || e.result == Some(Failed)
  }

  /** `finish` passes exactly a journal of one intent and one result for every command, ended by a successful STOP. */
  lemma {:induction false} TailIff(entries: seq<Entry>, commands: seq<Command>, lease: Lease)
    ensures TailChecks(entries, commands, lease)
            <==> && commands != [] && |entries| == 2 * |commands|
                 && (forall j :: 0 <= j < |entries| ==> EntryOf(entries[j], commands[j / 2], lease, j % 2 == 0))
                 && entries[|entries| - 1].action == Stop && entries[|entries| - 1].result == Some(Succeeded)
  {
    if TailChecks(entries, commands, lease) {
      forall j | 0 <= j < |entries|
        ensures EntryOf(entries[j], commands[j / 2], lease, j % 2 == 0)
      {
        assert TailPair(entries, commands, lease, j / 2);
        assert j == 2 * (j / 2) || j == 2 * (j / 2) + 1;
      }
    } else if |entries| == 2 * |commands| {
      if forall j :: 0 <= j < |entries| ==> EntryOf(entries[j], commands[j / 2], lease, j % 2 == 0) {
        forall k | 0 <= k < |commands|
          ensures TailPair(entries, commands, lease, k)
        {
          assert EntryOf(entries[2 * k], commands[2 * k / 2], lease, 2 * k % 2 == 0);
          assert EntryOf(entries[2 * k + 1], commands[(2 * k + 1) / 2], lease, (2 * k + 1) % 2 == 0);
        }
      }
    }
  }
}
