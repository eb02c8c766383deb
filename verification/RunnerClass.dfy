/** The runner's methods, one for each uninterrupted piece; `View` is the state the lemmas speak of. */
module RunnerClass {
  import opened Basics
  import opened Supervision
  import opened Runner
  import opened JournalFile

  /** `finally` of `perform`. */
  function Left(s: Runner): Runner {
    s.(aborted := true, executing := false, busy := false, pc := Idle)
  }

  /** `catch` of `perform`, with the identity of the action if it has one. */
  function Caught(s: Runner, id: Option<string>): Runner {
    if id.Some? then s.(fenced := true, aborted := true, executing := false, pc := Recovering(id.value))
    else Left(s.(fenced := true))
  }

  /* ---- what the pieces change, and that the changes are the machine's steps ---- */

  function AfterCancel(s: Runner): Runner {
    s.(stopping := true, executing := false, aborted := true, sup := Supervision.Step(s.sup, Event.RequestCancellation))
  }

  function AfterOrigin(s: Runner, seen: string): Runner
    requires s.pc.LocatingOrigin?
  {
    if s.stopping then Caught(s.(origin := seen), None)
    else s.(origin := seen, sequence := s.sequence + 1, pc := RetainingIntent(s.pc.req))
  }

  function AfterCommit(s: Runner, c: Command, now: real, utc: string): Runner
    requires s.pc.Committing?
  {
    if Accepted(s, s.pc.req, s.pc.id, c) then Admitted(s, c, now, utc) else Caught(s, Some(s.pc.id))
  }

  function Admitted(s: Runner, c: Command, now: real, utc: string): Runner {
    s.(rows := s.rows + [Row(c, None)], commands := s.commands + [c], executing := true, aborted := false,
       pc := if Gate(s.sup, c.action, now).Some? then Returned(c.actionId, GateRefused) else Supervised(c.actionId),
       sup := Supervision.Step(s.sup, Event.Perform(c.action, c.keyChord, c.text, now, utc)))
  }

  /** The journal wrapper around the intent's append, which would resolve to `ok`. */
  function AfterIntent(s: Runner, ok: bool): Runner
    requires s.pc.Supervised? && s.sup.pending.FlushingIntent?
  {
    if ok && MayJournal(s, s.sup.pending.intent) then
      s.(journal := s.journal + [Tagged(s.sup.pending.intent, ServerCommand(s).value)],
          sup := Supervision.Step(s.sup, IntentAppended))
    else
      s.(pc := Returned(s.pc.id, Rejected), sup := Supervision.Step(s.sup, IntentAppendFailed))
  }

  function AfterResult(s: Runner, ok: bool): Runner
    requires s.pc.Supervised? && s.sup.pending.FlushingResult?
  {
    if ok && MayJournal(s, s.sup.pending.outcome) then
      s.(journal := s.journal + [Tagged(s.sup.pending.outcome, ServerCommand(s).value)],
          sup := Supervision.Step(s.sup, ResultAppended))
    else
      s.(pc := Returned(s.pc.id, Rejected), sup := Supervision.Step(s.sup, ResultAppendFailed))
  }

  function AfterRetained(s: Runner): Runner
    requires s.cont.RetainingPreflight?
  {
    s.(retained := s.retained + [Preflight(s.cont.c.actionId, s.cont.passed)],
       cont := if s.cont.passed && !s.aborted && Open(s) then Authorizing(s.cont.c) else Failing)
  }

  function AfterOriginAgain(s: Runner, seen: string, inTime: bool): Runner
    requires s.cont.SeeingOrigin?
  {
    if Open(s) && inTime && seen == s.origin then s.(cont := InAdapter(s.cont.c), entered := s.entered + [s.cont.c])
    else s.(cont := Failing)
  }

  function AfterRace(s: Runner, now: real): Runner {
    s.(cont := NoCont,
       sup := Supervision.Step(s.sup, if s.cont.Resolved? then DispatchResolved(s.cont.ok, now) else DispatchLost(now)))
  }

  function AfterFinish(s: Runner): Runner {
    if s.busy || s.fenced || !s.stopSucceeded || !MayAcknowledgeStop(s.sup) then s
    else s.(busy := true, fenced := true, pc := Closing)
  }

  function AfterResume(s: Runner): Runner
    requires s.pc.Returned?
  {
    if s.pc.outcome.Rejected? then Caught(s, Some(s.pc.id))
    else s.(aborted := true, executing := false, fenced := s.fenced || ResumedStatus(s).Ambiguous?,
            pc := Completing(s.pc.id, ResumedStatus(s)))
  }

  function AfterCompletion(s: Runner): Runner
    requires s.pc.Completing? && s.commands != []
  {
    var stop := s.commands[|s.commands| - 1].action.Stop?;
    Left(s.(rows := SetLastStatus(s.rows, s.pc.status), stopping := s.stopping || stop,
            stopSucceeded := if stop then s.pc.status.Succeeded? else s.stopSucceeded,
            sup := if stop then Supervision.Step(s.sup, Event.RequestCancellation) else s.sup))
  }

  function Closed(s: Runner, succeeded: bool): Runner {
    s.(stopping := true, stopSucceeded := succeeded, sup := Supervision.Step(s.sup, Event.RequestCancellation))
  }

  function AfterCheck(cfg: Config, s: Runner): Runner {
    if ChecksOut(cfg, s) then s.(pc := Posting, posted := s.posted + 1) else s.(busy := false, pc := Idle)
  }

  lemma {:induction false} CancelAdvances(cfg: Config, s: Runner)
    ensures Advance(cfg, s, Cancel) == AfterCancel(s)
  {
  }

  lemma {:induction false} OriginAdvances(cfg: Config, s: Runner, seen: string)
    requires s.pc.LocatingOrigin?
    ensures Advance(cfg, s, Input.OriginSeen(seen)) == AfterOrigin(s, seen)
  {
  }

  lemma {:induction false} CommitAdvances(cfg: Config, s: Runner, c: Command, now: real, utc: string)
    requires s.pc.Committing?
    ensures Advance(cfg, s, Input.DispatchCommitted(c, now, utc)) == AfterCommit(s, c, now, utc)
  {
  }

  lemma {:induction false} IntentAdvances(cfg: Config, s: Runner, ok: bool)
    requires s.pc.Supervised? && s.sup.pending.FlushingIntent?
    ensures Advance(cfg, s, Input.IntentFlushed(ok)) == AfterIntent(s, ok)
  {
  }

  lemma {:induction false} ResultAdvances(cfg: Config, s: Runner, ok: bool)
    requires s.pc.Supervised? && s.sup.pending.FlushingResult?
    ensures Advance(cfg, s, Input.ResultFlushed(ok)) == AfterResult(s, ok)
  {
  }

  lemma {:induction false} ResumeAdvances(cfg: Config, s: Runner)
    requires s.pc.Returned?
    ensures Advance(cfg, s, Input.Resume) == AfterResume(s)
  {
  }

  lemma {:induction false} RetainedAdvances(cfg: Config, s: Runner)
    requires s.cont.RetainingPreflight?
    ensures Advance(cfg, s, Callback(ContRetained)) == AfterRetained(s)
  {
  }

  lemma {:induction false} AdapterAdvances(cfg: Config, s: Runner, seen: string, inTime: bool)
    requires s.cont.SeeingOrigin?
    ensures Advance(cfg, s, Callback(ContOrigin(seen, inTime))) == AfterOriginAgain(s, seen, inTime)
  {
  }

  lemma {:induction false} RaceAdvances(cfg: Config, s: Runner, now: real)
    requires s.pc.Supervised? && s.sup.pending.Dispatching? && (s.cont.Resolved? || s.cont.Failing?)
    ensures Advance(cfg, s, RaceSettled(now)) == AfterRace(s, now)
  {
  }

  lemma {:induction false} FinishAdvances(cfg: Config, s: Runner)
    ensures Advance(cfg, s, RequestFinish) == AfterFinish(s)
  {
  }

  lemma {:induction false} CheckAdvances(cfg: Config, s: Runner)
    requires s.pc.Closing?
    ensures Advance(cfg, s, FinishRead) == AfterCheck(cfg, s)
  {
  }

  lemma {:induction false} CompletionAdvances(cfg: Config, s: Runner)
    requires s.pc.Completing? && s.commands != []
    ensures Advance(cfg, s, Input.ActionCompleted) == AfterCompletion(s)
  {
  }

  class AuthenticatedRunner {
    const cfg: Config
    const supervisor: Supervisor
    var sequence: nat
    var busy: bool
    var fenced: bool
    var stopping: bool
    var executing: bool
    var started: bool
    var stopSucceeded: bool
    var commands: seq<Command>
    var aborted: bool
    var origin: string
    var pc: Pc
    var cont: Cont
    ghost var journal: seq<Entry>
    ghost var rows: seq<Row>
    ghost var retained: seq<Preflight>
    ghost var entered: seq<Command>
    ghost var posted: nat

    ghost function View(): Runner
      reads this, supervisor
    {
      Runner(supervisor.View(), sequence, busy, fenced, stopping, executing, started, stopSucceeded, commands, aborted,
             origin, pc, cont, journal, rows, retained, entered, posted)
    }

    constructor (cfg: Config)
      ensures this.cfg == cfg && fresh(supervisor) && View() == Start(cfg)
    {
      var s := new Supervisor(cfg.started);
      var ok := s.AdoptLease(cfg.lease);
      this.cfg, supervisor := cfg, s;
      sequence, busy, fenced, stopping := 0, false, false, false;
      executing, started, stopSucceeded := false, false, false;
      commands, aborted, origin, pc, cont := [], true, "", Idle, NoCont;
      journal, rows, retained, entered, posted := [], [], [], [], 0;
    }

    /** `requestCancellation`. */
    method RequestCancellation()
      modifies this`stopping, this`executing, this`aborted, supervisor
      ensures View() == AfterCancel(old(View()))
    {
      stopping := true;
      CloseAuthority();
      supervisor.RequestCancellation();
    }

    /** Neither the adapter nor an approval may proceed. */
    method CloseAuthority()
      modifies this`executing, this`aborted
      ensures View() == old(View()).(executing := false, aborted := true)
    {
      executing := false;
      aborted := true;
    }

    /** `finally` of `perform`. */
    method Leave()
      modifies this`aborted, this`executing, this`busy, this`pc
      ensures View() == Left(old(View()))
    {
      aborted := true;
      executing := false;
      busy := false;
      pc := Idle;
    }

    /** `catch` of `perform`: fence first, then report AMBIGUOUS if the action has an identity. */
    method Catch(id: Option<string>)
      modifies this`fenced, this`aborted, this`executing, this`busy, this`pc
      ensures View() == Caught(old(View()), id)
    {
      executing := false;
      fenced := true;
      aborted := true;
      if id.Some? {
        pc := Recovering(id.value);
      } else {
        Leave();
      }
    }

    method Perform(req: Request) returns (refused: bool)
      modifies this`busy, this`pc
      ensures View() == Advance(cfg, old(View()), RequestPerform(req))
      ensures refused == old(busy || fenced || stopping)
    {
      if busy || fenced || stopping {
        return true;
      }
      busy := true;
      pc := if started then Probing(req) else ReadingJournal(req);
      return false;
    }

    /** The first `perform` has read the journal file. */
    method JournalWasRead(entries: seq<Entry>)
      requires pc.ReadingJournal? && entries == EntriesRead(cfg, View())
      modifies this`started, this`fenced, this`aborted, this`executing, this`busy, this`pc
      ensures View() == Advance(cfg, old(View()), JournalRead)
    {
      if |entries| != 0 {
        Catch(None);
      } else {
        started := true;
        pc := Probing(pc.req);
      }
    }

    method Probed(passed: bool)
      requires pc.Probing?
      modifies this`fenced, this`aborted, this`executing, this`busy, this`pc
      ensures View() == Advance(cfg, old(View()), Input.Probed(passed))
    {
      if passed {
        pc := LocatingOrigin(pc.req);
      } else {
        Catch(None);
      }
    }

    method OriginSeen(seen: string)
      requires pc.LocatingOrigin?
      modifies this`origin, this`sequence, this`fenced, this`aborted, this`executing, this`busy, this`pc
      ensures View() == AfterOrigin(old(View()), seen)
    {
      origin := seen;
      if stopping {
        Catch(None);
      } else {
        sequence := sequence + 1;
        pc := RetainingIntent(pc.req);
      }
    }

    method IntentRetained(id: string)
      requires pc.RetainingIntent?
      modifies this`pc
      ensures View() == Advance(cfg, old(View()), Input.IntentRetained(id))
    {
      pc := Committing(pc.req, id);
    }

    /** The control plane committed `command`; the supervisor's gate decides next. */
    method DispatchCommitted(command: Command, now: real, utc: string)
      requires pc.Committing?
      modifies this, supervisor
      ensures View() == AfterCommit(old(View()), command, now, utc)
    {
      if command.actionId != pc.id || command.sequence != sequence || command.action != pc.req.action {
        Catch(Some(pc.id));
      } else {
        Admit(command, now, utc);
      }
    }

    method Register(command: Command)
      modifies this`commands, this`rows, this`executing, this`aborted
      ensures View()
                  == old(View()).(rows := old(rows) + [Row(command, None)], commands := old(commands) + [command],
                      executing := true, aborted := false)
    {
      commands := commands + [command];
      rows := rows + [Row(command, None)];
      executing := true;
      aborted := false;
    }

    method Admit(command: Command, now: real, utc: string)
      modifies this`commands, this`rows, this`executing, this`aborted, this`pc, supervisor
      ensures View() == Admitted(old(View()), command, now, utc)
    {
      Register(command);
      var refusal := supervisor.PerformAction(command.action, command.keyChord, command.text, now, utc);
      pc := if refusal.Some? then Returned(command.actionId, GateRefused) else Supervised(command.actionId);
    }

    /** The journal wrapper around the intent's append; `ok` is the inner journal's answer. */
    method IntentAppend(ok: bool)
      requires pc.Supervised? && supervisor.pending.FlushingIntent?
      modifies this`journal, this`pc, supervisor
      ensures View() == AfterIntent(old(View()), ok)
    {
      var entry := supervisor.pending.intent;
      if ok && commands != [] && entry.sequence == commands[|commands| - 1].sequence {
        journal := journal + [entry.(serverActionId := Some(commands[|commands| - 1].actionId))];
        supervisor.IntentFlushed(true);
      } else {
        supervisor.IntentFlushed(false);
        pc := Returned(pc.id, Rejected);
      }
    }

    method ResultAppend(ok: bool)
      requires pc.Supervised? && supervisor.pending.FlushingResult?
      modifies this`journal, this`pc, supervisor
      ensures View() == AfterResult(old(View()), ok)
    {
      var entry := supervisor.pending.outcome;
      if ok && commands != [] && entry.sequence == commands[|commands| - 1].sequence {
        journal := journal + [entry.(serverActionId := Some(commands[|commands| - 1].actionId))];
        supervisor.ResultFlushed(true);
      } else {
        supervisor.ResultFlushed(false);
        pc := Returned(pc.id, Rejected);
      }
    }

    /** The supervisor calls the dispatch callback. */
    method Dispatch()
      requires pc.Supervised? && supervisor.pending.IntentDurable? && supervisor.lease.Some? && commands != []
      modifies this`cont, supervisor
      ensures View() == Advance(cfg, old(View()), DispatchCalled)
    {
      var ignored := supervisor.CallDispatch();
      cont := Preflighting(commands[|commands| - 1]);
    }

    /** The last check before the adapter, after the origin was observed again. */
    method ReachAdapter(seen: string, inTime: bool)
      requires cont.SeeingOrigin?
      modifies this`cont, this`entered
      ensures View() == AfterOriginAgain(old(View()), seen, inTime)
    {
      if !executing || stopping || fenced || !inTime || seen != origin {
        cont := Failing;
      } else {
        entered := entered + [cont.c];
        cont := InAdapter(cont.c);
      }
    }

    /** The runtime preflight for the command was retained. */
    method PreflightRetained()
      requires cont.RetainingPreflight?
      modifies this`cont, this`retained
      ensures View() == AfterRetained(old(View()))
    {
      retained := retained + [Preflight(cont.c.actionId, cont.passed)];
      if !cont.passed || aborted || !executing || stopping || fenced {
        cont := Failing;
      } else {
        cont := Authorizing(cont.c);
      }
    }

    /** The race ended with the callback's own answer, or with its failure. */
    method RaceSettles(now: real)
      requires pc.Supervised? && supervisor.pending.Dispatching? && (cont.Resolved? || cont.Failing?)
      modifies this`cont, supervisor
      ensures View() == AfterRace(old(View()), now)
    {
      supervisor.DispatchSettled(if cont.Resolved? then Some(cont.ok) else None, now);
      cont := NoCont;
    }

    /** The race ended with the timeout; the callback is left running. */
    method RaceTimesOut(now: real)
      requires pc.Supervised? && supervisor.pending.Dispatching?
      modifies supervisor
      ensures View() == Advance(cfg, old(View()), RaceTimedOut(now))
    {
      supervisor.DispatchSettled(None, now);
    }

    method SupervisorReturns()
      requires pc.Supervised? && supervisor.pending.ResultDurable? && supervisor.pending.outcome.result.Some?
      modifies this`pc, supervisor
      ensures View() == Advance(cfg, old(View()), Input.SupervisorReturns)
    {
      var status := supervisor.Return();
      pc := Returned(pc.id, Settled(status));
    }

    /** `perform` resumes after the supervisor. */
    method Resume()
      requires pc.Returned?
      modifies this`fenced, this`aborted, this`executing, this`busy, this`pc
      ensures View() == AfterResume(old(View()))
    {
      if pc.outcome.Rejected? {
        Catch(Some(pc.id));
      } else {
        aborted := true;
        executing := false;
        var status := if pc.outcome.GateRefused? then Ambiguous else pc.outcome.status;
        if status.Ambiguous? {
          fenced := true;
        }
        pc := Completing(pc.id, status);
      }
    }

    /** The control plane acknowledged the result. */
    method ActionCompleted()
      requires pc.Completing? && commands != [] && |rows| == |commands|
      modifies this, supervisor
      ensures View() == AfterCompletion(old(View()))
    {
      var last := |rows| - 1;
      rows := rows[last := rows[last].(status := Some(pc.status))];
      if commands[|commands| - 1].action.Stop? {
        CloseInput(pc.status.Succeeded?);
      }
      Leave();
    }

    /** A local input fence after STOP, not a server cancellation. */
    method CloseInput(succeeded: bool)
      modifies this`stopping, this`stopSucceeded, supervisor
      ensures View() == Closed(old(View()), succeeded)
    {
      stopping := true;
      supervisor.RequestCancellation();
      stopSucceeded := succeeded;
    }

    /** `finish`'s guard. */
    method Finish() returns (refused: bool)
      modifies this`busy, this`fenced, this`pc
      ensures View() == AfterFinish(old(View()))
      ensures refused == old(busy || fenced || !stopSucceeded || !MayAcknowledgeStop(supervisor.View()))
    {
      var may := supervisor.MayAcknowledge();
      if busy || fenced || !stopSucceeded || !may {
        return true;
      }
      busy := true;
      fenced := true;
      pc := Closing;
      return false;
    }

    /** `finish` has read the journal file. */
    method FinishChecks(entries: seq<Entry>)
      requires pc.Closing? && entries == EntriesRead(cfg, View())
      modifies this`busy, this`pc, this`posted
      ensures View() == AfterCheck(cfg, old(View()))
    {
      var ok := CheckTail(entries, commands, cfg.lease);
      if ok {
        pc := Posting;
        posted := posted + 1;
      } else {
        busy := false;
        pc := Idle;
      }
    }
  }
}
