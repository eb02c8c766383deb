/**
 * The authenticated runner: the supervisor in lockstep with a one-shot control-plane session.
 *
 * As in `Supervision`, a step is one uninterrupted piece of code and a run is any list of steps.
 * `pc` is the `await` at which `perform` or `finish` is suspended; `cont` is the dispatch callback,
 * which goes on by itself when the supervisor's race with the timeout has given up on it. The
 * session is its port: each call is acknowledged (a step of its own) or throws (`Throws`).
 */
module Runner {
  import opened Basics
  import opened Supervision
  import opened JournalFile

  /** What the runner is constructed with, and the journal file as it was found. */
  datatype Config = Config(lease: Lease, formEffects: bool, started: real, codec: Codec, initial: string)

  datatype Request = Request(action: Action, keyChord: Option<string>)

  /** How the supervisor's `performAction` ended. */
  datatype Outcome = Settled(status: Status) | GateRefused | Rejected

  datatype Pc =
    | Idle
    | ReadingJournal(req: Request)
    | Probing(req: Request)
    | LocatingOrigin(req: Request)
    | RetainingIntent(req: Request)
    | Committing(req: Request, id: string)
    | Supervised(id: string)
    | Returned(id: string, outcome: Outcome)
    | Completing(id: string, status: Status)
    | Recovering(id: string)
    | Closing
    | Posting

  /** Where the dispatch callback is. */
  datatype Cont =
    | NoCont
    | Preflighting(c: Command)
    | RetainingPreflight(c: Command, passed: bool)
    | Authorizing(c: Command)
    | AuthorizingForm(c: Command)
    | SeeingOrigin(c: Command)
    | InAdapter(c: Command)
    | Observing(c: Command, ok: bool, stage: nat)
    | Resolved(ok: bool)
    | Failing

  /** An action as the control plane has committed it, and the result it has acknowledged. */
  datatype Row = Row(command: Command, status: Option<Status>)

  datatype Preflight = Preflight(actionId: string, allTrue: bool)

  datatype Runner = Runner(
    sup: State, sequence: nat, busy: bool, fenced: bool, stopping: bool, executing: bool, started: bool,
    stopSucceeded: bool, commands: seq<Command>, aborted: bool, origin: string,
    pc: Pc, cont: Cont,
    journal: seq<Entry>, rows: seq<Row>, retained: seq<Preflight>, entered: seq<Command>, posted: nat)

  function Start(cfg: Config): Runner {
    Runner(Supervision.Step(Supervision.Init(cfg.started), AdoptLease(cfg.lease)),
           0, false, false, false, false, false, false, [], true, "", Idle, NoCont, [], [], [], [], 0)
  }

  /** What resumes the dispatch callback; `inTime` is its deadline and clock check. */
  datatype Wake =
    | ContProbed(passed: bool, inTime: bool)
    | ContRetained
    | ContAuthorized
    | ContFormPermitted
    | ContOrigin(origin: string, inTime: bool)
    | ContAdapter(ok: bool, observed: bool)
    | ContObserved
    | ContThrows

  datatype Input =
    | RequestPerform(req: Request)
    | JournalRead
    | Probed(passed: bool)
    | OriginSeen(origin: string)
    | IntentRetained(id: string)
    | DispatchCommitted(command: Command, now: real, utc: string)
    | Throws
    | IntentFlushed(ok: bool)
    | DispatchCalled
    | Callback(wake: Wake)
    | RaceSettled(now: real)
    | RaceTimedOut(now: real)
    | ResultFlushed(ok: bool)
    | SupervisorReturns
    | Resume
    | ActionCompleted
    | Cancel
    | AuthorityTimesOut
    | RequestFinish
    | FinishRead
    | FinishReply

  /* ------------------------------------------------------------------ what the pieces look at */

  /** The `serverCommand` field: the last command, once one was committed. */
  function ServerCommand(s: Runner): Option<Command> {
    if s.commands == [] then None else Some(s.commands[|s.commands| - 1])
  }

  /** The journal wrapper's identity check, and the entry it passes on. */
  predicate MayJournal(s: Runner, e: Entry) {
    ServerCommand(s).Some? && e.sequence == ServerCommand(s).value.sequence
  }

  function Tagged(e: Entry, c: Command): Entry {
    e.(serverActionId := Some(c.actionId))
  }

  predicate Open(s: Runner) {
    s.executing && !s.stopping && !s.fenced
  }

  predicate FormEffect(c: Command) {
    c.action.Activate? || (c.action.KeyChord? && (c.keyChord == Some("ENTER") || c.keyChord == Some("SPACE")))
  }

  predicate Accepted(s: Runner, req: Request, id: string, c: Command) {
    c.actionId == id && c.sequence == s.sequence && c.action == req.action
  }

  /** The dispatch callback between two of its awaits. */
  function ContNext(cfg: Config, s: Runner, wake: Wake): Cont {
    match (s.cont, wake)
    case (Preflighting(c), ContProbed(passed, inTime)) =>
      if Open(s) && inTime then RetainingPreflight(c, passed) else Failing
    case (RetainingPreflight(c, passed), ContRetained) =>
      if passed && !s.aborted && Open(s) then Authorizing(c) else Failing
    case (Authorizing(c), ContAuthorized) =>
      if s.aborted then Failing else if cfg.formEffects && FormEffect(c) then AuthorizingForm(c) else SeeingOrigin(c)
    case (AuthorizingForm(c), ContFormPermitted) => SeeingOrigin(c)
    case (SeeingOrigin(c), ContOrigin(origin, inTime)) =>
      if Open(s) && inTime && origin == s.origin then InAdapter(c) else Failing
    case (InAdapter(c), ContAdapter(ok, observed)) =>
      if !observed then Resolved(ok) else if Open(s) then Observing(c, ok, 0) else Failing
    case (Observing(c, ok, stage), ContObserved) =>
      if stage >= 2 then Resolved(ok) else if Open(s) then Observing(c, ok, stage + 1) else Failing
    case (_, ContThrows) => if Active(s.cont) then Failing else s.cont
    case _ => s.cont
  }

  /** The callback has neither settled nor been abandoned. */
  predicate Active(k: Cont) {
    !k.NoCont? && !k.Resolved? && !k.Failing?
  }

  /** The supervisor step that an input causes, if any. */
  function SupEvent(s: Runner, e: Input): Option<Event> {
    match e
    case DispatchCommitted(c, now, utc) =>
      if s.pc.Committing? && Accepted(s, s.pc.req, s.pc.id, c)
      then Some(Perform(c.action, c.keyChord, c.text, now, utc)) else None
    case IntentFlushed(ok) =>
      if s.pc.Supervised? && s.sup.pending.FlushingIntent?
      then Some(if ok && MayJournal(s, s.sup.pending.intent) then IntentAppended else IntentAppendFailed) else None
    case DispatchCalled => if s.pc.Supervised? && s.sup.pending.IntentDurable? then Some(CallDispatch) else None
    case RaceSettled(now) =>
      if s.pc.Supervised? && s.sup.pending.Dispatching? && s.cont.Resolved? then Some(DispatchResolved(s.cont.ok, now))
      else if s.pc.Supervised? && s.sup.pending.Dispatching? && s.cont.Failing? then Some(DispatchLost(now))
      else None
    case RaceTimedOut(now) => if s.pc.Supervised? && s.sup.pending.Dispatching? then Some(DispatchLost(now)) else None
    case ResultFlushed(ok) =>
      if s.pc.Supervised? && s.sup.pending.FlushingResult?
      then Some(if ok && MayJournal(s, s.sup.pending.outcome) then ResultAppended else ResultAppendFailed) else None
    case SupervisorReturns => if s.pc.Supervised? && s.sup.pending.ResultDurable? then Some(Event.Return) else None
    case Cancel => Some(RequestCancellation)
    case ActionCompleted => if StopCompleted(s) then Some(RequestCancellation) else None
    case _ => None
  }

  predicate StopCompleted(s: Runner) {
    s.pc.Completing? && ServerCommand(s).Some? && ServerCommand(s).value.action.Stop?
  }

  function SupNext(s: Runner, e: Input): State {
    if SupEvent(s, e).Some? then Supervision.Step(s.sup, SupEvent(s, e).value) else s.sup
  }

  function SetLastStatus(rows: seq<Row>, status: Status): seq<Row> {
    if rows == [] then rows else rows[|rows| - 1 := rows[|rows| - 1].(status := Some(status))]
  }

  /**
   * The journal file. An append that fails leaves part of a line behind as well, but then `perform`
   * fences before anything reads the file again.
   */
  function FileOf(cfg: Config, s: Runner): string {
    cfg.initial + Lines(cfg.codec, s.journal)
  }

  function EntriesRead(cfg: Config, s: Runner): seq<Entry> {
    Read(cfg.codec, FileOf(cfg, s))
  }

  /* ------------------------------------------------------------------ what happens in a step */

  predicate PreCommit(pc: Pc) {
    pc.ReadingJournal? || pc.Probing? || pc.LocatingOrigin? || pc.RetainingIntent? || pc.Committing?
  }

  predicate Starts(s: Runner, e: Input) {
    e.RequestPerform? && !s.busy && !s.fenced && !s.stopping
  }

  predicate FindsEmpty(cfg: Config, s: Runner, e: Input) {
    e.JournalRead? && s.pc.ReadingJournal? && EntriesRead(cfg, s) == []
  }

  predicate Numbers(s: Runner, e: Input) {
    e.OriginSeen? && s.pc.LocatingOrigin? && !s.stopping
  }

  predicate Commits(s: Runner, e: Input) {
    e.DispatchCommitted? && s.pc.Committing? && Accepted(s, s.pc.req, s.pc.id, e.command)
  }

  /** `catch` of `perform`. */
  predicate Catches(cfg: Config, s: Runner, e: Input) {
    match e
    case JournalRead => s.pc.ReadingJournal? && EntriesRead(cfg, s) != []
    case Probed(passed) => s.pc.Probing? && !passed
    case OriginSeen(_) => s.pc.LocatingOrigin? && s.stopping
    case DispatchCommitted(_, _, _) => s.pc.Committing? && !Commits(s, e)
    case Throws => PreCommit(s.pc) || s.pc.Completing?
    case Resume => s.pc.Returned? && s.pc.outcome.Rejected?
    case _ => false
  }

  /** The action has an identity, so `catch` reports it as AMBIGUOUS. */
  predicate Identified(pc: Pc) {
    pc.Committing? || pc.Completing? || pc.Returned?
  }

  predicate Acknowledges(s: Runner, e: Input) {
    e.ActionCompleted? && (s.pc.Completing? || s.pc.Recovering?)
  }

  /** `perform` returns. */
  predicate Leaves(cfg: Config, s: Runner, e: Input) {
    (Catches(cfg, s, e) && !Identified(s.pc)) || Acknowledges(s, e) || (e.Throws? && s.pc.Recovering?)
  }

  /** `performAction` returned to `perform`. */
  predicate Resumes(s: Runner, e: Input) {
    e.Resume? && s.pc.Returned? && !s.pc.outcome.Rejected?
  }

  /** A refusal by the local gate after the server's commitment is reported as AMBIGUOUS. */
  function ResumedStatus(s: Runner): Status {
    if s.pc.Returned? && s.pc.outcome.Settled? then s.pc.outcome.status else Ambiguous
  }

  /** The acknowledged action is the STOP. */
  predicate Stops(s: Runner, e: Input) {
    e.ActionCompleted? && StopCompleted(s)
  }

  predicate Finishes(s: Runner, e: Input) {
    e.RequestFinish? && !s.busy && !s.fenced && s.stopSucceeded && MayAcknowledgeStop(s.sup)
  }

  predicate ChecksOut(cfg: Config, s: Runner) {
    TailChecks(EntriesRead(cfg, s), s.commands, cfg.lease)
  }

  predicate Posts(cfg: Config, s: Runner, e: Input) {
    e.FinishRead? && s.pc.Closing? && ChecksOut(cfg, s)
  }

  predicate EndsFinish(cfg: Config, s: Runner, e: Input) {
    || (e.FinishRead? && s.pc.Closing? && !ChecksOut(cfg, s))
    || (e.FinishReply? && s.pc.Posting?)
    || (e.Throws? && (s.pc.Closing? || s.pc.Posting?))
  }

  predicate Enters(cfg: Config, s: Runner, e: Input) {
    e.Callback? && s.cont.SeeingOrigin? && ContNext(cfg, s, e.wake).InAdapter?
  }

  /** The journal wrapper passes an entry on. */
  predicate Journals(s: Runner, e: Input) {
    s.commands != [] && (SupEvent(s, e) == Some(IntentAppended) || SupEvent(s, e) == Some(ResultAppended))
  }

  /* ------------------------------------------------------------------ effects, one field at a time */

  function PcNext(cfg: Config, s: Runner, e: Input): Pc {
    match e
    case RequestPerform(req) => if !Starts(s, e) then s.pc else if s.started then Probing(req) else ReadingJournal(req)
    case JournalRead => if FindsEmpty(cfg, s, e) then Probing(s.pc.req) else if Catches(cfg, s, e) then Idle else s.pc
    case Probed(passed) => if !s.pc.Probing? then s.pc else if passed then LocatingOrigin(s.pc.req) else Idle
    case OriginSeen(_) => if Numbers(s, e) then RetainingIntent(s.pc.req) else if Catches(cfg, s, e) then Idle else s.pc
    case IntentRetained(id) => if s.pc.RetainingIntent? then Committing(s.pc.req, id) else s.pc
    case DispatchCommitted(c, now, _) =>
      if !s.pc.Committing? then s.pc
      else if !Commits(s, e) then Recovering(s.pc.id)
      else if Gate(s.sup, c.action, now).Some? then Returned(c.actionId, GateRefused)
      else Supervised(c.actionId)
    case Throws => ThrownPc(s.pc)
    case Resume =>
      if !s.pc.Returned? then s.pc
      else if s.pc.outcome.Rejected? then Recovering(s.pc.id)
      else Completing(s.pc.id, ResumedStatus(s))
    case ActionCompleted => if Acknowledges(s, e) then Idle else s.pc
    case RequestFinish => if Finishes(s, e) then Closing else s.pc
    case FinishRead => if !s.pc.Closing? then s.pc else if ChecksOut(cfg, s) then Posting else Idle
    case FinishReply => if s.pc.Posting? then Idle else s.pc
    case _ => SupervisedPc(s, SupEvent(s, e))
  }

  function ThrownPc(pc: Pc): Pc {
    if pc.Committing? || pc.Completing? then Recovering(pc.id)
    else if PreCommit(pc) || pc.Recovering? || pc.Closing? || pc.Posting? then Idle
    else pc
  }

  /** How the awaited `performAction` ends, when it does. */
  function SupervisedPc(s: Runner, ev: Option<Event>): Pc {
    if !s.pc.Supervised? then s.pc else
      match ev
      case Some(IntentAppendFailed) => Returned(s.pc.id, Rejected)
      case Some(ResultAppendFailed) => Returned(s.pc.id, Rejected)
      case Some(Return) =>
        if s.sup.pending.ResultDurable? && s.sup.pending.outcome.result.Some?
        then Returned(s.pc.id, Settled(s.sup.pending.outcome.result.value)) else s.pc
      case _ => s.pc
  }

  function CalledCont(cfg: Config, s: Runner, e: Input): Cont {
    match e
    case DispatchCalled =>
      if SupEvent(s, e).Some? && s.commands != [] then Preflighting(s.commands[|s.commands| - 1]) else s.cont
    case RaceSettled(_) => if SupEvent(s, e).Some? then NoCont else s.cont
    case Callback(wake) => ContNext(cfg, s, wake)
    case _ => s.cont
  }

  /** The journal wrapper: the entry it passes on carries the last command's identity. */
  function JournalNext(s: Runner, e: Input): seq<Entry> {
    if !Journals(s, e) then s.journal
    else if e.IntentFlushed? && s.sup.pending.FlushingIntent?
    then s.journal + [Tagged(s.sup.pending.intent, s.commands[|s.commands| - 1])]
    else if e.ResultFlushed? && s.sup.pending.FlushingResult?
    then s.journal + [Tagged(s.sup.pending.outcome, s.commands[|s.commands| - 1])]
    else s.journal
  }

  function RowsNext(s: Runner, e: Input): seq<Row> {
    if Commits(s, e) then s.rows + [Row(e.command, None)]
    else if Acknowledges(s, e) then SetLastStatus(s.rows, if s.pc.Completing? then s.pc.status else Ambiguous)
    else s.rows
  }

  function RetainedNext(s: Runner, e: Input): seq<Preflight> {
    if e.Callback? && s.cont.RetainingPreflight? && e.wake.ContRetained?
    then s.retained + [Preflight(s.cont.c.actionId, s.cont.passed)] else s.retained
  }

  function Advance(cfg: Config, s: Runner, e: Input): Runner {
    Runner(
      SupNext(s, e),
      if Numbers(s, e) then s.sequence + 1 else s.sequence,
      (s.busy || Starts(s, e) || Finishes(s, e)) && !Leaves(cfg, s, e) && !EndsFinish(cfg, s, e),
      s.fenced || Catches(cfg, s, e) || (Resumes(s, e) && ResumedStatus(s).Ambiguous?) || Finishes(s, e),
      s.stopping || e.Cancel? || Stops(s, e),
      (s.executing || Commits(s, e)) && !Catches(cfg, s, e) && !Leaves(cfg, s, e) && !Resumes(s, e) && !e.Cancel?,
      s.started || FindsEmpty(cfg, s, e),
      if Stops(s, e) then s.pc.status.Succeeded? else s.stopSucceeded,
      if Commits(s, e) then s.commands + [e.command] else s.commands,
      !Commits(s, e)
      && (s.aborted || Catches(cfg, s, e) || Leaves(cfg, s, e) || Resumes(s, e) || e.Cancel? || e.AuthorityTimesOut?),
      if e.OriginSeen? && s.pc.LocatingOrigin? then e.origin else s.origin,
      PcNext(cfg, s, e),
      CalledCont(cfg, s, e),
      JournalNext(s, e),
      RowsNext(s, e),
      RetainedNext(s, e),
      if Enters(cfg, s, e) then s.entered + [s.cont.c] else s.entered,
      if Posts(cfg, s, e) then s.posted + 1 else s.posted)
  }

  function Execute(cfg: Config, s: Runner, es: seq<Input>): Runner
    decreases |es|
  {
    if es == [] then s else Execute(cfg, Advance(cfg, s, es[0]), es[1..])
  }

  /* ------------------------------------------------------------------ `finish`'s local check */

  predicate SameAction(e: Entry, c: Command, lease: Lease) {
    && e.serverActionId == Some(c.actionId) && e.sequence == c.sequence && e.action == c.action
    && e.leaseId == lease.leaseId && e.epoch == lease.epoch
  }

  predicate TailPair(journal: seq<Entry>, commands: seq<Command>, lease: Lease, k: nat)
    requires |journal| == 2 * |commands| && k < |commands|
  {
    && SameAction(journal[2 * k], commands[k], lease) && SameAction(journal[2 * k + 1], commands[k], lease)
    && journal[2 * k].result.None?
    && (journal[2 * k + 1].result == Some(Succeeded) || journal[2 * k + 1].result == Some(Failed))
  }

  predicate TailChecks(journal: seq<Entry>, commands: seq<Command>, lease: Lease) {
    && |journal| == 2 * |commands| && journal != []
    && journal[|journal| - 1].result == Some(Succeeded) && journal[|journal| - 1].action.Stop?
    && forall k :: 0 <= k < |commands| ==> TailPair(journal, commands, lease, k)
  }

  method CheckTail(entries: seq<Entry>, commands: seq<Command>, lease: Lease) returns (ok: bool)
    ensures ok <==> TailChecks(entries, commands, lease)
  {
    if |entries| != 2 * |commands| || entries == [] || entries[|entries| - 1].result != Some(Succeeded)
       || !entries[|entries| - 1].action.Stop?
    {
      return false;
    }
    var index := 0;
    while index < |commands|
      invariant 0 <= index <= |commands|
      invariant forall k :: 0 <= k < index ==> TailPair(entries, commands, lease, k)
    {
      var command := commands[index];
      var intent, outcome := entries[2 * index], entries[2 * index + 1];
      if !SameAction(intent, command, lease) || !SameAction(outcome, command, lease) {
        assert !TailPair(entries, commands, lease, index);
        return false;
      }
      if intent.result.Some? || (outcome.result != Some(Succeeded) && outcome.result != Some(Failed)) {
        assert !TailPair(entries, commands, lease, index);
        return false;
      }
      index := index + 1;
    }
    return true;
  }
}
