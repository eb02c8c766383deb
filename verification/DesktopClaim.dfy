/**
 * The exclusive desktop claim: a marker file that outlives its owner.
 *
 * Claimants are processes, numbered by the nonce in their payload, which never repeats. A step is
 * one file-system call of one of them, or one uninterrupted piece of its runner; any of them may
 * crash between two steps. Nobody else touches the marker.
 */
module DesktopClaim {
  import opened Basics

  /** The file at the claim's path: whose payload it holds, and whether all of it. */
  datatype Marker = Marker(owner: nat, complete: bool)

  datatype RunState = Pending | Initializing | Active | Finishing | Closed

  /** What the runner's one running call is waiting for, or the next file-system call of a release. */
  datatype Stage = Idle | Writing | Starting | Performing | InnerFinish | Releasing | Unlinking

  datatype Claimant = Claimant(alive: bool, held: bool, claimClosed: bool, state: RunState, stage: Stage)

  datatype World = World(
    marker: Option<Marker>, claimants: map<nat, Claimant>,
    finished: set<nat>,  // the inner `finish` returned while the state was still FINISHING
    released: set<nat>,  // unlinked the marker
    passes: seq<nat>)    // successful `assertHeld` calls, in order

  const Empty := World(None, map[], {}, {}, [])

  /** `inTime` is the startup deadline and clock check; `unlinked` says that the unlink took effect. */
  datatype Event =
    | Create(p: nat, initialization: bool)
    | WriteEnds(p: nat, ok: bool)
    | StartInitialization(p: nat, inTime: bool)
    | StartupGate(p: nat, inTime: bool)
    | InitializationEnds(p: nat, ok: bool)
    | Cancel(p: nat)
    | AdapterGate(p: nat)
    | StartPerform(p: nat)
    | PerformEnds(p: nat, ambiguous: bool)
    | StartFinish(p: nat)
    | InnerFinishEnds(p: nat, ok: bool)
    | Release(p: nat)
    | Unlink(p: nat, unlinked: bool)
    | Crash(p: nat)

  /** `assertHeld` succeeds: the claim is open and the file is this claimant's, whole. */
  predicate Holds(w: World, p: nat) {
    && p in w.claimants && w.claimants[p].alive && w.claimants[p].held && !w.claimants[p].claimClosed
    && w.marker == Some(Marker(p, true))
  }

  predicate At(w: World, p: nat, stage: Stage) {
    p in w.claimants && w.claimants[p].alive && w.claimants[p].stage == stage
  }

  /** The runner's own cancellation, which leaves the marker alone. */
  function Cancelled(c: Claimant): Claimant {
    c.(state := Closed)
  }

  /** A passed or failed guard: failure closes claim and runner. */
  function GuardedBy(holds: bool, before: Claimant, after: Claimant): Claimant {
    if holds then after else before.(claimClosed := true, state := Closed)
  }

  /** The process is inside one uninterrupted piece: writing its marker, or releasing it. */
  predicate InOnePiece(stage: Stage) {
    stage.Writing? || stage.Releasing? || stage.Unlinking?
  }

  /** The claimant's runner exists and can be called. */
  predicate Callable(w: World, p: nat) {
    p in w.claimants && w.claimants[p].alive && w.claimants[p].held && !InOnePiece(w.claimants[p].stage)
  }

  predicate Enabled(w: World, e: Event) {
    match e
    case Create(p, _) => p !in w.claimants
    case WriteEnds(p, _) => At(w, p, Writing)
    case StartInitialization(p, _) => At(w, p, Idle) && w.claimants[p].state.Pending? && w.claimants[p].held
    // The startup hook and the inner adapter may keep their guards, and call them late.
    case StartupGate(p, _) => Callable(w, p)
    case InitializationEnds(p, _) => At(w, p, Starting)
    case Cancel(p) => p in w.claimants && w.claimants[p].alive && !InOnePiece(w.claimants[p].stage)
    case AdapterGate(p) => Callable(w, p)
    case StartPerform(p) => At(w, p, Idle) && w.claimants[p].state.Active? && w.claimants[p].held
    case PerformEnds(p, _) => At(w, p, Performing)
    case StartFinish(p) => At(w, p, Idle) && w.claimants[p].state.Active? && w.claimants[p].held
    case InnerFinishEnds(p, _) => At(w, p, InnerFinish)
    case Release(p) => At(w, p, Releasing)
    case Unlink(p, _) => At(w, p, Unlinking)
    case Crash(p) => p in w.claimants
  }

  /** The acting claimant after the step; `holds` is what its `assertHeld` finds. */
  function Acts(c: Claimant, e: Event, holds: bool): Claimant {
    match e
    // A failed write throws away the claim, never the marker.
    case WriteEnds(_, ok) => c.(held := ok, stage := Idle)
    case StartInitialization(_, inTime) =>
      if !inTime then Cancelled(c) else GuardedBy(holds, c, c.(state := Initializing, stage := Starting))
    // The startup guard only throws; its caller decides what follows.
    case StartupGate(_, inTime) => if c.state.Initializing? && inTime && !holds then c.(claimClosed := true) else c
    case InitializationEnds(_, ok) =>
      if !ok || !c.state.Initializing? then Cancelled(c.(stage := Idle))
      else GuardedBy(holds, c.(stage := Idle), c.(state := Active, stage := Idle))
    case Cancel(_) => Cancelled(c)
    case AdapterGate(_) => if c.state.Active? then GuardedBy(holds, c, c) else Cancelled(c)
    case StartPerform(_) => GuardedBy(holds, c, c.(stage := Performing))
    case PerformEnds(_, ambiguous) => if ambiguous then Cancelled(c.(stage := Idle)) else c.(stage := Idle)
    case StartFinish(_) => GuardedBy(holds, c, c.(state := Finishing, stage := InnerFinish))
    // Cancellation racing the remote acknowledgement keeps the claim.
    case InnerFinishEnds(_, ok) =>
      if !ok || !c.state.Finishing? then Cancelled(c.(stage := Idle))
      else GuardedBy(holds, c.(stage := Idle), c.(stage := Releasing))
    // No retry after an ambiguous unlink: the claim is closed first.
    case Release(_) => GuardedBy(holds, c.(stage := Idle), c.(claimClosed := true, stage := Unlinking))
    case Unlink(_, _) => Cancelled(c.(stage := Idle))
    case Crash(_) => c.(alive := false)
    case Create(_, _) => c
  }

  function Fresh(initialization: bool, free: bool): Claimant {
    Claimant(true, false, false, if initialization then Pending else Active, if free then Writing else Idle)
  }

  function ActorNext(w: World, e: Event): Claimant
    requires Enabled(w, e)
  {
    if e.Create? then Fresh(e.initialization, w.marker.None?) else Acts(w.claimants[e.p], e, Holds(w, e.p))
  }

  function MarkerNext(w: World, e: Event): Option<Marker> {
    match e
    case Create(p, _) => if w.marker.None? then Some(Marker(p, false)) else w.marker
    case WriteEnds(p, ok) => if ok && w.marker == Some(Marker(p, false)) then Some(Marker(p, true)) else w.marker
    case Unlink(_, unlinked) => if unlinked then None else w.marker
    case _ => w.marker
  }

  /** The steps that call `assertHeld`. */
  predicate Asserts(c: Claimant, e: Event) {
    match e
    case StartInitialization(_, inTime) => inTime
    case StartupGate(_, inTime) => c.state.Initializing? && inTime
    case InitializationEnds(_, ok) => ok && c.state.Initializing?
    case AdapterGate(_) => c.state.Active?
    case StartPerform(_) => true
    case StartFinish(_) => true
    case InnerFinishEnds(_, ok) => ok && c.state.Finishing?
    case Release(_) => true
    case _ => false
  }

  /** And pass it. */
  predicate Passes(w: World, e: Event) {
    e.p in w.claimants && Asserts(w.claimants[e.p], e) && Holds(w, e.p)
  }

  predicate FinishesNow(w: World, e: Event) {
    e.InnerFinishEnds? && e.ok && e.p in w.claimants && w.claimants[e.p].state.Finishing?
  }

  function Step(w: World, e: Event): World {
    if !Enabled(w, e) then w else
      World(MarkerNext(w, e), w.claimants[e.p := ActorNext(w, e)],
            if FinishesNow(w, e) then w.finished + {e.p} else w.finished,
            if e.Unlink? && e.unlinked then w.released + {e.p} else w.released,
            if Passes(w, e) then w.passes + [e.p] else w.passes)
  }

  function Run(w: World, es: seq<Event>): World
    decreases |es|
  {
    if es == [] then w else Run(Step(w, es[0]), es[1..])
  }

  /* ------------------------------------------------------------------ one claimant's code */

  /** The claim's path. */
  class MarkerPath {
    var marker: Option<Marker>

    constructor ()
      ensures marker == None
    {
      marker := None;
    }
  }

  /**
   * `claimDesktop` and the exclusive runner around it. `w` is the world the method finds: `ShownIn`
   * says that it has this claimant and this marker, and each method leaves them as its step does.
   */
  class ExclusiveRunner {
    const nonce: nat
    const path: MarkerPath
    var held: bool
    var claimClosed: bool
    var state: RunState
    var stage: Stage

    ghost function View(): Claimant
      reads this
    {
      Claimant(true, held, claimClosed, state, stage)
    }

    ghost predicate ShownIn(w: World)
      reads this, path
    {
      nonce in w.claimants && w.claimants[nonce] == View() && w.marker == path.marker
    }

    /** `assertHeld` would succeed. */
    predicate WouldHold()
      reads this, path
    {
      held && !claimClosed && path.marker == Some(Marker(nonce, true))
    }

    /** Exclusive creation; where another marker stands, the source's constructor throws. */
    constructor (nonce: nat, path: MarkerPath, initialization: bool, ghost w: World)
      requires nonce !in w.claimants && w.marker == path.marker
      modifies path
      ensures this.nonce == nonce && this.path == path && ShownIn(Step(w, Create(nonce, initialization)))
    {
      this.nonce, this.path := nonce, path;
      held, claimClosed := false, false;
      state := if initialization then Pending else Active;
      stage := if path.marker.None? then Writing else Idle;
      new;
      if path.marker.None? {
        path.marker := Some(Marker(nonce, false));
      }
    }

    /** Payload and flush, or an error that leaves whatever was written. */
    method WritePayload(ok: bool, ghost w: World)
      requires ShownIn(w) && stage.Writing? && path.marker == Some(Marker(nonce, false))
      modifies this`held, this`stage, path
      ensures ShownIn(Step(w, WriteEnds(nonce, ok)))
    {
      if ok {
        path.marker := Some(Marker(nonce, true));
      }
      held := ok;
      stage := Idle;
    }

    method AssertHeld() returns (ok: bool)
      modifies this`claimClosed
      ensures ok == old(WouldHold()) && claimClosed == (old(claimClosed) || !ok)
    {
      ok := held && !claimClosed && path.marker == Some(Marker(nonce, true));
      if !ok {
        claimClosed := true;
      }
    }

    method RequestCancellation()
      modifies this`state
      ensures View() == Cancelled(old(View()))
    {
      state := Closed;
    }

    /** `initialize` up to the startup hook. */
    method StartInitialization(inTime: bool, ghost w: World) returns (entered: bool)
      requires ShownIn(w) && stage.Idle? && state.Pending? && held
      modifies this`state, this`stage, this`claimClosed
      ensures ShownIn(Step(w, Event.StartInitialization(nonce, inTime)))
      ensures entered == Passes(w, Event.StartInitialization(nonce, inTime))
    {
      entered := inTime;
      if inTime {
        entered := AssertHeld();
      }
      if entered {
        state := Initializing;
        stage := Starting;
      } else {
        RequestCancellation();
      }
    }

    /** The startup hook's guard; `passed` is false where it throws. */
    method StartupGuard(inTime: bool, ghost w: World) returns (passed: bool)
      requires ShownIn(w) && held && !InOnePiece(stage)
      modifies this`claimClosed
      ensures ShownIn(Step(w, StartupGate(nonce, inTime)))
      ensures passed == Passes(w, StartupGate(nonce, inTime))
    {
      if !state.Initializing? || !inTime {
        return false;
      }
      passed := AssertHeld();
    }

    /** The startup hook resolved or threw. */
    method InitializationEnds(ok: bool, ghost w: World)
      requires ShownIn(w) && stage.Starting?
      modifies this`state, this`stage, this`claimClosed
      ensures ShownIn(Step(w, Event.InitializationEnds(nonce, ok)))
    {
      stage := Idle;
      var holds := false;
      if ok && state.Initializing? {
        holds := AssertHeld();
      }
      state := if holds then Active else Closed;
    }

    /** `guard`, which cancels wherever it throws. */
    method Guard(ghost w: World) returns (passed: bool)
      requires ShownIn(w) && held && !InOnePiece(stage)
      modifies this`state, this`claimClosed
      ensures ShownIn(Step(w, AdapterGate(nonce)))
      ensures passed == Passes(w, AdapterGate(nonce))
    {
      passed := state.Active?;
      if passed {
        passed := AssertHeld();
      }
      if !passed {
        RequestCancellation();
      }
    }

    /** `guard`, then the inner runner's `perform`. */
    method StartPerform(ghost w: World) returns (entered: bool)
      requires ShownIn(w) && stage.Idle? && state.Active? && held
      modifies this`state, this`stage, this`claimClosed
      ensures ShownIn(Step(w, Event.StartPerform(nonce)))
      ensures entered == Passes(w, Event.StartPerform(nonce))
    {
      entered := AssertHeld();
      if entered {
        stage := Performing;
      } else {
        RequestCancellation();
      }
    }

    /** The inner `perform` returned. */
    method PerformEnds(ambiguous: bool, ghost w: World)
      requires ShownIn(w) && stage.Performing?
      modifies this`state, this`stage
      ensures ShownIn(Step(w, Event.PerformEnds(nonce, ambiguous)))
    {
      if ambiguous {
        RequestCancellation();
      }
      stage := Idle;
    }

    /** `guard`, then the inner runner's `finish`. */
    method StartFinish(ghost w: World) returns (entered: bool)
      requires ShownIn(w) && stage.Idle? && state.Active? && held
      modifies this`state, this`stage, this`claimClosed
      ensures ShownIn(Step(w, Event.StartFinish(nonce)))
      ensures entered == Passes(w, Event.StartFinish(nonce))
    {
      entered := AssertHeld();
      if entered {
        state := Finishing;
        stage := InnerFinish;
      } else {
        RequestCancellation();
      }
    }

    /** The inner `finish` returned or threw. */
    method FinishEnds(ok: bool, ghost w: World) returns (releasing: bool)
      requires ShownIn(w) && stage.InnerFinish?
      modifies this`state, this`stage, this`claimClosed
      ensures ShownIn(Step(w, InnerFinishEnds(nonce, ok)))
      ensures releasing == Passes(w, InnerFinishEnds(nonce, ok))
    {
      releasing := false;
      if ok && state.Finishing? {
        releasing := AssertHeld();
      }
      stage := if releasing then Releasing else Idle;
      if !releasing {
        RequestCancellation();
      }
    }

    /** `release` up to the unlink. */
    method BeginRelease(ghost w: World) returns (unlinking: bool)
      requires ShownIn(w) && stage.Releasing?
      modifies this`state, this`stage, this`claimClosed
      ensures ShownIn(Step(w, Release(nonce)))
      ensures unlinking == Passes(w, Release(nonce))
    {
      unlinking := AssertHeld();
      claimClosed := true;
      stage := if unlinking then Unlinking else Idle;
      if !unlinking {
        RequestCancellation();
      }
    }

    /** The unlink, which may fail; a flush that fails after it does not bring the marker back. */
    method EndRelease(unlinked: bool, ghost w: World)
      requires ShownIn(w) && stage.Unlinking?
      modifies this`state, this`stage, path
      ensures ShownIn(Step(w, Unlink(nonce, unlinked)))
    {
      if unlinked {
        path.marker := None;
      }
      stage := Idle;
      RequestCancellation();
    }
  }
}
