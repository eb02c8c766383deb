/**
 * Draining a child process under one bound on everything it prints.
 *
 * `Happening`s are what the selector loop meets, in order: a write to the child, a read from one of
 * its pipes (empty at end of file), its exit, or a reason to stop. Running out of them is a child
 * that never ends, which the deadline stops.
 */
module Process {
  import opened Basics
  import opened SourcePaths

  datatype Pipe = Stdout | Stderr

  datatype Happening =
    | Wrote(count: nat)
    | PipeBroken
    | Printed(pipe: Pipe, data: Bytes)
    | Exited(code: int)
    | Cancelled
    | DeadlinePassed

  datatype CommandResult = CommandResult(code: int, stdout: Bytes, stderr: Bytes)

  /** Everything printed to one pipe. */
  function Output(hs: seq<Happening>, pipe: Pipe): Bytes {
    if hs == [] then "" else
      var last := hs[|hs| - 1];
      Output(hs[..|hs| - 1], pipe) + if last.Printed? && last.pipe == pipe then last.data else ""
  }

  predicate Undisturbed(hs: seq<Happening>) {
    forall h <- hs :: !h.Cancelled? && !h.DeadlinePassed?
  }

  function Written(hs: seq<Happening>): nat {
    if hs == [] then 0 else Written(hs[..|hs| - 1]) + if hs[|hs| - 1].Wrote? then hs[|hs| - 1].count else 0
  }

  /** All input was taken, or the child stopped reading. */
  predicate InputDone(input: Bytes, hs: seq<Happening>) {
    hs != []
    && (InputDone(input, hs[..|hs| - 1]) || hs[|hs| - 1].PipeBroken? || (hs[|hs| - 1].Wrote? && Written(hs) >= |input|))
  }

  predicate AtEnd(hs: seq<Happening>, pipe: Pipe) {
    Printed(pipe, "") in hs
  }

  /** After `n` happenings every pipe is closed, and the next one is the exit. */
  predicate Ends(input: Bytes, hs: seq<Happening>, n: nat) {
    n < |hs| && hs[n].Exited? && InputDone(input, hs[..n]) && AtEnd(hs[..n], Stdout) && AtEnd(hs[..n], Stderr)
  }

  /** The child's end: the first such exit. */
  predicate EndsFirst(input: Bytes, hs: seq<Happening>, n: nat) {
    Ends(input, hs, n) && forall m :: 0 <= m < n ==> !Ends(input, hs, m)
  }

  /** The child ends undisturbed with all its output within the bound. */
  predicate Completes(input: Bytes, limit: nat, hs: seq<Happening>, n: nat) {
    EndsFirst(input, hs, n) && Undisturbed(hs[..n]) && |Output(hs[..n], Stdout)| + |Output(hs[..n], Stderr)| <= limit
  }

  /** The exit code and everything printed. */
  function ResultAt(hs: seq<Happening>, n: nat): CommandResult
    requires n < |hs| && hs[n].Exited?
  {
    CommandResult(hs[n].code, Output(hs[..n], Stdout), Output(hs[..n], Stderr))
  }

  /* ------------------------------------------------------------------ the drain as a function */

  /** The loop's variables: what was written and kept, and which pipes are still open. */
  datatype Draining = Draining(position: nat, stdin: bool, out: bool, err: bool, stdout: Bytes, stderr: Bytes)

  const Opened := Draining(0, true, true, true, "", "")

  /** How it ended, and how many bytes were kept: also when the child was stopped. */
  datatype Drained = Drained(result: Option<CommandResult>, kept: nat)

  function Kept(d: Draining): nat {
    |d.stdout| + |d.stderr|
  }

  predicate Overflows(limit: nat, d: Draining, h: Happening) {
    h.Printed? && h.data != "" && Kept(d) + |h.data| > limit
  }

  /** The child is stopped. */
  predicate StopsAt(limit: nat, d: Draining, h: Happening) {
    h.Cancelled? || h.DeadlinePassed? || Overflows(limit, d, h)
  }

  predicate Closed(d: Draining) {
    !d.stdin && !d.out && !d.err
  }

  function After(input: Bytes, d: Draining, h: Happening): Draining {
    match h
    case Wrote(count) =>
      if d.stdin then d.(position := d.position + count, stdin := d.position + count < |input|) else d
    case PipeBroken => d.(stdin := false)
    case Printed(pipe, data) =>
      if data == "" then (if pipe.Stdout? then d.(out := false) else d.(err := false))
      else if pipe.Stdout? then d.(stdout := d.stdout + data)
      else d.(stderr := d.stderr + data)
    case _ => d
  }

  /** The drain from the `i`-th happening on. */
  function Drain(input: Bytes, limit: nat, hs: seq<Happening>, i: nat, d: Draining): (r: Drained)
    requires i <= |hs|
    ensures Kept(d) <= limit ==> r.kept <= limit
    ensures r.result.Some? ==> r.kept == |r.result.value.stdout| + |r.result.value.stderr|
    decreases |hs| - i
  {
    if i == |hs| || StopsAt(limit, d, hs[i]) then Drained(None, Kept(d))
    else if hs[i].Exited? && Closed(d) then Drained(Some(CommandResult(hs[i].code, d.stdout, d.stderr)), Kept(d))
    else Drain(input, limit, hs, i + 1, After(input, d, hs[i]))
  }

  /** The variables after the first `i` happenings. */
  predicate Reflects(input: Bytes, hs: seq<Happening>, i: nat, d: Draining)
    requires i <= |hs|
  {
    && d.stdout == Output(hs[..i], Stdout) && d.stderr == Output(hs[..i], Stderr)
    && d.stdin == !InputDone(input, hs[..i]) && (d.stdin ==> d.position == Written(hs[..i]))
    && d.out == !AtEnd(hs[..i], Stdout) && d.err == !AtEnd(hs[..i], Stderr)
  }

  lemma {:induction false} Grows(input: Bytes, hs: seq<Happening>, n: nat)
    requires n < |hs|
    ensures hs[..n + 1] == hs[..n] + [hs[n]]
    ensures forall pipe ::
              Output(hs[..n + 1], pipe) == Output(hs[..n], pipe) + if hs[n].Printed? && hs[n].pipe == pipe
                  then hs[n].data else ""
    ensures Written(hs[..n + 1]) == Written(hs[..n]) + if hs[n].Wrote? then hs[n].count else 0
    ensures InputDone(input, hs[..n + 1])
            <==> InputDone(input, hs[..n]) || hs[n].PipeBroken? || (hs[n].Wrote? && Written(hs[..n + 1]) >= |input|)
  {
    assert hs[..n + 1][..n] == hs[..n];
  }

  lemma {:induction false} AfterReflects(input: Bytes, hs: seq<Happening>, i: nat, d: Draining)
    requires i < |hs| && Reflects(input, hs, i, d)
    ensures Reflects(input, hs, i + 1, After(input, d, hs[i]))
  {
    Grows(input, hs, i);
  }

  lemma {:induction false} OutputMonotone(hs: seq<Happening>, m: nat, n: nat, pipe: Pipe)
    requires m <= n <= |hs|
    ensures |Output(hs[..m], pipe)| <= |Output(hs[..n], pipe)|
    decreases n - m
  {
    if m < n {
      assert hs[..n][..n - 1] == hs[..n - 1];
      OutputMonotone(hs, m, n - 1, pipe);
    }
  }

  /** Stopped at happening `i`: nothing later completes. */
  lemma {:induction false} StoppedAt(input: Bytes, limit: nat, hs: seq<Happening>, i: nat, d: Draining, n: nat)
    requires i < n < |hs| && Reflects(input, hs, i, d) && StopsAt(limit, d, hs[i])
    ensures !Completes(input, limit, hs, n)
  {
    AfterReflects(input, hs, i, d);
    OutputMonotone(hs, i + 1, n, Stdout);
    OutputMonotone(hs, i + 1, n, Stderr);
    assert hs[i] in hs[..n];
  }

  /** `r` is there exactly when an end at or after `i` completes, and is then what that child printed. */
  predicate Exactly(input: Bytes, limit: nat, hs: seq<Happening>, i: nat, r: Option<CommandResult>) {
    && (r.Some? <==> exists n :: i <= n < |hs| && Completes(input, limit, hs, n))
    && forall n :: i <= n < |hs| && Completes(input, limit, hs, n) ==> r == Some(ResultAt(hs, n))
  }

  lemma {:induction false} NoneAfterStop(input: Bytes, limit: nat, hs: seq<Happening>, i: nat, d: Draining)
    requires i < |hs| && Reflects(input, hs, i, d) && StopsAt(limit, d, hs[i])
    ensures Exactly(input, limit, hs, i, None)
  {
    forall n | i < n < |hs|
      ensures !Completes(input, limit, hs, n)
    {
      StoppedAt(input, limit, hs, i, d, n);
    }
  }

  lemma {:induction false} OnlyEnd(input: Bytes, limit: nat, hs: seq<Happening>, i: nat)
    requires i < |hs| && Completes(input, limit, hs, i)
    ensures Exactly(input, limit, hs, i, Some(ResultAt(hs, i)))
  {
  }

  lemma {:induction false} NotYet(input: Bytes, limit: nat, hs: seq<Happening>, i: nat, r: Option<CommandResult>)
    requires i < |hs| && !Ends(input, hs, i) && Exactly(input, limit, hs, i + 1, r)
    ensures Exactly(input, limit, hs, i, r)
  {
  }

  /** Before the `i`-th happening: the variables are right, and nothing has stopped or ended the child. */
  predicate Running(input: Bytes, limit: nat, hs: seq<Happening>, i: nat, d: Draining) {
    && i <= |hs| && Reflects(input, hs, i, d) && Undisturbed(hs[..i]) && Kept(d) <= limit
    && forall m :: 0 <= m < i ==> !Ends(input, hs, m)
  }

  lemma {:induction false} KeepsRunning(input: Bytes, limit: nat, hs: seq<Happening>, i: nat, d: Draining)
    requires Running(input, limit, hs, i, d) && i < |hs| && !StopsAt(limit, d, hs[i]) && !(hs[i].Exited? && Closed(d))
    ensures Running(input, limit, hs, i + 1, After(input, d, hs[i])) && !Ends(input, hs, i)
  {
    AfterReflects(input, hs, i, d);
    assert hs[..i + 1] == hs[..i] + [hs[i]];
  }

  lemma {:induction false} DrainFrom(input: Bytes, limit: nat, hs: seq<Happening>, i: nat, d: Draining)
    requires Running(input, limit, hs, i, d)
    ensures Exactly(input, limit, hs, i, Drain(input, limit, hs, i, d).result)
    decreases |hs| - i
  {
    if i < |hs| {
      if StopsAt(limit, d, hs[i]) {
        NoneAfterStop(input, limit, hs, i, d);
      } else if hs[i].Exited? && Closed(d) {
        OnlyEnd(input, limit, hs, i);
      } else {
        KeepsRunning(input, limit, hs, i, d);
        DrainFrom(input, limit, hs, i + 1, After(input, d, hs[i]));
        NotYet(input, limit, hs, i, Drain(input, limit, hs, i + 1, After(input, d, hs[i])).result);
      }
    }
  }

  /** A drain returns exactly what a child printed that ended undisturbed and within the bound. */
  lemma {:induction false} DrainIff(input: Bytes, limit: nat, hs: seq<Happening>)
    ensures Exactly(input, limit, hs, 0, Drain(input, limit, hs, 0, Opened).result)
  {
    assert hs[..0] == [];
    DrainFrom(input, limit, hs, 0, Opened);
  }

  /**
   * `run_bounded`: it returns exactly what a child printed that ended undisturbed and within the
   * bound; and whatever the child did, it never keeps more than the bound. `kept` is what its buffers
   * held in the end, which the source does not report of a child that it stops.
   */
  method RunBounded(input: Bytes, limit: nat, hs: seq<Happening>) returns (r: Option<CommandResult>, kept: nat)
    requires limit >= 1
    ensures r.Some? <==> exists n :: 0 <= n < |hs| && Completes(input, limit, hs, n)
    ensures forall n :: 0 <= n < |hs| && Completes(input, limit, hs, n) ==> r == Some(ResultAt(hs, n))
    ensures Drained(r, kept) == Drain(input, limit, hs, 0, Opened) && kept <= limit
  {
    r, kept := Pump(input, limit, hs);
    DrainIff(input, limit, hs);
  }

  /** Its selector loop. */
  method Pump(input: Bytes, limit: nat, hs: seq<Happening>) returns (r: Option<CommandResult>, kept: nat)
    ensures Drained(r, kept) == Drain(input, limit, hs, 0, Opened)
  {
    var stdout: Bytes, stderr: Bytes := "", "";
    var position, stdin, out, err := 0, true, true, true;
    var i := 0;
    while i < |hs|
      invariant 0 <= i <= |hs| && |stdout| + |stderr| <= limit
      invariant Drain(input, limit, hs, 0, Opened)
                == Drain(input, limit, hs, i, Draining(position, stdin, out, err, stdout, stderr))
    {
      match hs[i] {
        case Cancelled =>
          return None, |stdout| + |stderr|;
        case DeadlinePassed =>
          return None, |stdout| + |stderr|;
        case Wrote(count) =>
          if stdin {
            position := position + count;
            stdin := position < |input|;
          }
        case PipeBroken =>
          stdin := false;
        case Printed(pipe, data) =>
          if data == "" {
            if pipe.Stdout? { out := false; } else { err := false; }
          } else if |stdout| + |stderr| + |data| > limit {
            return None, |stdout| + |stderr|;
          } else if pipe.Stdout? {
            stdout := stdout + data;
          } else {
            stderr := stderr + data;
          }
        case Exited(code) =>
          if !stdin && !out && !err {
            return Some(CommandResult(code, stdout, stderr)), |stdout| + |stderr|;
          }
      }
      i := i + 1;
    }
    return None, |stdout| + |stderr|;
  }
}
