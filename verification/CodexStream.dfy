/** The recogniser of an agent's one-turn event stream, and the language it recognises. */
module CodexStream {
  import opened Basics

  const MAX_LINE: nat := 512 * 1024
  const MAX_STREAM: nat := 2 * 1024 * 1024

  datatype ItemKind = AgentMessage | Reasoning | OtherItem

  /** An event as far as the reader looks at it; `None` stands for a field that is absent or of the wrong type. */
  datatype Event =
    | ThreadStarted(threadId: Option<string>)
    | TurnStarted
    | Item(completed: bool, kind: ItemKind, text: Option<string>)
    | TurnCompleted(incoming: Option<int>, outgoing: Option<int>)
    | OtherEvent

  /** One line of output: its length without the newline, whether it has one, and its event when it is a JSON object. */
  datatype Line = Line(content: nat, terminated: bool, event: Option<Event>) {
    function Size(): nat {
      content + if terminated then 1 else 0
    }
  }

  /** The pipe's reader gives up on a longer line, terminated or not. */
  predicate Fits(l: Line) {
    l.content <= MAX_LINE
  }

  datatype Limits = Limits(outputTokens: int, totalTokens: int)

  datatype Turn = Turn(output: string, threadId: string, incoming: int, outgoing: int)

  function Bytes(lines: seq<Line>): nat {
    if lines == [] then 0 else Bytes(lines[..|lines| - 1]) + lines[|lines| - 1].Size()
  }

  /** The reader's verdict on one event inside the turn. */
  predicate ItemOk(l: Line) {
    && l.event.Some? && l.event.value.Item? && !l.event.value.kind.OtherItem?
    && (IsMessage(l) ==> l.event.value.text.Some?)
  }

  predicate IsMessage(l: Line) {
    l.event.Some? && l.event.value.Item? && l.event.value.completed && l.event.value.kind.AgentMessage?
  }

  predicate UsageOk(limits: Limits, e: Event) {
    && e.TurnCompleted? && e.incoming.Some? && e.outgoing.Some?
    && 0 <= e.incoming.value && 0 <= e.outgoing.value <= limits.outputTokens
    && e.incoming.value + e.outgoing.value <= limits.totalTokens
  }

  predicate OpensThread(l: Line) {
    l.event.Some? && l.event.value.ThreadStarted? && l.event.value.threadId.Some?
  }

  /**
   * The language: one thread start, one turn start, items of which exactly one is a completed
   * message, and one completion within limits as the last event, in lines of at most `MAX_LINE`
   * bytes and at most `MAX_STREAM` bytes in all.
   */
  predicate InLanguage(limits: Limits, lines: seq<Line>) {
    && |lines| >= 3 && Bytes(lines) <= MAX_STREAM && (forall l <- lines :: Fits(l))
    && OpensThread(lines[0]) && lines[1].event == Some(TurnStarted)
    && (forall k :: 2 <= k < |lines| - 1 ==> ItemOk(lines[k]))
    && lines[|lines| - 1].event.Some? && UsageOk(limits, lines[|lines| - 1].event.value)
    && exists m :: 2 <= m < |lines| - 1 && OnlyMessage(lines, m)
  }

  predicate OnlyMessage(lines: seq<Line>, m: nat)
    requires 2 <= m < |lines|
  {
    IsMessage(lines[m]) && forall k :: 2 <= k < |lines| && k != m ==> !IsMessage(lines[k])
  }

  /** The turn that an accepted stream reports. */
  predicate Reports(lines: seq<Line>, t: Turn) {
    && |lines| >= 3
    && OpensThread(lines[0]) && lines[0].event.value.threadId == Some(t.threadId)
    && (exists m :: 2 <= m < |lines| - 1 && OnlyMessage(lines, m) && lines[m].event.value.text == Some(t.output))
    && lines[|lines| - 1].event == Some(TurnCompleted(Some(t.incoming), Some(t.outgoing)))
  }

  /* ------------------------------------------------------------------ the reader */

  /** Its local variables. */
  datatype State = State(started: bool, completed: bool, output: Option<string>, threadId: Option<string>,
      incoming: int, outgoing: int)

  const Initial := State(false, false, None, None, 0, 0)

  /** One event, in the code's order of tests; `None` where it raises. */
  function Next(limits: Limits, s: State, e: Event): Option<State> {
    if s.completed then None
    else if e.ThreadStarted? && !s.started && s.threadId.None? then
      if e.threadId.Some? then Some(s.(threadId := e.threadId)) else None
    else if e.TurnStarted? && !s.started && s.threadId.Some? then Some(s.(started := true))
    else if e.Item? && s.started then
      if e.kind.OtherItem? then None
      else if e.completed && e.kind.AgentMessage? then
        if s.output.None? && e.text.Some? then Some(s.(output := e.text)) else None
      else Some(s)
    else if e.TurnCompleted? && s.started then
      if UsageOk(limits, e)
      then Some(s.(completed := true, incoming := e.incoming.value, outgoing := e.outgoing.value)) else None
    else None
  }

  /** Where the reader is after a readable prefix. */
  predicate At(limits: Limits, lines: seq<Line>, n: nat, s: State)
    requires n <= |lines|
  {
    && Bytes(lines[..n]) <= MAX_STREAM && (forall k :: 0 <= k < n ==> Fits(lines[k]))
    && (n == 0 ==> s == Initial)
    && (n >= 1 ==> OpensThread(lines[0]) && s.threadId == lines[0].event.value.threadId)
    && (n >= 2 ==> lines[1].event == Some(TurnStarted))
    && (s.started <==> n >= 2)
    && (s.completed ==>
         n >= 3 && lines[n - 1].event == Some(TurnCompleted(Some(s.incoming), Some(s.outgoing)))
         && UsageOk(limits, lines[n - 1].event.value))
    && (forall k :: 2 <= k < (if s.completed then n - 1 else n) ==> ItemOk(lines[k]))
    && (s.output.None? ==> forall k :: 2 <= k < n ==> !IsMessage(lines[k]))
    && (s.output.Some? ==> exists m ::
         2 <= m < (if s.completed then n - 1 else n) && MessageAt(lines, n, m, s.output.value))
  }

  predicate MessageAt(lines: seq<Line>, n: nat, m: nat, text: string)
    requires 2 <= m < n <= |lines|
  {
    IsMessage(lines[m]) && lines[m].event.value.text == Some(text)
    && forall k :: 2 <= k < n && k != m ==> !IsMessage(lines[k])
  }

  lemma {:induction false} BytesGrow(lines: seq<Line>, n: nat)
    requires n < |lines|
    ensures Bytes(lines[..n + 1]) == Bytes(lines[..n]) + lines[n].Size()
  {
    assert lines[..n + 1][..n] == lines[..n];
  }

  lemma {:induction false} BytesPrefix(lines: seq<Line>, n: nat)
    requires n <= |lines|
    ensures Bytes(lines[..n]) <= Bytes(lines)
    decreases |lines| - n
  {
    if n < |lines| {
      BytesPrefix(lines, n + 1);
      BytesGrow(lines, n);
    } else {
      assert lines[..n] == lines;
    }
  }

  lemma {:induction false} NextAt(limits: Limits, lines: seq<Line>, n: nat, s: State)
    requires n < |lines| && At(limits, lines, n, s) && Bytes(lines[..n + 1]) <= MAX_STREAM && Fits(lines[n])
    requires lines[n].event.Some? && Next(limits, s, lines[n].event.value).Some?
    ensures At(limits, lines, n + 1, Next(limits, s, lines[n].event.value).value)
  {
    var t := Next(limits, s, lines[n].event.value).value;
    if s.output.Some? {
      var m :| 2 <= m < n && MessageAt(lines, n, m, s.output.value);
      assert MessageAt(lines, n + 1, m, t.output.value);
    } else if t.output.Some? {
      assert MessageAt(lines, n + 1, n, t.output.value);
    }
  }

  /** A stream with a readable prefix whose next event is refused is not in the language. */
  lemma {:induction false} RefusedEvent(limits: Limits, lines: seq<Line>, n: nat, s: State)
    requires n < |lines| && At(limits, lines, n, s)
    requires lines[n].event.None? || Next(limits, s, lines[n].event.value).None?
    ensures !InLanguage(limits, lines)
  {
    // Inside the turn an event is refused only where the language has no item there.
    if 2 <= n < |lines| - 1 && !s.completed && ItemOk(lines[n]) {
      assert IsMessage(lines[n]) && s.output.Some?;
    }
  }

  lemma {:induction false} EndOfStream(limits: Limits, lines: seq<Line>, s: State)
    requires At(limits, lines, |lines|, s)
    ensures s.completed && s.output.Some? && s.threadId.Some? <==> InLanguage(limits, lines)
    ensures s.completed && s.output.Some? && s.threadId.Some? ==>
              Reports(lines, Turn(s.output.value, s.threadId.value, s.incoming, s.outgoing))
  {
    assert lines[..|lines|] == lines;
    if s.completed && s.output.Some? {
      var m :| 2 <= m < |lines| - 1 && MessageAt(lines, |lines|, m, s.output.value);
      assert OnlyMessage(lines, m);
    }
  }

  /** `_read`. The fence is set when `fencedAfter` reads have been made. */
  method Read(limits: Limits, lines: seq<Line>, fencedAfter: nat) returns (r: Option<Turn>)
    ensures r.Some? <==> InLanguage(limits, lines) && fencedAfter > |lines|
    ensures r.Some? ==> Reports(lines, r.value)
  {
    var s, total, n := Initial, 0, 0;
    while n < |lines|
      invariant 0 <= n <= |lines| && n <= fencedAfter
      invariant At(limits, lines, n, s) && total == Bytes(lines[..n])
    {
      if n == fencedAfter {
        return None;
      }
      if lines[n].content > MAX_LINE {
        assert lines[n] in lines && !Fits(lines[n]);
        return None;
      }
      BytesGrow(lines, n);
      BytesPrefix(lines, n + 1);
      total := total + lines[n].Size();
      if total > MAX_STREAM {
        return None;
      }
      if lines[n].event.None? {
        RefusedEvent(limits, lines, n, s);
        return None;
      }
      var next := Next(limits, s, lines[n].event.value);
      if next.None? {
        RefusedEvent(limits, lines, n, s);
        return None;
      }
      NextAt(limits, lines, n, s);
      s := next.value;
      n := n + 1;
    }
    EndOfStream(limits, lines, s);
    if fencedAfter == n {
      return None;
    }
    if !s.completed || s.output.None? || s.threadId.None? {
      return None;
    }
    return Some(Turn(s.output.value, s.threadId.value, s.incoming, s.outgoing));
  }

  /** An accepted stream reports one turn only. */
  lemma {:induction false} OneReport(lines: seq<Line>, t: Turn, t': Turn)
    requires Reports(lines, t) && Reports(lines, t')
    ensures t == t'
  {
    var m :| 2 <= m < |lines| - 1 && OnlyMessage(lines, m) && lines[m].event.value.text == Some(t.output);
    var k :| 2 <= k < |lines| - 1 && OnlyMessage(lines, k) && lines[k].event.value.text == Some(t'.output);
  }

  /* ------------------------------------------------------------------ the language as a grammar */

  /** An item of the turn other than its answer: reasoning, or a message that is not complete. */
  predicate Quiet(e: Event) {
    e.Item? && (e.kind.Reasoning? || (e.kind.AgentMessage? && !e.completed))
  }

  /** The events of one turn, in order. */
  function OneTurn(t: Turn, before: seq<Event>, after: seq<Event>): seq<Event> {
    [ThreadStarted(Some(t.threadId)), TurnStarted] + before + [Item(true, AgentMessage, Some(t.output))] + after
    + [TurnCompleted(Some(t.incoming), Some(t.outgoing))]
  }

  predicate Spells(lines: seq<Line>, events: seq<Event>) {
    |lines| == |events| && forall k :: 0 <= k < |lines| ==> lines[k].event == Some(events[k])
  }

  function LengthTo(lines: seq<Line>, n: nat): nat
    requires n <= |lines|
  {
    if n == 0 then 0 else LengthTo(lines, n - 1) + lines[n - 1].content + if lines[n - 1].terminated then 1 else 0
  }

  lemma {:induction false} BytesAre(lines: seq<Line>, n: nat)
    requires n <= |lines|
    ensures Bytes(lines[..n]) == LengthTo(lines, n)
    decreases n
  {
    if n > 0 {
      BytesAre(lines, n - 1);
      BytesGrow(lines, n - 1);
    }
  }

  /** Tokens within the limits, lines of at most 512 KiB, at most 2 MiB in all. */
  predicate Bounded(limits: Limits, lines: seq<Line>, t: Turn) {
    && t.incoming >= 0 && 0 <= t.outgoing <= limits.outputTokens && t.incoming + t.outgoing <= limits.totalTokens
    && LengthTo(lines, |lines|) <= 2097152 && forall k :: 0 <= k < |lines| ==> lines[k].content <= 524288
  }

  predicate AllQuiet(events: seq<Event>) {
    forall e <- events :: Quiet(e)
  }

  /** The events of the lines from `lo` up to `hi`. */
  function EventsOf(lines: seq<Line>, lo: nat, hi: nat): (events: seq<Event>)
    requires lo <= hi <= |lines| && forall k :: lo <= k < hi ==> lines[k].event.Some?
    ensures |events| == hi - lo && forall k :: lo <= k < hi ==> lines[k].event == Some(events[k - lo])
    decreases hi - lo
  {
    if lo == hi then [] else [lines[lo].event.value] + EventsOf(lines, lo + 1, hi)
  }

  lemma {:induction false} ItemsQuiet(lines: seq<Line>, lo: nat, hi: nat)
    requires lo <= hi <= |lines| && forall k :: lo <= k < hi ==> ItemOk(lines[k]) && !IsMessage(lines[k])
    ensures forall k :: lo <= k < hi ==> lines[k].event.Some?
    ensures AllQuiet(EventsOf(lines, lo, hi))
  {
    var events := EventsOf(lines, lo, hi);
    forall k | 0 <= k < |events|
      ensures Quiet(events[k])
    {
      assert ItemOk(lines[lo + k]) && !IsMessage(lines[lo + k]) && lines[lo + k].event == Some(events[lo + k - lo]);
    }
  }

  lemma {:induction false} WithinBounds(limits: Limits, lines: seq<Line>, t: Turn)
    requires InLanguage(limits, lines) && Reports(lines, t)
    ensures Bounded(limits, lines, t)
  {
    BytesAre(lines, |lines|);
    assert lines[..|lines|] == lines && forall k :: 0 <= k < |lines| ==> Fits(lines[k]);
  }

  lemma {:induction false} Parsed(limits: Limits, lines: seq<Line>, t: Turn)
    returns (before: seq<Event>, after: seq<Event>)
    requires InLanguage(limits, lines) && Reports(lines, t)
    ensures AllQuiet(before) && AllQuiet(after) && Spells(lines, OneTurn(t, before, after))
  {
    var n := |lines|;
    var m :| 2 <= m < n - 1 && OnlyMessage(lines, m) && lines[m].event.value.text == Some(t.output);
    assert forall k :: 2 <= k < n - 1 ==> ItemOk(lines[k]);
    assert lines[m].event.value == Item(true, AgentMessage, Some(t.output));
    before, after := EventsOf(lines, 2, m), EventsOf(lines, m + 1, n - 1);
    ItemsQuiet(lines, 2, m);
    ItemsQuiet(lines, m + 1, n - 1);
    Spelled(lines, t, m);
  }

  lemma {:induction false} Spelled(lines: seq<Line>, t: Turn, m: nat)
    requires 2 <= m < |lines| - 1 && forall k :: 0 <= k < |lines| ==> lines[k].event.Some?
    requires lines[0].event.value == ThreadStarted(Some(t.threadId)) && lines[1].event.value == TurnStarted
    requires lines[m].event.value == Item(true, AgentMessage, Some(t.output))
    requires lines[|lines| - 1].event.value == TurnCompleted(Some(t.incoming), Some(t.outgoing))
    ensures Spells(lines, OneTurn(t, EventsOf(lines, 2, m), EventsOf(lines, m + 1, |lines| - 1)))
  {
    var n := |lines|;
    var before, after := EventsOf(lines, 2, m), EventsOf(lines, m + 1, n - 1);
    var events := OneTurn(t, before, after);
    forall k | 0 <= k < n
      ensures lines[k].event == Some(events[k])
    {
      if 2 <= k < m {
        assert events[k] == before[k - 2];
      } else if m < k < n - 1 {
        assert events[k] == after[k - (m + 1)];
      }
    }
  }

  lemma {:induction false} Composed(limits: Limits, lines: seq<Line>, t: Turn, before: seq<Event>, after: seq<Event>)
    requires AllQuiet(before) && AllQuiet(after)
    requires Spells(lines, OneTurn(t, before, after)) && Bounded(limits, lines, t)
    ensures InLanguage(limits, lines) && Reports(lines, t)
  {
    var n, m, events := |lines|, |before| + 2, OneTurn(t, before, after);
    forall k | 2 <= k < n - 1 && k != m
      ensures ItemOk(lines[k]) && !IsMessage(lines[k])
    {
      var e := if k < m then before[k - 2] else after[k - m - 1];
      assert events[k] == e && (e in before || e in after);
      assert Quiet(e);
    }
    assert events[m] == Item(true, AgentMessage, Some(t.output));
    assert OnlyMessage(lines, m);
    BytesAre(lines, n);
    assert lines[..n] == lines;
  }

  /**
   * A stream is accepted with a turn exactly when it spells, in lines within the limits, a thread
   * start, a turn start, any items, the turn's message, any items again, and a completion.
   */
  lemma {:induction false} GrammarIff(limits: Limits, lines: seq<Line>, t: Turn)
    ensures InLanguage(limits, lines) && Reports(lines, t)
            <==> && Bounded(limits, lines, t)
                 && exists before, after ::
                      AllQuiet(before) && AllQuiet(after) && Spells(lines, OneTurn(t, before, after))
  {
    if InLanguage(limits, lines) && Reports(lines, t) {
      WithinBounds(limits, lines, t);
      var before, after := Parsed(limits, lines, t);
    }
    forall before, after
    | Bounded(limits, lines, t) && AllQuiet(before) && AllQuiet(after) && Spells(lines, OneTurn(t, before, after))
      ensures InLanguage(limits, lines) && Reports(lines, t)
    {
      Composed(limits, lines, t, before, after);
    }
  }
}
