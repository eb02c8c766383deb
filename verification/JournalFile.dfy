/**
 * The on-disk action journal and what a restarted supervisor reads from it.
 *
 * A byte string is a `string` whose characters are its bytes. JSON is a parameter: any codec that
 * obeys `Lawful`. The operating system is an argument of each operation: how many bytes each write
 * call accepted, and whether the flush succeeded.
 */
module JournalFile {
  import opened Basics
  import opened Supervision

  const LF: char := '\n'

  predicate Blank(s: string) {
    forall c <- s :: c == ' ' || c == '\t' || c == '\r'
  }

  /** `finite` says which clock readings are numbers that JSON carries exactly: the finite doubles. */
  datatype Codec = Codec(encode: Entry -> string, decode: string -> Option<Entry>, finite: real -> bool)

  predicate Writable(c: Codec, e: Entry) {
    e.dispatchedAt.Some? ==> c.finite(e.dispatchedAt.value)
  }

  predicate AllWritable(c: Codec, es: seq<Entry>) {
    forall e <- es :: Writable(c, e)
  }

  /**
   * What the code relies on from `JSON.stringify` and `JSON.parse`: an entry is an object on one line
   * that parses back to itself and no proper prefix of which parses; and of what may stand in front
   * of it on that line, white space is skipped and anything else makes the whole line fail.
   */
  ghost predicate Lawful(c: Codec) {
    && (forall e :: c.encode(e) != "" && c.encode(e)[0] == '{' && LF !in c.encode(e))
    && (forall e :: Writable(c, e) ==> c.decode(c.encode(e)) == Some(e))
    && (forall e, k :: Writable(c, e) && 0 <= k < |c.encode(e)| ==> c.decode(c.encode(e)[..k]) == None)
    && (forall t, e :: Blank(t) && Writable(c, e) ==> c.decode(t + c.encode(e)) == Some(e))
    && (forall t, e :: !Blank(t) && LF !in t ==> c.decode(t + c.encode(e)) == None)
  }

  function Line(c: Codec, e: Entry): string {
    c.encode(e) + [LF]
  }

  function Lines(c: Codec, es: seq<Entry>): string {
    if es == [] then "" else Line(c, es[0]) + Lines(c, es[1..])
  }

  /** `text.split("\n")`. */
  function Split(s: string): (pieces: seq<string>)
    ensures |pieces| >= 1
  {
    if s == "" then [""]
    else
      var rest := Split(s[1..]);
      if s[0] == LF then [""] + rest else [[s[0]] + rest[0]] + rest[1..]
  }

  /** One line's contribution: blank lines are filtered out, lines that do not parse are skipped. */
  function Parsed(c: Codec, line: string): seq<Entry> {
    if Blank(line) then [] else
      match c.decode(line)
      case Some(e) => [e]
      case None => []
  }

  function ParseAll(c: Codec, lines: seq<string>): seq<Entry> {
    if lines == [] then [] else Parsed(c, lines[0]) + ParseAll(c, lines[1..])
  }

  /** The entries that `read` recovers from file content. */
  function Read(c: Codec, content: string): seq<Entry> {
    ParseAll(c, Split(content))
  }

  lemma {:induction false} SplitLine(line: string, rest: string)
    requires LF !in line
    ensures Split(line + [LF] + rest) == [line] + Split(rest)
  {
    if line == "" {
      assert line + [LF] + rest == [LF] + rest;
      assert ([LF] + rest)[1..] == rest;
    } else {
      SplitLine(line[1..], rest);
      assert (line + [LF] + rest)[1..] == line[1..] + [LF] + rest;
      assert [line[0]] + line[1..] == line;
      assert ([line[1..]] + Split(rest))[1..] == Split(rest);
    }
  }

  lemma {:induction false} SplitWhole(tail: string)
    requires LF !in tail
    ensures Split(tail) == [tail]
  {
    if tail != "" {
      SplitWhole(tail[1..]);
      assert [tail[0]] + tail[1..] == tail;
    }
  }

  lemma {:induction false} ReadLine(c: Codec, line: string, rest: string)
    requires LF !in line
    ensures Read(c, line + [LF] + rest) == Parsed(c, line) + Read(c, rest)
  {
    SplitLine(line, rest);
    assert ([line] + Split(rest))[1..] == Split(rest);
  }

  lemma {:induction false} ReadTail(c: Codec, tail: string)
    requires LF !in tail
    ensures Read(c, tail) == Parsed(c, tail)
  {
    SplitWhole(tail);
    assert ParseAll(c, [tail]) == Parsed(c, tail) + ParseAll(c, [tail][1..]);
  }

  lemma {:induction false} ReadWritten(c: Codec, e: Entry, rest: string)
    requires Lawful(c) && Writable(c, e)
    ensures Read(c, Line(c, e) + rest) == [e] + Read(c, rest)
  {
    assert c.encode(e)[0] in c.encode(e);
    ReadLine(c, c.encode(e), rest);
  }

  /** Complete lines read back as their entries, and what follows them is read independently. */
  lemma {:induction false} ReadLines(c: Codec, es: seq<Entry>, rest: string)
    requires Lawful(c) && AllWritable(c, es)
    ensures Read(c, Lines(c, es) + rest) == es + Read(c, rest)
    decreases |es|
  {
    if es == [] {
      assert Lines(c, es) + rest == rest;
    } else {
      ReadLines(c, es[1..], rest);
      Associates(Line(c, es[0]), Lines(c, es[1..]), rest);
      ReadWritten(c, es[0], Lines(c, es[1..]) + rest);
      Associates([es[0]], es[1..], Read(c, rest));
      assert es == [es[0]] + es[1..];
    }
  }

  lemma {:induction false} LinesAppend(c: Codec, es: seq<Entry>, e: Entry)
    ensures Lines(c, es + [e]) == Lines(c, es) + Line(c, e)
    decreases |es|
  {
    if es == [] {
      assert Lines(c, [e]) == Line(c, e) + Lines(c, [e][1..]);
    } else {
      LinesAppend(c, es[1..], e);
      assert (es + [e])[1..] == es[1..] + [e];
    }
  }

  /** A torn line reads as nothing until it is complete up to its newline. */
  lemma {:induction false} ReadTorn(c: Codec, e: Entry, k: nat)
    requires Lawful(c) && Writable(c, e) && k <= |Line(c, e)|
    ensures Read(c, Line(c, e)[..k]) == if k < |c.encode(e)| then [] else [e]
  {
    var text := c.encode(e);
    if k <= |text| {
      assert Line(c, e)[..k] == text[..k];
      ReadTail(c, text[..k]);
      assert k == |text| ==> text[..k] == text && text[0] in text;
    } else {
      assert Line(c, e)[..k] == Line(c, e) + "";
      ReadWritten(c, e, "");
      ReadTail(c, "");
    }
  }

  /* ------------------------------------------------------------------ appending to an existing file */

  function FirstBreak(s: string): (n: nat)
    requires LF in s
    ensures n < |s| && s[n] == LF && LF !in s[..n]
  {
    if s[0] == LF then 0 else
      var n := FirstBreak(s[1..]);
      assert s[..n + 1] == [s[0]] + s[1..][..n];
      n + 1
  }

  /** What stands after the last newline. */
  function Torn(s: string): (t: string)
    ensures LF !in t
    decreases |s|
  {
    if LF !in s then s else Torn(s[FirstBreak(s) + 1..])
  }

  /** What the complete lines read as. */
  function Complete(c: Codec, s: string): seq<Entry>
    decreases |s|
  {
    if LF !in s then [] else Parsed(c, s[..FirstBreak(s)]) + Complete(c, s[FirstBreak(s) + 1..])
  }

  lemma {:induction false} TornEmpty(s: string)
    ensures Torn(s) == "" <==> s == "" || s[|s| - 1] == LF
    decreases |s|
  {
    if LF in s {
      TornEmpty(s[FirstBreak(s) + 1..]);
    }
  }

  /** Whatever is appended is read together with the torn line in front of it. */
  lemma {:induction false} ReadAppended(c: Codec, s: string, rest: string)
    ensures Read(c, s + rest) == Complete(c, s) + Read(c, Torn(s) + rest)
    decreases |s|
  {
    if LF in s {
      var n := FirstBreak(s);
      var line, more := s[..n], s[n + 1..];
      ReadAppended(c, more, rest);
      Regrouped(s, n, rest);
      ReadLine(c, line, more + rest);
      Associates(Parsed(c, line), Complete(c, more), Read(c, Torn(s) + rest));
    }
  }

  lemma {:induction false} Regrouped(s: string, n: nat, rest: string)
    requires n < |s| && s[n] == LF
    ensures s + rest == s[..n] + [LF] + (s[n + 1..] + rest)
  {
    assert s == s[..n] + [LF] + s[n + 1..];
  }

  lemma {:induction false} Associates<T>(a: seq<T>, b: seq<T>, c: seq<T>)
    ensures (a + b) + c == a + (b + c)
  {
  }

  /** Entries appended to a file that reads as empty: the first is lost exactly behind a torn line. */
  lemma {:induction false} ReadBehind(c: Codec, s: string, es: seq<Entry>)
    requires Lawful(c) && AllWritable(c, es) && es != [] && Read(c, s) == []
    ensures Read(c, s + Lines(c, es)) == if Blank(Torn(s)) then es else es[1..]
  {
    ReadAppended(c, s, "");
    assert s + "" == s;
    ReadAppended(c, s, Lines(c, es));
    ReadBehindTorn(c, Torn(s), es);
  }

  lemma {:induction false} ReadBehindTorn(c: Codec, t: string, es: seq<Entry>)
    requires Lawful(c) && AllWritable(c, es) && es != [] && LF !in t
    ensures Read(c, t + Lines(c, es)) == if Blank(t) then es else es[1..]
  {
    var rest := Lines(c, es[1..]);
    assert t + Lines(c, es) == (t + c.encode(es[0])) + [LF] + rest;
    ReadLine(c, t + c.encode(es[0]), rest);
    ReadGlued(c, t, es[0]);
    ReadExactly(c, es[1..]);
    assert es == [es[0]] + es[1..];
  }

  lemma {:induction false} ReadExactly(c: Codec, es: seq<Entry>)
    requires Lawful(c) && AllWritable(c, es)
    ensures Read(c, Lines(c, es)) == es
  {
    ReadLines(c, es, "");
    ReadTail(c, "");
    assert Lines(c, es) + "" == Lines(c, es);
  }

  lemma {:induction false} ReadGlued(c: Codec, t: string, e: Entry)
    requires Lawful(c) && LF !in t && (Blank(t) ==> Writable(c, e))
    ensures Parsed(c, t + c.encode(e)) == if Blank(t) then [e] else []
  {
    assert (t + c.encode(e))[|t|] == '{';
    assert '{' in t + c.encode(e);
  }

  /* ------------------------------------------------------------------ FileJournal */

  /** `content` is the file; its first `durable` bytes survive any crash. */
  class FileJournal {
    var content: string
    var durable: nat

    ghost predicate Valid()
      reads this
    {
      durable <= |content|
    }

    constructor (existing: string)
      ensures Valid() && content == existing && durable == |existing|
    {
      content := existing;
      durable := |existing|;
    }

    /**
     * One append. `counts` are the results of the successive write calls and `flushed` that of the
     * two `fsync` calls; running out of counts is a write that throws.
     */
    method AppendAndFlush(bytes: string, counts: seq<int>, flushed: bool) returns (ok: bool)
      requires Valid()
      modifies this
      ensures Valid()
      ensures ok ==> content == old(content) + bytes && durable == |content|
      ensures !ok ==> durable == old(durable) && exists k :: 0 <= k <= |bytes| && content == old(content) + bytes[..k]
    {
      var written, call := 0, 0;
      assert content == old(content) + bytes[..written];
      while written < |bytes|
        invariant 0 <= written <= |bytes| && 0 <= call <= |counts|
        invariant content == old(content) + bytes[..written] && durable == old(durable)
        decreases |counts| - call
      {
        if call == |counts| || counts[call] <= 0 {
          return false;
        }
        // A write call accepts at most what it was given.
        var count := if counts[call] > |bytes| - written then |bytes| - written else counts[call];
        assert bytes[..written + count] == bytes[..written] + bytes[written..written + count];
        content := content + bytes[written..written + count];
        written := written + count;
        call := call + 1;
      }
      assert bytes[..written] == bytes;
      if !flushed {
        return false;
      }
      durable := |content|;
      return true;
    }

    method ReadEntries(c: Codec) returns (entries: seq<Entry>)
      ensures entries == Read(c, content)
    {
      entries := [];
      var lines := Split(content);
      var i := 0;
      while i < |lines|
        invariant 0 <= i <= |lines|
        invariant entries + ParseAll(c, lines[i..]) == Read(c, content)
      {
        assert lines[i..][1..] == lines[i + 1..];
        Associates(entries, Parsed(c, lines[i]), ParseAll(c, lines[i + 1..]));
        entries := entries + Parsed(c, lines[i]);
        i := i + 1;
      }
    }
  }

  /** What may be on the device after a crash: the flushed part and any part of the rest. */
  predicate Survives(content: string, durable: nat, survived: string) {
    durable <= |survived| <= |content| && durable <= |content| && survived == content[..|survived|]
  }

  /* ------------------------------------------------------------------ restart */

  datatype RecoveryReport = RecoveryReport(unresolved: seq<Entry>, mustQuarantine: bool)

  function LatestOf(es: seq<Entry>, id: string): Option<Entry> {
    if es == [] then None
    else if es[|es| - 1].actionId == id then Some(es[|es| - 1])
    else LatestOf(es[..|es| - 1], id)
  }

  /** `e` is the last entry of its action and it carries no result. */
  predicate LeftOpen(es: seq<Entry>, e: Entry) {
    LatestOf(es, e.actionId) == Some(e) && e.result.None?
  }

  /** The action identifiers in order of first appearance: the key order of the source's `Map`. */
  function FirstSeen(es: seq<Entry>): seq<string> {
    if es == [] then [] else
      var before, id := FirstSeen(es[..|es| - 1]), es[|es| - 1].actionId;
      if id in before then before else before + [id]
  }

  function OpenAmong(es: seq<Entry>, ids: seq<string>): seq<Entry> {
    if ids == [] then [] else
      OpenAmong(es, ids[..|ids| - 1])
      + match LatestOf(es, ids[|ids| - 1])
        case Some(e) => if e.result.None? then [e] else []
        case None => []
  }

  function Report(es: seq<Entry>): RecoveryReport {
    var open := OpenAmong(es, FirstSeen(es));
    RecoveryReport(open, open != [])
  }

  /** Inspection after a restart. An AMBIGUOUS result counts as resolved. */
  method InspectAfterRestart(entries: seq<Entry>) returns (report: RecoveryReport)
    ensures report == Report(entries)
  {
    var latest: map<string, Entry>, order: seq<string> := map[], [];
    var n := 0;
    while n < |entries|
      invariant 0 <= n <= |entries|
      invariant order == FirstSeen(entries[..n])
      invariant forall id :: id in order <==> id in latest
      invariant forall id :: LatestOf(entries[..n], id) == if id in latest then Some(latest[id]) else None
    {
      var e := entries[n];
      assert entries[..n + 1][..n] == entries[..n];
      if e.actionId !in latest {
        order := order + [e.actionId];
      }
      latest := latest[e.actionId := e];
      n := n + 1;
    }
    assert entries[..n] == entries;
    var unresolved: seq<Entry> := [];
    var k := 0;
    while k < |order|
      invariant 0 <= k <= |order|
      invariant unresolved == OpenAmong(entries, order[..k])
    {
      assert order[..k + 1][..k] == order[..k];
      assert LatestOf(entries, order[k]) == Some(latest[order[k]]);
      if latest[order[k]].result.None? {
        unresolved := unresolved + [latest[order[k]]];
      }
      k := k + 1;
    }
    assert order[..k] == order;
    report := RecoveryReport(unresolved, unresolved != []);
  }

  lemma {:induction false} FirstSeenComplete(es: seq<Entry>, id: string)
    ensures id in FirstSeen(es) <==> LatestOf(es, id).Some?
    decreases |es|
  {
    if es != [] {
      FirstSeenComplete(es[..|es| - 1], id);
    }
  }

  lemma {:induction false} LatestOfNamed(es: seq<Entry>, id: string)
    ensures LatestOf(es, id).Some? ==> LatestOf(es, id).value.actionId == id && LatestOf(es, id).value in es
    decreases |es|
  {
    if es != [] {
      LatestOfNamed(es[..|es| - 1], id);
    }
  }

  lemma {:induction false} OpenAmongExact(es: seq<Entry>, ids: seq<string>, e: Entry)
    ensures e in OpenAmong(es, ids) <==> e.actionId in ids && LeftOpen(es, e)
    decreases |ids|
  {
    if ids != [] {
      OpenAmongExact(es, ids[..|ids| - 1], e);
      LatestOfNamed(es, ids[|ids| - 1]);
      assert ids == ids[..|ids| - 1] + [ids[|ids| - 1]];
    }
  }

  /** The report lists exactly the actions whose last entry has no result. */
  lemma {:induction false} ReportExact(es: seq<Entry>, e: Entry)
    ensures e in Report(es).unresolved <==> LeftOpen(es, e)
    ensures Report(es).mustQuarantine <==> Report(es).unresolved != []
  {
    OpenAmongExact(es, FirstSeen(es), e);
    FirstSeenComplete(es, e.actionId);
  }
}
