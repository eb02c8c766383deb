/**
 * Producer and validator: the journal file of every clean stop, whatever it held before, and the
 * server's check of its bytes against the actions that the control plane committed.
 */
module RunnerAgreement {
  import opened Basics
  import opened Supervision
  import opened JournalFile
  import opened JournalValidator
  import opened Runner
  import opened RunnerInv
  import opened RunnerAdapter
  import opened RunnerStop

  /* ------------------------------------------------------------------ what the server reads */

  /** The producer's JSON and the validator's: `names` spells an action, `reading` is a number as Python loads it. */
  datatype Wire = Wire(codec: Codec, py: Python, names: Action -> string, reading: real -> Json)

  function OutcomeDoc(w: Wire, e: Entry): Doc {
    (if e.result.Some? then map[ResultField := Text(StatusText(e.result.value))] else map[])
    + (if e.dispatchedAt.Some? then map[DispatchedAtField := w.reading(e.dispatchedAt.value)] else map[])
    + (if e.ambiguity.Some? then map[AmbiguityField := Text("ambiguous")] else map[])
  }

  /** The record an entry is written as; absent values are absent fields. */
  function EntryDoc(w: Wire, e: Entry): Doc {
    map[ActionIdField := Text(e.actionId), LeaseIdField := Text(e.leaseId), EpochField := Int(e.epoch),
        SequenceField := Int(e.sequence), ActionField := Text(w.names(e.action))]
    + Maybe(ServerActionIdField, e.serverActionId) + Maybe(KeyChordField, e.keyChord) + Maybe(TextField, e.text)
    + map[IntentAtField := Text(e.intentAtUtc)]
    + OutcomeDoc(w, e)
  }

  /** The UTF-8 byte order mark, which `json.loads` drops from the front of bytes. */
  const MARK := "\U{EF}\U{BB}\U{BF}"

  predicate Spaces(p: string) {
    forall c <- p :: c == ' ' || c == '\t'
  }

  /** What the validator's JSON accepts in front of a record on its line. */
  predicate Skips(p: string) {
    Spaces(p) || (|p| >= |MARK| && p[..|MARK|] == MARK && Spaces(p[|MARK|..]))
  }

  predicate Unbroken(s: string) {
    forall c <- s :: !Break(c)
  }

  /** What the two languages' JSON must agree on; the producer's is `Lawful` as well. */
  ghost predicate Agreeing(w: Wire) {
    && Lawful(w.codec)
    && (forall e :: Unbroken(w.codec.encode(e)))
    && (forall e :: Writable(w.codec, e) ==> w.py.loads(w.codec.encode(e)) == Some(Object(EntryDoc(w, e))))
    && (forall p, e ::
         Skips(p) && Writable(w.codec, e) ==> w.py.loads(p + w.codec.encode(e)) == Some(Object(EntryDoc(w, e))))
    && (forall p, e :: !Skips(p) && Unbroken(p) ==> w.py.loads(p + w.codec.encode(e)) == None)
    && ReadsNumbers(w)
    && w.names(Stop) == "STOP"
  }

  ghost predicate ReadsNumbers(w: Wire) {
    forall r :: IsReading(w.reading(r)) && Number(w.reading(r)) == Some(r)
  }

  /** A committed row as the control plane's query returns it. */
  function ServerRow(w: Wire, lease: Lease, r: Row): ServerAction {
    ServerAction(r.command.actionId, r.command.sequence, lease.leaseId, lease.epoch, w.names(r.command.action),
                 r.command.keyChord, r.command.text, true, r.status.Some?, r.status)
  }

  function ServerRows(w: Wire, lease: Lease, rows: seq<Row>): (actions: seq<ServerAction>)
    ensures |actions| == |rows|
    ensures forall k :: 0 <= k < |rows| ==> actions[k] == ServerRow(w, lease, rows[k])
  {
    if rows == [] then [] else [ServerRow(w, lease, rows[0])] + ServerRows(w, lease, rows[1..])
  }

  function Docs(w: Wire, es: seq<Entry>): (docs: seq<Loaded>)
    ensures |docs| == |es| && forall k :: 0 <= k < |es| ==> docs[k] == Object(EntryDoc(w, es[k]))
  {
    if es == [] then [] else [Object(EntryDoc(w, es[0]))] + Docs(w, es[1..])
  }

  lemma {:induction false} LineEndAt(line: string, rest: string)
    requires Unbroken(line) && rest != "" && Break(rest[0])
    ensures LineEnd(line + rest) == |line|
  {
    if line == "" {
      assert line + rest == rest;
    } else {
      assert (line + rest)[1..] == line[1..] + rest;
      LineEndAt(line[1..], rest);
    }
  }

  /** An unbroken line in front of anything is the first line. */
  lemma {:induction false} SplitsFirst(line: string, rest: string)
    requires Unbroken(line)
    ensures Splitlines(line + [LF] + rest) == [line] + Splitlines(rest)
  {
    var whole := line + [LF] + rest;
    assert whole == line + ([LF] + rest);
    LineEndAt(line, [LF] + rest);
    assert whole[..|line|] == line && whole[|line| + 1..] == rest;
  }

  /** The validator's lines are the producer's records, none lost or split. */
  lemma {:induction false} LoadsBack(w: Wire, es: seq<Entry>)
    requires Agreeing(w) && AllWritable(w.codec, es)
    ensures LoadAll(w.py, Splitlines(Lines(w.codec, es))) == Some(Docs(w, es))
    decreases |es|
  {
    if es != [] {
      var line, rest := w.codec.encode(es[0]), Lines(w.codec, es[1..]);
      SplitsFirst(line, rest);
      assert ([line] + Splitlines(rest))[1..] == Splitlines(rest);
      LoadsBack(w, es[1..]);
    }
  }

  /** With an unbroken line start `p` in front, they load exactly when `p` is skipped. */
  lemma {:induction false} LoadsBehind(w: Wire, p: string, es: seq<Entry>)
    requires Agreeing(w) && AllWritable(w.codec, es) && es != [] && Unbroken(p)
    ensures LoadAll(w.py, Splitlines(p + Lines(w.codec, es))) == if Skips(p) then Some(Docs(w, es)) else None
  {
    var line, rest := p + w.codec.encode(es[0]), Lines(w.codec, es[1..]);
    assert p + Lines(w.codec, es) == line + [LF] + rest;
    SplitsFirst(line, rest);
    assert ([line] + Splitlines(rest))[1..] == Splitlines(rest);
    LoadsBack(w, es[1..]);
  }

  lemma {:induction false} LinesSplit(w: Wire, es: seq<Entry>)
    requires Agreeing(w)
    ensures |Splitlines(Lines(w.codec, es))| == |es|
    decreases |es|
  {
    if es != [] {
      SplitsFirst(w.codec.encode(es[0]), Lines(w.codec, es[1..]));
      LinesSplit(w, es[1..]);
    }
  }

  /** A broken line start makes at least one line more. */
  lemma {:induction false} SplitsMore(w: Wire, p: string, es: seq<Entry>)
    requires Agreeing(w) && es != []
    ensures |Splitlines(p + Lines(w.codec, es))| >= |es| + if Unbroken(p) then 0 else 1
    decreases |p|
  {
    if Unbroken(p) {
      var line, rest := p + w.codec.encode(es[0]), Lines(w.codec, es[1..]);
      assert p + Lines(w.codec, es) == line + [LF] + rest;
      SplitsFirst(line, rest);
      LinesSplit(w, es[1..]);
    } else {
      var n := LineEnd(p);
      var more := if p[n] == '\r' && n + 1 < |p| && p[n + 1] == '\n' then p[n + 2..] else p[n + 1..];
      SplitsAtBreak(p, Lines(w.codec, es));
      SplitsMore(w, more, es);
    }
  }

  lemma {:induction false} SplitsAtBreak(p: string, rest: string)
    requires !Unbroken(p) && rest != "" && rest[0] == '{'
    ensures var n := LineEnd(p);
            && n < |p|
            && var more := if p[n] == '\r' && n + 1 < |p| && p[n + 1] == '\n' then p[n + 2..] else p[n + 1..];
               |Splitlines(p + rest)| == 1 + |Splitlines(more + rest)|
  {
    var n, whole := LineEnd(p), p + rest;
    LineEndFront(p, rest);
    assert whole[n + 1..] == p[n + 1..] + rest;
    if n + 1 < |p| {
      assert whole[n + 2..] == p[n + 2..] + rest;
    }
  }

  lemma {:induction false} LineEndFront(p: string, rest: string)
    requires !Unbroken(p)
    ensures LineEnd(p + rest) == LineEnd(p) < |p|
  {
    if !Break(p[0]) {
      assert p == [p[0]] + p[1..];
      assert (p + rest)[1..] == p[1..] + rest;
      LineEndFront(p[1..], rest);
    }
  }

  lemma {:induction false} LoadsEach(py: Python, lines: seq<string>)
    ensures LoadAll(py, lines).Some? ==> |LoadAll(py, lines).value| == |lines|
    decreases |lines|
  {
    if lines != [] {
      LoadsEach(py, lines[1..]);
    }
  }

  lemma {:induction false} LinesEnd(c: Codec, es: seq<Entry>)
    requires es != []
    ensures Lines(c, es) != "" && Lines(c, es)[|Lines(c, es)| - 1] == LF
    decreases |es|
  {
    if |es| > 1 {
      LinesEnd(c, es[1..]);
    } else {
      assert Lines(c, es[1..]) == "";
    }
  }

  lemma {:induction false} IntentDocExact(w: Wire, lease: Lease, r: Row, k: nat, i: Entry)
    requires i.result.None? && i.dispatchedAt.None? && i.ambiguity.None?
    requires i.actionId == ActionId(lease.leaseId, lease.epoch, k + 1) && i.serverActionId == Some(r.command.actionId)
    requires i.leaseId == lease.leaseId && i.epoch == lease.epoch && i.sequence == k + 1 && SameWork(i, r.command)
    ensures EntryDoc(w, i)
                == IntentDoc(Context(lease.leaseId, lease.epoch), ServerRow(w, lease, r), k + 1, i.intentAtUtc)
  {
    var identity := IdentityDoc(Context(lease.leaseId, lease.epoch), ServerRow(w, lease, r), k + 1);
    assert OutcomeDoc(w, i) == map[];
    assert map[ActionIdField := Text(i.actionId), LeaseIdField := Text(i.leaseId), EpochField := Int(i.epoch),
               SequenceField := Int(i.sequence), ActionField := Text(w.names(i.action))]
           + Maybe(ServerActionIdField, i.serverActionId) == identity;
  }

  lemma {:induction false} ResultDocExact(w: Wire, i: Entry, r: Entry, status: Status)
    requires i.result.None? && i.dispatchedAt.None? && i.ambiguity.None?
    requires r.dispatchedAt.Some? && r == i.(dispatchedAt := r.dispatchedAt, result := Some(status))
    ensures EntryDoc(w, r) == ResultDoc(EntryDoc(w, i), status, w.reading(r.dispatchedAt.value))
    ensures FieldOr(EntryDoc(w, r), DispatchedAtField) == w.reading(r.dispatchedAt.value)
  {
    assert OutcomeDoc(w, i) == map[];
    assert OutcomeDoc(w, r)
               == map[ResultField := Text(StatusText(status)), DispatchedAtField := w.reading(r.dispatchedAt.value)];
  }

  /* ------------------------------------------------------------------ the agreement */

  /** The result-time clock reading of the `n`-th pair, counting from 1; -1 before the first. */
  function ReadingOf(j: seq<Entry>, n: nat): real
    requires 2 * n <= |j|
  {
    if n > 0 && j[2 * n - 1].dispatchedAt.Some? then j[2 * n - 1].dispatchedAt.value else -1.0
  }

  predicate StampValid(py: Python, j: seq<Entry>, k: nat)
    requires 2 * k < |j|
  {
    py.rfc3339(j[2 * k].intentAtUtc)
  }

  predicate StampsValid(py: Python, j: seq<Entry>) {
    forall k :: 0 <= k < |j| / 2 ==> StampValid(py, j, k)
  }

  predicate RisesAt(j: seq<Entry>, k: nat)
    requires 2 * k + 2 <= |j|
  {
    ReadingOf(j, k) <= ReadingOf(j, k + 1)
  }

  /** Result-time readings start at -1 or later and never decrease. */
  predicate ReadingsRise(j: seq<Entry>) {
    forall k :: 0 <= k < |j| / 2 ==> RisesAt(j, k)
  }

  lemma {:induction false} ReadingIsNumber(w: Wire, e: Entry)
    requires ReadsNumbers(w) && e.dispatchedAt.Some?
    ensures IsReading(w.reading(e.dispatchedAt.value))
            && Number(w.reading(e.dispatchedAt.value)) == Some(e.dispatchedAt.value)
  {
    var t: real := e.dispatchedAt.value;
    assert IsReading(w.reading(t));
  }

  lemma {:induction false} PairAgrees(w: Wire, lease: Lease, j: seq<Entry>, rows: seq<Row>, k: nat)
    requires Agreeing(w) && |j| == 2 * |rows| && k < |rows| && CleanAt(j, rows, lease, k)
    ensures CleanPair(w.py, Context(lease.leaseId, lease.epoch), ServerRow(w, lease, rows[k]), k + 1,
                      Object(EntryDoc(w, j[2 * k])), Object(EntryDoc(w, j[2 * k + 1])))
            <==> w.py.rfc3339(j[2 * k].intentAtUtc)
  {
    var i, r, row := j[2 * k], j[2 * k + 1], Context(lease.leaseId, lease.epoch);
    IntentDocExact(w, lease, rows[k], k, i);
    IntentShaped(row, ServerRow(w, lease, rows[k]), k + 1, i.intentAtUtc);
    ResultDocExact(w, i, r, rows[k].status.value);
    ReadingIsNumber(w, r);
  }

  predicate AnsweredAt(j: seq<Entry>, k: nat) {
    && 2 * k + 1 < |j|
    && var i, r := j[2 * k], j[2 * k + 1];
    && i.result.None? && i.dispatchedAt.None? && i.ambiguity.None?
    && r.dispatchedAt.Some? && r.result.Some? && r == i.(dispatchedAt := r.dispatchedAt, result := r.result)
  }

  lemma {:induction false} ReadingOfDoc(w: Wire, i: Entry, e: Entry)
    requires ReadsNumbers(w) && i.result.None? && i.dispatchedAt.None? && i.ambiguity.None?
    requires e.dispatchedAt.Some? && e.result.Some? && e == i.(dispatchedAt := e.dispatchedAt, result := e.result)
    ensures Number(FieldOr(EntryDoc(w, e), DispatchedAtField)) == Some(e.dispatchedAt.value)
  {
    ResultDocExact(w, i, e, e.result.value);
    ReadingIsNumber(w, e);
  }

  lemma {:induction false} ReadingAt(docs: seq<Loaded>, n: nat, d: Doc, t: real)
    requires 0 < 2 * n <= |docs| && docs[2 * n - 1] == Object(d) && Number(FieldOr(d, DispatchedAtField)) == Some(t)
    ensures ReadingBefore(docs, n) == t
  {
  }

  lemma {:induction false} ReadingAgrees(w: Wire, j: seq<Entry>, n: nat)
    requires ReadsNumbers(w) && 2 * n <= |j| && (n > 0 ==> AnsweredAt(j, n - 1))
    ensures ReadingBefore(Docs(w, j), n) == ReadingOf(j, n)
  {
    if n > 0 {
      ReadingOfDoc(w, j[2 * n - 2], j[2 * n - 1]);
      ReadingAt(Docs(w, j), n, EntryDoc(w, j[2 * n - 1]), ReadingOf(j, n));
    }
  }

  lemma {:induction false} RisesAgree(w: Wire, j: seq<Entry>, k: nat)
    requires ReadsNumbers(w) && 2 * k + 2 <= |j| && AnsweredAt(j, k) && (k > 0 ==> AnsweredAt(j, k - 1))
    ensures ReadingBefore(Docs(w, j), k) <= ReadingBefore(Docs(w, j), k + 1) <==> RisesAt(j, k)
  {
    ReadingAgrees(w, j, k);
    ReadingAgrees(w, j, k + 1);
  }

  lemma {:induction false} CleanAnswered(j: seq<Entry>, rows: seq<Row>, lease: Lease, k: nat)
    requires CleanAt(j, rows, lease, k)
    ensures AnsweredAt(j, k)
  {
  }

  lemma {:induction false} PairOkAgrees(w: Wire, lease: Lease, j: seq<Entry>, rows: seq<Row>, k: nat)
    requires Agreeing(w) && |j| == 2 * |rows| && k < |rows|
    requires CleanAt(j, rows, lease, k) && (k > 0 ==> CleanAt(j, rows, lease, k - 1))
    ensures PairOk(w.py, Context(lease.leaseId, lease.epoch), ServerRows(w, lease, rows), Docs(w, j), k)
            <==> StampValid(w.py, j, k) && RisesAt(j, k)
  {
    PairAgrees(w, lease, j, rows, k);
    CleanAnswered(j, rows, lease, k);
    if k > 0 {
      CleanAnswered(j, rows, lease, k - 1);
    }
    RisesAgree(w, j, k);
  }

  lemma {:induction false} PairsAgree(w: Wire, lease: Lease, j: seq<Entry>, rows: seq<Row>, actions: seq<ServerAction>,
                                      docs: seq<Loaded>)
    requires Agreeing(w) && |j| == 2 * |rows| && actions == ServerRows(w, lease, rows) && docs == Docs(w, j)
    requires forall k :: 0 <= k < |rows| ==> CleanAt(j, rows, lease, k)
    ensures (forall k :: 0 <= k < |rows| ==> PairOk(w.py, Context(lease.leaseId, lease.epoch), actions, docs, k))
            <==> StampsValid(w.py, j) && ReadingsRise(j)
  {
    forall k | 0 <= k < |rows|
      ensures PairOk(w.py, Context(lease.leaseId, lease.epoch), actions, docs, k)
              <==> StampValid(w.py, j, k) && RisesAt(j, k)
    {
      PairOkAgrees(w, lease, j, rows, k);
    }
  }

  /**
   * The server's verdict on a file that held `prior` before the records of `j`: for any journal whose
   * pairs agree with the committed rows, it is about `prior`, the size, the stamps and the readings.
   */
  lemma {:induction false} JournalAgrees(w: Wire, lease: Lease, prior: string, j: seq<Entry>, rows: seq<Row>)
    requires Agreeing(w) && AllWritable(w.codec, j) && rows != [] && |j| == 2 * |rows|
    requires forall k :: 0 <= k < |rows| ==> CleanAt(j, rows, lease, k)
    requires rows[|rows| - 1].command.action.Stop? && rows[|rows| - 1].status == Some(Succeeded)
    ensures Accepts(w, lease, prior + Lines(w.codec, j), rows)
            <==> && Skips(prior) && |prior + Lines(w.codec, j)| <= MAX_ARTIFACT_BYTES
                 && StampsValid(w.py, j) && ReadingsRise(j)
  {
    var payload, actions := prior + Lines(w.codec, j), ServerRows(w, lease, rows);
    LinesEnd(w.codec, j);
    if Unbroken(prior) {
      LoadsBehind(w, prior, j);
      if Skips(prior) {
        PairsAgree(w, lease, j, rows, actions, Docs(w, j));
        assert actions[|actions| - 1] == ServerRow(w, lease, rows[|rows| - 1]);
        CleanWhen(w.py, payload, actions, Context(lease.leaseId, lease.epoch), Docs(w, j));
      }
    } else {
      SplitsMore(w, prior, j);
      LoadsEach(w.py, Splitlines(payload));
      SkipsUnbroken(prior);
    }
  }

  /** The server accepts these bytes as the journal of a clean run of these rows. */
  predicate Accepts(w: Wire, lease: Lease, payload: string, rows: seq<Row>) {
    CleanJournal(w.py, payload, ServerRows(w, lease, rows), Context(lease.leaseId, lease.epoch))
  }

  lemma {:induction false} SkipsUnbroken(p: string)
    ensures Skips(p) ==> Unbroken(p)
  {
    if Skips(p) && !Spaces(p) {
      assert p == MARK + p[|MARK|..];
    }
  }

  /** `CleanJournal` of a payload that loads, is complete and ends in a successful STOP. */
  lemma {:induction false} CleanWhen(py: Python, payload: string, actions: seq<ServerAction>, row: Context,
                                     docs: seq<Loaded>)
    requires payload != "" && payload[|payload| - 1] == LF && LoadAll(py, Splitlines(payload)) == Some(docs)
    requires actions != [] && |docs| == 2 * |actions|
    requires actions[|actions| - 1].action == "STOP" && actions[|actions| - 1].status == Some(Succeeded)
    ensures CleanJournal(py, payload, actions, row)
            <==> |payload| <= MAX_ARTIFACT_BYTES && forall k :: 0 <= k < |actions| ==> PairOk(py, row, actions, docs, k)
  {
  }

  /**
   * Every run that reaches an unfenced successful STOP, from any journal file: `finish` passes its own
   * check exactly when only white space stood behind the file's last newline; and the server accepts
   * the file's bytes against the committed rows exactly when all that the file held was white space on
   * one line (or a byte order mark and such), the bytes fit the size limit, the local stamps are
   * RFC 3339, and the result-time clock readings start at -1 or later and never decrease. The
   * supervisor checks only its gate's readings, so the last condition is a real one.
   */
  lemma {:induction false} ProducerMeetsValidator(cfg: Config, es: seq<Input>, w: Wire)
    requires Agreeing(w) && w.codec == cfg.codec && CleanStop(Execute(cfg, Start(cfg), es))
    requires AllWritable(w.codec, Execute(cfg, Start(cfg), es).journal)
    ensures var s := Execute(cfg, Start(cfg), es);
            && (ChecksOut(cfg, s) <==> Blank(Torn(cfg.initial)))
            && (Accepts(w, cfg.lease, FileOf(cfg, s), s.rows)
                <==> && Skips(cfg.initial) && |FileOf(cfg, s)| <= MAX_ARTIFACT_BYTES
                     && StampsValid(w.py, s.journal) && ReadingsRise(s.journal))
  {
    var s := Execute(cfg, Start(cfg), es);
    ReachableFinishable(cfg, es);
    StopChecksOut(cfg, s);
    StopAgrees(cfg, s, w);
  }

  lemma {:induction false} StopAgrees(cfg: Config, s: Runner, w: Wire)
    requires Safe(cfg, s) && StopInv(s) && CleanStop(s)
    requires Agreeing(w) && w.codec == cfg.codec && AllWritable(w.codec, s.journal)
    ensures Accepts(w, cfg.lease, FileOf(cfg, s), s.rows)
            <==> && Skips(cfg.initial) && |FileOf(cfg, s)| <= MAX_ARTIFACT_BYTES
                 && StampsValid(w.py, s.journal) && ReadingsRise(s.journal)
  {
    StopPairs(cfg, s);
    JournalAgrees(w, cfg.lease, cfg.initial, s.journal, s.rows);
  }

  lemma {:induction false} StopPairs(cfg: Config, s: Runner)
    requires Safe(cfg, s) && StopInv(s) && CleanStop(s)
    ensures s.rows != [] && |s.journal| == 2 * |s.rows|
    ensures forall k :: 0 <= k < |s.rows| ==> CleanAt(s.journal, s.rows, cfg.lease, k)
    ensures s.rows[|s.rows| - 1].command.action.Stop? && s.rows[|s.rows| - 1].status == Some(Succeeded)
  {
    CleanPairAt(cfg, s, 0);
    forall k | 0 <= k < |s.rows|
      ensures CleanAt(s.journal, s.rows, cfg.lease, k)
    {
      CleanPairAt(cfg, s, k);
    }
  }
}
