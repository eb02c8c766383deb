/**
 * The server-side validator that decides, after STOP, whether journal bytes are exactly what a clean
 * run would have written for the actions the control plane committed.
 */
module JournalValidator {
  import opened Basics
  import opened Supervision

  /** A JSON value as Python loads it; `Compound` stands for lists and nested objects. */
  datatype Json =
    | Text(s: string) | Int(i: int) | Float(r: real) | NonFinite | Bool(b: bool) | Null | Compound(tag: nat)

  /** The field names of a journal record; `OtherField` is any other name. */
  datatype Field =
    | ActionIdField | ServerActionIdField | LeaseIdField | EpochField | SequenceField | ActionField
    | KeyChordField | TextField | IntentAtField | DispatchedAtField | ResultField | AmbiguityField
    | OtherField(name: string)

  type Doc = map<Field, Json>

  datatype Loaded = Object(doc: Doc) | Array

  /** `json.loads` with the duplicate-field hook (`None` where it raises), and the timestamp parser. */
  datatype Python = Python(loads: string -> Option<Loaded>, rfc3339: string -> bool)

  /** A committed action as the control plane retained it. */
  datatype ServerAction = ServerAction(
    id: string, sequence: int, leaseId: string, epoch: int, action: string,
    keyChord: Option<string>, text: Option<string>, dispatched: bool, resulted: bool, status: Option<Status>)

  datatype Context = Context(leaseId: string, epoch: nat)

  /* ------------------------------------------------------------------ Python values */

  function Number(j: Json): Option<real> {
    match j
    case Int(i) => Some(i as real)
    case Float(r) => Some(r)
    case Bool(b) => Some(if b then 1.0 else 0.0)
    case _ => None
  }

  /** Python's `==`: `1 == 1.0 == True`. */
  predicate PyEq(a: Json, b: Json) {
    if Number(a).Some? && Number(b).Some? then Number(a) == Number(b) else a == b
  }

  predicate DocEq(a: Doc, b: Doc) {
    a.Keys == b.Keys && forall f <- a.Keys :: PyEq(a[f], b[f])
  }

  predicate Break(c: char) {
    c == '\n' || c == '\r'
  }

  function LineEnd(s: string): (n: nat)
    ensures n <= |s| && (n < |s| ==> Break(s[n]))
    ensures forall i :: 0 <= i < n ==> !Break(s[i])
  {
    if s == "" || Break(s[0]) then 0 else
      var n := LineEnd(s[1..]);
      assert forall i :: 1 <= i < n + 1 ==> s[i] == s[1..][i - 1];
      n + 1
  }

  /** `bytes.splitlines()`. */
  function Splitlines(s: string): seq<string>
    decreases |s|
  {
    if s == "" then [] else
      var n := LineEnd(s);
      if n == |s| then [s]
      else if s[n] == '\r' && n + 1 < |s| && s[n + 1] == '\n' then [s[..n]] + Splitlines(s[n + 2..])
      else [s[..n]] + Splitlines(s[n + 1..])
  }

  /* ------------------------------------------------------------------ the specification */

  function StatusText(status: Status): string {
    match status
    case Succeeded => "SUCCEEDED"
    case Failed => "FAILED"
    case Ambiguous => "AMBIGUOUS"
  }

  function Maybe(f: Field, value: Option<string>): Doc {
    if value.Some? then map[f := Text(value.value)] else map[]
  }

  /** The one intent document a clean run writes for `a` as the `index`-th action. */
  function IntentDoc(row: Context, a: ServerAction, index: nat, stamp: string): Doc {
    IdentityDoc(row, a, index)
    + Maybe(KeyChordField, a.keyChord) + Maybe(TextField, a.text)
    + map[IntentAtField := Text(stamp)]
  }

  function IdentityDoc(row: Context, a: ServerAction, index: nat): Doc {
    map[ActionIdField := Text(ActionId(row.leaseId, row.epoch, index)),
        ServerActionIdField := Text(a.id),
        LeaseIdField := Text(row.leaseId),
        EpochField := Int(row.epoch),
        SequenceField := Int(index),
        ActionField := Text(a.action)]
  }

  function ResultDoc(intent: Doc, status: Status, reading: Json): Doc {
    intent + map[ResultField := Text(StatusText(status)), DispatchedAtField := reading]
  }

  predicate IsReading(j: Json) {
    j.Int? || j.Float?
  }

  predicate ActionOk(row: Context, a: ServerAction, index: nat) {
    && a.sequence == index && a.leaseId == row.leaseId && a.epoch == row.epoch
    && a.dispatched && a.resulted && a.status.Some? && a.status.value != Ambiguous
  }

  function FieldOr(d: Doc, f: Field): Json {
    if f in d then d[f] else Null
  }

  /** The two documents are exactly the clean pair for this action, at their own stamp and reading. */
  predicate CleanPair(py: Python, row: Context, a: ServerAction, index: nat, intent: Loaded, outcome: Loaded) {
    && intent.Object? && outcome.Object?
    && ActionOk(row, a, index)
    && var stamp := FieldOr(intent.doc, IntentAtField);
       var reading := FieldOr(outcome.doc, DispatchedAtField);
    && stamp.Text? && py.rfc3339(stamp.s) && IsReading(reading)
    && intent.doc == IntentDoc(row, a, index, stamp.s)
    && outcome.doc == ResultDoc(intent.doc, a.status.value, reading)
  }

  /** The clock reading of the pair that ends at `docs[2 * n - 1]`; -1 before the first. */
  function ReadingBefore(docs: seq<Loaded>, n: nat): real
    requires 2 * n <= |docs|
  {
    if n == 0 || docs[2 * n - 1].Array? then -1.0 else
      var r := Number(FieldOr(docs[2 * n - 1].doc, DispatchedAtField));
      if r.Some? then r.value else -1.0
  }

  predicate PairOk(py: Python, row: Context, actions: seq<ServerAction>, docs: seq<Loaded>, k: nat)
    requires |docs| == 2 * |actions| && k < |actions|
  {
    && CleanPair(py, row, actions[k], k + 1, docs[2 * k], docs[2 * k + 1])
    && ReadingBefore(docs, k) <= ReadingBefore(docs, k + 1)
  }

  function LoadAll(py: Python, lines: seq<string>): Option<seq<Loaded>> {
    if lines == [] then Some([]) else
      match (py.loads(lines[0]), LoadAll(py, lines[1..]))
      case (Some(d), Some(ds)) => Some([d] + ds)
      case _ => None
  }

  /** Bounded, newline-terminated, one clean pair per action in order, and a successful STOP last. */
  predicate CleanJournal(py: Python, payload: string, actions: seq<ServerAction>, row: Context) {
    && 0 < |payload| <= MAX_ARTIFACT_BYTES && payload[|payload| - 1] == '\n'
    && actions != []
    && var docs := LoadAll(py, Splitlines(payload));
    && docs.Some? && |docs.value| == 2 * |actions|
    && (forall k :: 0 <= k < |actions| ==> PairOk(py, row, actions, docs.value, k))
    && actions[|actions| - 1].action == "STOP" && actions[|actions| - 1].status == Some(Succeeded)
  }

  /* ------------------------------------------------------------------ the method */

  /** Python's dictionary comparison, plus the code's type checks on the two integer fields. */
  predicate SameDoc(d: Doc, expected: Doc) {
    DocEq(d, expected) && FieldOr(d, EpochField).Int? && FieldOr(d, SequenceField).Int?
  }

  /** The two integer fields, and text or the reading everywhere else. */
  predicate RecordShaped(d: Doc) {
    && EpochField in d && d[EpochField].Int? && SequenceField in d && d[SequenceField].Int?
    && forall f <- d.Keys :: f != EpochField && f != SequenceField && f != DispatchedAtField ==> d[f].Text?
  }

  lemma {:induction false} SameDocIsExact(d: Doc, expected: Doc)
    requires RecordShaped(expected) && FieldOr(d, DispatchedAtField) == FieldOr(expected, DispatchedAtField)
    ensures SameDoc(d, expected) <==> d == expected
  {
    if SameDoc(d, expected) {
      forall f | f in d
        ensures d[f] == expected[f]
      {
        assert f in d.Keys && PyEq(d[f], expected[f]);
      }
      assert d == expected;
    }
  }

  predicate TextOnly(d: Doc) {
    forall f <- d.Keys ::
      d[f].Text? && f != DispatchedAtField && f != ResultField && f != EpochField && f != SequenceField
  }

  predicate IntentShape(d: Doc) {
    RecordShaped(d) && DispatchedAtField !in d && ResultField !in d
  }

  lemma {:induction false} IdentityShaped(row: Context, a: ServerAction, index: nat)
    ensures IntentShape(IdentityDoc(row, a, index))
  {
    var d := IdentityDoc(row, a, index);
    assert d.Keys == {ActionIdField, ServerActionIdField, LeaseIdField, EpochField, SequenceField, ActionField};
  }

  lemma {:induction false} ShapeExtends(d: Doc, extra: Doc)
    requires IntentShape(d) && TextOnly(extra)
    ensures IntentShape(d + extra)
  {
  }

  lemma {:induction false} IntentShaped(row: Context, a: ServerAction, index: nat, stamp: string)
    ensures IntentShape(IntentDoc(row, a, index, stamp))
    ensures FieldOr(IntentDoc(row, a, index, stamp), IntentAtField) == Text(stamp)
  {
    var d := IdentityDoc(row, a, index);
    IdentityShaped(row, a, index);
    ShapeExtends(d, Maybe(KeyChordField, a.keyChord));
    ShapeExtends(d + Maybe(KeyChordField, a.keyChord), Maybe(TextField, a.text));
    ShapeExtends(d + Maybe(KeyChordField, a.keyChord) + Maybe(TextField, a.text), map[IntentAtField := Text(stamp)]);
  }

  lemma {:induction false} ResultShaped(intent: Doc, status: Status, reading: Json)
    requires RecordShaped(intent)
    ensures RecordShaped(ResultDoc(intent, status, reading))
    ensures FieldOr(ResultDoc(intent, status, reading), DispatchedAtField) == reading
  {
  }

  function Prepend(xs: seq<Loaded>, o: Option<seq<Loaded>>): Option<seq<Loaded>> {
    if o.Some? then Some(xs + o.value) else None
  }

  method LoadLines(py: Python, lines: seq<string>) returns (docs: Option<seq<Loaded>>)
    ensures docs == LoadAll(py, lines)
  {
    var loaded: seq<Loaded> := [];
    var i := 0;
    assert lines[0..] == lines;
    assert forall ds: seq<Loaded> :: [] + ds == ds;
    while i < |lines|
      invariant 0 <= i <= |lines|
      invariant LoadAll(py, lines) == Prepend(loaded, LoadAll(py, lines[i..]))
    {
      assert lines[i..][1..] == lines[i + 1..];
      match py.loads(lines[i]) {
        case None => return None;
        case Some(d) =>
          assert forall ds: seq<Loaded> :: loaded + ([d] + ds) == (loaded + [d]) + ds;
          loaded := loaded + [d];
      }
      i := i + 1;
    }
    assert lines[i..] == [] && loaded + [] == loaded;
    return Some(loaded);
  }

  /** One round of the loop: the reading when the pair is accepted. */
  method ValidatePair(py: Python, row: Context, a: ServerAction, index: nat, intent: Loaded, outcome: Loaded,
                      last: real)
    returns (reading: Option<real>)
    ensures reading.Some? <==> CleanPair(py, row, a, index, intent, outcome)
                               && last <= Number(FieldOr(outcome.doc, DispatchedAtField)).value
    ensures reading.Some? ==> reading == Number(FieldOr(outcome.doc, DispatchedAtField))
  {
    if intent.Array? || outcome.Array? {
      return None;
    }
    var stamp := FieldOr(intent.doc, IntentAtField);
    if !stamp.Text? || !py.rfc3339(stamp.s) {
      return None;
    }
    var expected := IntentDoc(row, a, index, stamp.s);
    IntentShaped(row, a, index, stamp.s);
    var monotonic := FieldOr(outcome.doc, DispatchedAtField);
    if monotonic.Bool? || !(monotonic.Int? || monotonic.Float? || monotonic.NonFinite?) {
      return None;
    }
    if !SameDoc(intent.doc, expected) {
      SameIntentNeeded(intent.doc, expected);
      return None;
    }
    SameIntentNeeded(intent.doc, expected);
    if monotonic.NonFinite? || Number(monotonic).value < last || !ActionOk(row, a, index) {
      return None;
    }
    ResultShaped(expected, a.status.value, monotonic);
    SameDocIsExact(outcome.doc, ResultDoc(expected, a.status.value, monotonic));
    if !SameDoc(outcome.doc, ResultDoc(expected, a.status.value, monotonic)) {
      return None;
    }
    return Number(monotonic);
  }

  /** An intent record carries no reading, so its comparison is exact as well. */
  lemma {:induction false} SameIntentNeeded(d: Doc, expected: Doc)
    requires RecordShaped(expected) && DispatchedAtField !in expected
    ensures SameDoc(d, expected) <==> d == expected
  {
    if SameDoc(d, expected) {
      assert DispatchedAtField !in d.Keys;
    }
    if SameDoc(d, expected) || d == expected {
      SameDocIsExact(d, expected);
    }
  }

  method ValidatePairs(py: Python, row: Context, actions: seq<ServerAction>, entries: seq<Loaded>) returns (ok: bool)
    requires |entries| == 2 * |actions|
    ensures ok <==> forall k :: 0 <= k < |actions| ==> PairOk(py, row, actions, entries, k)
  {
    var lastMonotonic := -1.0;
    var index := 0;
    while index < |actions|
      invariant 0 <= index <= |actions|
      invariant forall k :: 0 <= k < index ==> PairOk(py, row, actions, entries, k)
      invariant lastMonotonic == ReadingBefore(entries, index)
    {
      var reading := ValidatePair(py, row, actions[index], index + 1, entries[2 * index], entries[2 * index + 1],
          lastMonotonic);
      if reading.None? {
        assert !PairOk(py, row, actions, entries, index);
        return false;
      }
      lastMonotonic := reading.value;
      index := index + 1;
    }
    return true;
  }

  method Validate(py: Python, payload: string, actions: seq<ServerAction>, row: Context) returns (r: Result<()>)
    ensures r.Ok? <==> CleanJournal(py, payload, actions, row)
  {
    if payload == "" || |payload| > MAX_ARTIFACT_BYTES || payload[|payload| - 1] != '\n' {
      return Refused("bounded complete journal bytes required");
    }
    var docs := LoadLines(py, Splitlines(payload));
    if docs.None? {
      return Refused("malformed journal; no discarded lines");
    }
    var entries := docs.value;
    if actions == [] || |entries| != 2 * |actions| {
      return Refused("journal does not cover all actions");
    }
    var same := ValidatePairs(py, row, actions, entries);
    if !same {
      return Refused("journal identity/result differs from the retained action");
    }
    if actions[|actions| - 1].action != "STOP" || actions[|actions| - 1].status != Some(Succeeded) {
      return Refused("journal has no successful STOP tail");
    }
    return Ok(());
  }
}
