/** The server's journal check field by field: what a payload must hold, line by line, to be accepted. */
module JournalFields {
  import opened Basics
  import opened Supervision
  import opened JournalValidator

  /* ------------------------------------------------------------------ lines */

  /** A text without line breaks is one line; what ends it is LF, CR LF, or a CR that no LF follows. */
  lemma {:induction false} LineBreaks(line: string, end: string, rest: string)
    requires '\n' !in line && '\r' !in line
    requires end == "\n" || end == "\r\n" || (end == "\r" && (rest == "" || rest[0] != '\n'))
    ensures Splitlines(line + end + rest) == [line] + Splitlines(rest)
    ensures Splitlines(line) == if line == "" then [] else [line]
    ensures Splitlines("") == []
  {
    var whole := line + end + rest;
    EndsAt(line, end + rest);
    EndsAt(line, "");
    assert whole == line + (end + rest) && line + "" == line;
    assert whole[..|line|] == line && whole[|line| + |end|..] == rest;
    assert whole[|line|] == end[0] && (end == "\r\n" ==> whole[|line| + 1] == '\n');
    if end == "\r" && rest != "" {
      assert whole[|line| + 1] == rest[0];
    }
  }

  lemma {:induction false} EndsAt(line: string, rest: string)
    requires '\n' !in line && '\r' !in line && (rest != "" ==> rest[0] == '\n' || rest[0] == '\r')
    ensures LineEnd(line + rest) == |line|
  {
    var whole, n := line + rest, LineEnd(line + rest);
    assert forall k :: 0 <= k < |line| ==> whole[k] == line[k] && line[k] in line;
    assert rest != "" ==> whole[|line|] == rest[0];
  }

  /** The lines load exactly when each of them does. */
  lemma {:induction false} LoadedIff(py: Python, lines: seq<string>)
    ensures LoadAll(py, lines).Some? <==> forall k :: 0 <= k < |lines| ==> py.loads(lines[k]).Some?
    ensures LoadAll(py, lines).Some? ==>
              && |LoadAll(py, lines).value| == |lines|
              && forall k :: 0 <= k < |lines| ==> py.loads(lines[k]) == Some(LoadAll(py, lines).value[k])
    decreases |lines|
  {
    if lines != [] {
      LoadedIff(py, lines[1..]);
      assert forall k :: 0 <= k < |lines| - 1 ==> lines[1..][k] == lines[k + 1];
      if forall k :: 0 <= k < |lines| ==> py.loads(lines[k]).Some? {
        assert py.loads(lines[0]).Some?;
      }
      if LoadAll(py, lines).Some? {
        forall k | 0 <= k < |lines|
          ensures py.loads(lines[k]) == Some(LoadAll(py, lines).value[k])
        {
          if k > 0 {
            assert lines[k] == lines[1..][k - 1];
          }
        }
      }
    }
  }

  /* ------------------------------------------------------------------ one pair */

  /** The retained action is the `number`-th of this lease, dispatched and settled one way or the other. */
  predicate RowFields(row: Context, a: ServerAction, number: nat) {
    && a.sequence == number && a.leaseId == row.leaseId && a.epoch == row.epoch
    && a.dispatched && a.resulted && (a.status == Some(Succeeded) || a.status == Some(Failed))
  }

  function IntentNames(a: ServerAction): set<Field> {
    {ActionIdField, ServerActionIdField, LeaseIdField, EpochField, SequenceField, ActionField, IntentAtField}
    + (if a.keyChord.Some? then {KeyChordField} else {}) + (if a.text.Some? then {TextField} else {})
  }

  /** The intent names the action, the lease, the epoch and the work, has a timestamp, and nothing else. */
  predicate IntentFields(py: Python, row: Context, a: ServerAction, number: nat, d: Doc) {
    && d.Keys == IntentNames(a)
    && d[ActionIdField] == Text(row.leaseId + ":" + Decimal(row.epoch) + ":" + Decimal(number))
    && d[ServerActionIdField] == Text(a.id) && d[LeaseIdField] == Text(row.leaseId)
    && d[EpochField] == Int(row.epoch) && d[SequenceField] == Int(number) && d[ActionField] == Text(a.action)
    && (a.keyChord.Some? ==> d[KeyChordField] == Text(a.keyChord.value))
    && (a.text.Some? ==> d[TextField] == Text(a.text.value))
    && d[IntentAtField].Text? && py.rfc3339(d[IntentAtField].s)
  }

  /** The result repeats the intent and adds the retained status and a finite reading. */
  predicate ResultFields(a: ServerAction, intent: Doc, d: Doc) {
    && d.Keys == intent.Keys + {ResultField, DispatchedAtField}
    && (forall f <- intent :: f != ResultField && f != DispatchedAtField ==> d[f] == intent[f])
    && d[ResultField] == Text(if a.status == Some(Succeeded) then "SUCCEEDED" else "FAILED")
    && (d[DispatchedAtField].Int? || d[DispatchedAtField].Float?)
  }

  predicate PairFields(py: Python, row: Context, a: ServerAction, number: nat, intent: Loaded, outcome: Loaded) {
    && RowFields(row, a, number) && intent.Object? && outcome.Object?
    && IntentFields(py, row, a, number, intent.doc) && ResultFields(a, intent.doc, outcome.doc)
  }

  lemma {:induction false} IdentityValues(row: Context, a: ServerAction, number: nat)
    ensures var e := IdentityDoc(row, a, number);
            && e.Keys == {ActionIdField, ServerActionIdField, LeaseIdField, EpochField, SequenceField, ActionField}
            && e[ActionIdField] == Text(row.leaseId + ":" + Decimal(row.epoch) + ":" + Decimal(number))
            && e[ServerActionIdField] == Text(a.id) && e[LeaseIdField] == Text(row.leaseId)
            && e[EpochField] == Int(row.epoch) && e[SequenceField] == Int(number) && e[ActionField] == Text(a.action)
  {
  }

  lemma {:induction false} IntentKeys(row: Context, a: ServerAction, number: nat, stamp: string)
    ensures IntentDoc(row, a, number, stamp).Keys == IntentNames(a)
  {
    IdentityValues(row, a, number);
  }

  lemma {:induction false} IntentValues(row: Context, a: ServerAction, number: nat, stamp: string)
    ensures var e := IntentDoc(row, a, number, stamp);
            && e.Keys == IntentNames(a)
            && (forall f <- IdentityDoc(row, a, number) :: e[f] == IdentityDoc(row, a, number)[f])
            && (a.keyChord.Some? ==> e[KeyChordField] == Text(a.keyChord.value))
            && (a.text.Some? ==> e[TextField] == Text(a.text.value))
            && e[IntentAtField] == Text(stamp)
  {
    IdentityValues(row, a, number);
    IntentKeys(row, a, number, stamp);
  }

  lemma {:induction false} IntentDocHas(py: Python, row: Context, a: ServerAction, number: nat, stamp: string)
    requires py.rfc3339(stamp)
    ensures IntentFields(py, row, a, number, IntentDoc(row, a, number, stamp))
  {
    IdentityValues(row, a, number);
    IntentValues(row, a, number, stamp);
  }

  lemma {:induction false} IntentDocOnly(py: Python, row: Context, a: ServerAction, number: nat, d: Doc)
    requires IntentFields(py, row, a, number, d)
    ensures d == IntentDoc(row, a, number, d[IntentAtField].s)
  {
    var e := IntentDoc(row, a, number, d[IntentAtField].s);
    IdentityValues(row, a, number);
    IntentValues(row, a, number, d[IntentAtField].s);
    forall f | f in d
      ensures f in e && d[f] == e[f]
    {
      assert f in IntentNames(a);
    }
  }

  /** The intent is the one document that a clean run writes. */
  predicate IntentExact(py: Python, row: Context, a: ServerAction, number: nat, d: Doc) {
    && IntentAtField in d && d[IntentAtField].Text? && py.rfc3339(d[IntentAtField].s)
    && d == IntentDoc(row, a, number, d[IntentAtField].s)
  }

  lemma {:induction false} IntentIff(py: Python, row: Context, a: ServerAction, number: nat, d: Doc)
    ensures IntentFields(py, row, a, number, d) <==> IntentExact(py, row, a, number, d)
  {
    if IntentFields(py, row, a, number, d) {
      IntentDocOnly(py, row, a, number, d);
    } else if IntentExact(py, row, a, number, d) {
      IntentDocHas(py, row, a, number, d[IntentAtField].s);
    }
  }

  predicate ResultExact(a: ServerAction, intent: Doc, d: Doc) {
    && a.status.Some? && DispatchedAtField in d && (d[DispatchedAtField].Int? || d[DispatchedAtField].Float?)
    && d == ResultDoc(intent, a.status.value, d[DispatchedAtField])
  }

  predicate Unsettled(intent: Doc) {
    ResultField !in intent && DispatchedAtField !in intent
  }

  lemma {:induction false} ResultIff(a: ServerAction, intent: Doc, d: Doc)
    requires Unsettled(intent) && (a.status == Some(Succeeded) || a.status == Some(Failed))
    ensures ResultFields(a, intent, d) <==> ResultExact(a, intent, d)
  {
    if ResultFields(a, intent, d) {
      assert d == ResultDoc(intent, a.status.value, d[DispatchedAtField]);
    }
  }

  lemma {:induction false} IntentUnsettled(py: Python, row: Context, a: ServerAction, number: nat, d: Doc)
    requires IntentFields(py, row, a, number, d)
    ensures Unsettled(d)
  {
  }

  lemma {:induction false} CleanIff(py: Python, row: Context, a: ServerAction, number: nat, intent: Doc, outcome: Doc)
    ensures CleanPair(py, row, a, number, Object(intent), Object(outcome))
            <==> RowFields(row, a, number) && IntentExact(py, row, a, number, intent) && ResultExact(a, intent, outcome)
  {
  }

  /** With the row in order, the two exact documents are the two with the stated fields. */
  lemma {:induction false} ExactIff(py: Python, row: Context, a: ServerAction, number: nat, intent: Doc, outcome: Doc)
    requires a.status == Some(Succeeded) || a.status == Some(Failed)
    ensures IntentExact(py, row, a, number, intent) && ResultExact(a, intent, outcome)
            <==> IntentFields(py, row, a, number, intent) && ResultFields(a, intent, outcome)
  {
    IntentIff(py, row, a, number, intent);
    if IntentFields(py, row, a, number, intent) {
      IntentUnsettled(py, row, a, number, intent);
      ResultIff(a, intent, outcome);
    }
  }

  /** A pair is clean exactly when the row and both records have these fields. */
  lemma {:induction false} PairIff(py: Python, row: Context, a: ServerAction, number: nat, intent: Loaded,
                                   outcome: Loaded)
    ensures CleanPair(py, row, a, number, intent, outcome) <==> PairFields(py, row, a, number, intent, outcome)
  {
    if intent.Object? && outcome.Object? {
      CleanIff(py, row, a, number, intent.doc, outcome.doc);
      if RowFields(row, a, number) {
        ExactIff(py, row, a, number, intent.doc, outcome.doc);
      }
    }
  }

  /* ------------------------------------------------------------------ the whole payload */

  /** The reading of the `k`-th pair. */
  function ReadingOf(docs: seq<Loaded>, k: nat): real
    requires 2 * k + 1 < |docs|
  {
    match docs[2 * k + 1]
    case Array => -1.0
    case Object(d) =>
      if DispatchedAtField !in d then -1.0 else
        match d[DispatchedAtField]
        case Int(i) => i as real
        case Float(r) => r
        case Bool(b) => if b then 1.0 else 0.0
        case _ => -1.0
  }

  lemma {:induction false} ReadingIs(docs: seq<Loaded>, k: nat)
    requires 2 * k + 1 < |docs|
    ensures ReadingBefore(docs, k + 1) == ReadingOf(docs, k) && ReadingBefore(docs, 0) == -1.0
  {
  }

  /** No reading is below -1 or an earlier one. */
  predicate Rising(docs: seq<Loaded>, n: nat)
    requires 2 * n <= |docs|
  {
    && (forall k :: 0 <= k < n ==> -1.0 <= ReadingOf(docs, k))
    && forall j, k :: 0 <= j < k < n ==> ReadingOf(docs, j) <= ReadingOf(docs, k)
  }

  lemma {:induction false} RisingStep(docs: seq<Loaded>, n: nat)
    requires 2 * n <= |docs|
    ensures Rising(docs, n) <==> forall k :: 0 <= k < n ==> ReadingBefore(docs, k) <= ReadingBefore(docs, k + 1)
    decreases n
  {
    if n > 0 {
      RisingStep(docs, n - 1);
      ReadingIs(docs, n - 1);
      if n > 1 {
        ReadingIs(docs, n - 2);
      }
    }
  }

  /** What each line loads as. */
  predicate Loads(py: Python, lines: seq<string>, docs: seq<Loaded>) {
    |docs| == |lines| && forall k :: 0 <= k < |lines| ==> py.loads(lines[k]) == Some(docs[k])
  }

  predicate AllFields(py: Python, row: Context, actions: seq<ServerAction>, docs: seq<Loaded>)
    requires |docs| == 2 * |actions|
  {
    forall k :: 0 <= k < |actions| ==> PairFields(py, row, actions[k], k + 1, docs[2 * k], docs[2 * k + 1])
  }

  predicate Steps(docs: seq<Loaded>, n: nat)
    requires 2 * n <= |docs|
  {
    forall k :: 0 <= k < n ==> ReadingBefore(docs, k) <= ReadingBefore(docs, k + 1)
  }

  predicate Pairs(py: Python, row: Context, actions: seq<ServerAction>, docs: seq<Loaded>) {
    |docs| == 2 * |actions| && AllFields(py, row, actions, docs) && Rising(docs, |actions|)
  }

  lemma {:induction false} PairsHaveFields(py: Python, row: Context, actions: seq<ServerAction>, docs: seq<Loaded>)
    requires |docs| == 2 * |actions| && forall k :: 0 <= k < |actions| ==> PairOk(py, row, actions, docs, k)
    ensures AllFields(py, row, actions, docs) && Steps(docs, |actions|)
  {
    forall k | 0 <= k < |actions|
      ensures PairFields(py, row, actions[k], k + 1, docs[2 * k], docs[2 * k + 1])
    {
      assert PairOk(py, row, actions, docs, k);
      PairIff(py, row, actions[k], k + 1, docs[2 * k], docs[2 * k + 1]);
    }
    forall k | 0 <= k < |actions|
      ensures ReadingBefore(docs, k) <= ReadingBefore(docs, k + 1)
    {
      assert PairOk(py, row, actions, docs, k);
    }
  }

  lemma {:induction false} FieldsMakePairs(py: Python, row: Context, actions: seq<ServerAction>, docs: seq<Loaded>)
    requires |docs| == 2 * |actions| && AllFields(py, row, actions, docs) && Steps(docs, |actions|)
    ensures forall k :: 0 <= k < |actions| ==> PairOk(py, row, actions, docs, k)
  {
    forall k | 0 <= k < |actions|
      ensures PairOk(py, row, actions, docs, k)
    {
      PairIff(py, row, actions[k], k + 1, docs[2 * k], docs[2 * k + 1]);
    }
  }

  /** Pair by pair, cleanness and the order of readings come apart. */
  lemma {:induction false} PairsIff(py: Python, row: Context, actions: seq<ServerAction>, docs: seq<Loaded>)
    requires |docs| == 2 * |actions|
    ensures (forall k :: 0 <= k < |actions| ==> PairOk(py, row, actions, docs, k)) <==> Pairs(py, row, actions, docs)
  {
    RisingStep(docs, |actions|);
    if forall k :: 0 <= k < |actions| ==> PairOk(py, row, actions, docs, k) {
      PairsHaveFields(py, row, actions, docs);
    } else if Pairs(py, row, actions, docs) {
      FieldsMakePairs(py, row, actions, docs);
    }
  }

  lemma {:induction false} LoadsOnce(py: Python, lines: seq<string>, docs: seq<Loaded>)
    ensures Loads(py, lines, docs) <==> LoadAll(py, lines) == Some(docs)
  {
    LoadedIff(py, lines);
    if Loads(py, lines, docs) {
      assert forall k :: 0 <= k < |lines| ==> py.loads(lines[k]).Some?;
      assert LoadAll(py, lines).value == docs;
    }
  }

  /**
   * The validator accepts exactly: at most 32 MiB that end in a newline; two lines for every retained
   * action, in order, each a JSON object with these fields and no others; readings that never fall;
   * and a last action that is a successful STOP.
   */
  lemma {:induction false} JournalIff(py: Python, payload: string, actions: seq<ServerAction>, row: Context)
    ensures CleanJournal(py, payload, actions, row)
            <==> && 0 < |payload| <= 33554432 && payload[|payload| - 1] == '\n'
                 && (exists docs :: Loads(py, Splitlines(payload), docs) && Pairs(py, row, actions, docs))
                 && actions != [] && actions[|actions| - 1].action == "STOP"
                 && actions[|actions| - 1].status == Some(Succeeded)
  {
    var lines := Splitlines(payload);
    if LoadAll(py, lines).Some? {
      LoadsOnce(py, lines, LoadAll(py, lines).value);
      if |LoadAll(py, lines).value| == 2 * |actions| {
        PairsIff(py, row, actions, LoadAll(py, lines).value);
      }
    }
    forall docs | Loads(py, lines, docs)
      ensures LoadAll(py, lines) == Some(docs)
    {
      LoadsOnce(py, lines, docs);
    }
  }
}
