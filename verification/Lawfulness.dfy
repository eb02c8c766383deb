/**
 * The laws that the other modules assume of what they are given can be met: for each there is one
 * simple instance. Every text is spelled as numbers, so that nothing but the separators is a separator.
 */
module Lawfulness {
  import opened Basics
  import opened Supervision
  import opened JournalFile
  import JournalValidator
  import A = RunnerAgreement
  import Bundle
  import C = Completion
  import GitFlatten
  import Snapshot
  import SnapshotArchive
  import SourcePaths

  /* ------------------------------------------------------------------ spelling */

  /** Each character by its number. */
  function Spell(s: string): string {
    if s == "" then "" else Decimal(s[0] as nat) + "." + Spell(s[1..])
  }

  predicate Spelled(s: string) {
    forall c <- s :: IsDigit(c) || c == '.'
  }

  lemma {:induction false} FirstSplitUnique(a: string, x: string, b: string, y: string, c: char)
    requires c !in a && c !in b && a + [c] + x == b + [c] + y
    ensures a == b && x == y
  {
    var s := a + [c] + x;
    assert s[|a|] == c && s[|b|] == c;
    assert forall k | 0 <= k < |a| :: s[k] == a[k] && s[k] != c;
    assert forall k | 0 <= k < |b| :: s[k] == b[k] && s[k] != c;
    assert a == s[..|a|] && b == s[..|b|];
    assert x == s[|a| + 1..] && y == s[|b| + 1..];
  }

  lemma {:induction false} SpellsOnly(s: string)
    ensures Spelled(Spell(s))
    decreases |s|
  {
    if s != "" {
      DecimalRoundTrip(s[0] as nat);
      SpellsOnly(s[1..]);
    }
  }

  lemma {:induction false} DotNotInDecimal(n: nat)
    ensures '.' !in Decimal(n) && Spelled(Decimal(n))
  {
    DecimalRoundTrip(n);
  }

  lemma {:induction false} SpellInjective(s: string, t: string)
    requires Spell(s) == Spell(t)
    ensures s == t
    decreases |s|
  {
    if s != "" && t != "" {
      var m, n := s[0] as nat, t[0] as nat;
      DotNotInDecimal(m);
      DotNotInDecimal(n);
      FirstSplitUnique(Decimal(m), Spell(s[1..]), Decimal(n), Spell(t[1..]), '.');
      DecimalRoundTrip(m);
      DecimalRoundTrip(n);
      SpellInjective(s[1..], t[1..]);
      assert s == [s[0]] + s[1..] && t == [t[0]] + t[1..];
    }
  }

  /** Spelled fields, each ended by a semicolon. */
  function Record(fields: seq<string>): string {
    if fields == [] then "" else fields[0] + ";" + Record(fields[1..])
  }

  predicate AllSpelled(fields: seq<string>) {
    forall f <- fields :: Spelled(f)
  }

  predicate Recorded(s: string) {
    forall c <- s :: IsDigit(c) || c == '.' || c == ';'
  }

  lemma {:induction false} RecordsOnly(fields: seq<string>)
    requires AllSpelled(fields)
    ensures Recorded(Record(fields))
    decreases |fields|
  {
    if fields != [] {
      assert fields[0] in fields && forall f <- fields[1..] :: f in fields;
      RecordsOnly(fields[1..]);
    }
  }

  lemma {:induction false} RecordInjective(a: seq<string>, b: seq<string>)
    requires AllSpelled(a) && AllSpelled(b) && Record(a) == Record(b)
    ensures a == b
    decreases |a|
  {
    if a != [] && b != [] {
      assert a[0] in a && b[0] in b && (forall f <- a[1..] :: f in a) && forall f <- b[1..] :: f in b;
      FirstSplitUnique(a[0], Record(a[1..]), b[0], Record(b[1..]), ';');
      RecordInjective(a[1..], b[1..]);
      assert a == [a[0]] + a[1..] && b == [b[0]] + b[1..];
    }
  }

  /* ------------------------------------------------------------------ a journal codec */

  function OptionalText(o: Option<string>): string {
    if o.Some? then "." + Spell(o.value) else ""
  }

  function ActionField(a: Action): string {
    match a
    case Next => "0"
    case Previous => "1"
    case Activate => "2"
    case TypeText => "3"
    case KeyChord => "4"
    case ReadCurrent => "5"
    case WaitForReaderIdle => "6"
    case Stop => "7"
    case Other(text) => "." + Spell(text)
  }

  /** The readings that this codec can write: the natural numbers. */
  predicate Whole(t: real) {
    0.0 <= t && t.Floor as real == t
  }

  function ReadingField(o: Option<real>): string {
    if o.None? then "" else
      var floor := o.value.Floor;
      if floor >= 0 then Decimal(floor) else "."
  }

  function OutcomeFields(e: Entry): seq<string> {
    [ReadingField(e.dispatchedAt),
     match e.result
     case None => ""
     case Some(Succeeded) => "0"
     case Some(Failed) => "1"
     case Some(Ambiguous) => "2",
     match e.ambiguity
     case None => ""
     case Some(ActionResultNeverArrived) => "0"
     case Some(ClockDiscontinuity) => "1"]
  }

  function NameFields(e: Entry): seq<string> {
    [Spell(e.actionId), OptionalText(e.serverActionId), Spell(e.leaseId), Decimal(e.epoch), Decimal(e.sequence)]
  }

  function WorkFields(e: Entry): seq<string> {
    [ActionField(e.action), OptionalText(e.keyChord), OptionalText(e.text), Spell(e.intentAtUtc)]
  }

  function Body(e: Entry): string {
    Record(NameFields(e) + WorkFields(e) + OutcomeFields(e)) + "}"
  }

  function Encode(e: Entry): string {
    "{" + Body(e)
  }

  predicate CanWrite(e: Entry) {
    e.dispatchedAt.Some? ==> Whole(e.dispatchedAt.value)
  }

  lemma {:induction false} OptionalInjective(a: Option<string>, b: Option<string>)
    requires OptionalText(a) == OptionalText(b)
    ensures a == b
  {
    if a.Some? && b.Some? {
      assert ("." + Spell(a.value))[1..] == Spell(a.value) && ("." + Spell(b.value))[1..] == Spell(b.value);
      SpellInjective(a.value, b.value);
    }
  }

  lemma {:induction false} ActionInjective(a: Action, b: Action)
    requires ActionField(a) == ActionField(b)
    ensures a == b
  {
    assert forall text :: ("." + Spell(text))[0] == '.';
    if a.Other? && b.Other? {
      assert ("." + Spell(a.text))[1..] == Spell(a.text) && ("." + Spell(b.text))[1..] == Spell(b.text);
      SpellInjective(a.text, b.text);
    }
  }

  lemma {:induction false} ReadingInjective(a: Option<real>, b: Option<real>)
    requires ReadingField(a) == ReadingField(b)
    requires (a.Some? ==> Whole(a.value)) && (b.Some? ==> Whole(b.value))
    ensures a == b
  {
    if a.Some? {
      DecimalRoundTrip(a.value.Floor);
    }
    if b.Some? {
      DecimalRoundTrip(b.value.Floor);
    }
  }

  lemma {:induction false} FieldsSpelled(e: Entry)
    ensures AllSpelled(NameFields(e)) && AllSpelled(WorkFields(e)) && AllSpelled(OutcomeFields(e))
  {
    forall s: string
      ensures Spelled(Spell(s)) && Spelled("." + Spell(s))
    {
      SpellsOnly(s);
    }
    forall n: nat
      ensures Spelled(Decimal(n))
    {
      DotNotInDecimal(n);
    }
  }

  lemma {:induction false} NamesInjective(a: Entry, b: Entry)
    requires NameFields(a) == NameFields(b)
    ensures a.actionId == b.actionId && a.serverActionId == b.serverActionId && a.leaseId == b.leaseId
    ensures a.epoch == b.epoch && a.sequence == b.sequence
  {
    var x, y := NameFields(a), NameFields(b);
    assert x[0] == y[0] && x[1] == y[1] && x[2] == y[2] && x[3] == y[3] && x[4] == y[4];
    SpellInjective(a.actionId, b.actionId);
    OptionalInjective(a.serverActionId, b.serverActionId);
    SpellInjective(a.leaseId, b.leaseId);
    DecimalInjective(a.epoch, b.epoch);
    DecimalInjective(a.sequence, b.sequence);
  }

  lemma {:induction false} WorkInjective(a: Entry, b: Entry)
    requires WorkFields(a) == WorkFields(b)
    ensures a.action == b.action && a.keyChord == b.keyChord && a.text == b.text && a.intentAtUtc == b.intentAtUtc
  {
    var x, y := WorkFields(a), WorkFields(b);
    assert x[0] == y[0] && x[1] == y[1] && x[2] == y[2] && x[3] == y[3];
    ActionInjective(a.action, b.action);
    OptionalInjective(a.keyChord, b.keyChord);
    OptionalInjective(a.text, b.text);
    SpellInjective(a.intentAtUtc, b.intentAtUtc);
  }

  lemma {:induction false} OutcomeInjective(a: Entry, b: Entry)
    requires OutcomeFields(a) == OutcomeFields(b) && CanWrite(a) && CanWrite(b)
    ensures a.dispatchedAt == b.dispatchedAt && a.result == b.result && a.ambiguity == b.ambiguity
  {
    var x, y := OutcomeFields(a), OutcomeFields(b);
    assert x[0] == y[0] && x[1] == y[1] && x[2] == y[2];
    ReadingInjective(a.dispatchedAt, b.dispatchedAt);
  }

  lemma {:induction false} BodyInjective(a: Entry, b: Entry)
    requires Body(a) == Body(b) && CanWrite(a) && CanWrite(b)
    ensures a == b
  {
    var x, y := NameFields(a) + WorkFields(a) + OutcomeFields(a), NameFields(b) + WorkFields(b) + OutcomeFields(b);
    FieldsSpelled(a);
    FieldsSpelled(b);
    assert Body(a)[..|Body(a)| - 1] == Record(x) && Body(b)[..|Body(b)| - 1] == Record(y);
    RecordInjective(x, y);
    assert x[..5] == NameFields(a) && x[5..9] == WorkFields(a) && x[9..] == OutcomeFields(a);
    assert y[..5] == NameFields(b) && y[5..9] == WorkFields(b) && y[9..] == OutcomeFields(b);
    NamesInjective(a, b);
    WorkInjective(a, b);
    OutcomeInjective(a, b);
  }

  /** The braces stand at the two ends only. */
  lemma {:induction false} BodyShape(e: Entry)
    ensures |Body(e)| > 0 && Recorded(Body(e)[..|Body(e)| - 1]) && Body(e)[|Body(e)| - 1] == '}'
    ensures '{' !in Body(e)
    ensures forall c <- Encode(e) :: c != ' ' && c != '\n' && c != '\r' && c != '\t'
  {
    var fields := NameFields(e) + WorkFields(e) + OutcomeFields(e);
    FieldsSpelled(e);
    RecordsOnly(fields);
    assert Body(e)[..|Body(e)| - 1] == Record(fields);
    assert forall c <- Body(e) :: c in Record(fields) || c == '}';
  }

  /** A record is found from its opening brace, whatever stands in front. */
  lemma {:induction false} FoundFromBrace(t: string, a: Entry, u: string, b: Entry)
    requires t + Encode(a) == u + Encode(b)
    ensures t == u && Body(a) == Body(b)
  {
    BodyShape(a);
    BodyShape(b);
    assert t + Encode(a) == t + ['{'] + Body(a) && u + Encode(b) == u + ['{'] + Body(b);
    LastSplitUnique(t, Body(a), u, Body(b), '{');
  }

  /** `s` is the record of `e` behind white space. */
  predicate Writes(s: string, t: string, e: Entry) {
    Blank(t) && CanWrite(e) && s == t + Encode(e)
  }

  ghost function Decode(s: string): Option<Entry> {
    if exists t, e :: Writes(s, t, e) then
      var t, e :| Writes(s, t, e);
      Some(e)
    else None
  }

  lemma {:induction false} DecodeAt(t: string, e: Entry)
    requires CanWrite(e) || !Blank(t)
    ensures Decode(t + Encode(e)) == if Blank(t) then Some(e) else None
  {
    var s := t + Encode(e);
    if Blank(t) {
      assert Writes(s, t, e);
    }
    forall u, x | Writes(s, u, x)
      ensures Blank(t) && x == e
    {
      FoundFromBrace(t, e, u, x);
      BodyInjective(e, x);
    }
  }

  lemma {:induction false} DecodeTorn(e: Entry, k: nat)
    requires k < |Encode(e)|
    ensures Decode(Encode(e)[..k]) == None
  {
    forall u, x
      ensures !Writes(Encode(e)[..k], u, x)
    {
      NoBraceInside(e, k, u, x);
    }
  }

  lemma {:induction false} NoBraceInside(e: Entry, k: nat, u: string, x: Entry)
    requires k < |Encode(e)|
    ensures Encode(e)[..k] != u + Encode(x)
  {
    BodyShape(e);
    BodyShape(x);
    var s, t := Encode(e)[..k], u + Encode(x);
    assert t[|t| - 1] == Encode(x)[|Encode(x)| - 1] == Body(x)[|Body(x)| - 1] == '}';
    if k > 1 {
      assert s[k - 1] == Body(e)[k - 2] == Body(e)[..|Body(e)| - 1][k - 2];
      assert s[k - 1] in Body(e)[..|Body(e)| - 1];
    }
  }

  ghost function SomeCodec(): Codec {
    Codec(e => Encode(e), s => Decode(s), t => Whole(t))
  }

  /** A codec with all the laws of `JournalFile.Lawful`. */
  lemma {:induction false} CodecExists()
    ensures Lawful(SomeCodec()) && SomeCodec().finite(1.0)
  {
    var c := SomeCodec();
    forall e
      ensures c.encode(e) != "" && c.encode(e)[0] == '{' && LF !in c.encode(e)
    {
      BodyShape(e);
    }
    forall e | Writable(c, e)
      ensures c.decode(c.encode(e)) == Some(e)
    {
      assert "" + Encode(e) == Encode(e);
      DecodeAt("", e);
    }
    forall e, k | Writable(c, e) && 0 <= k < |c.encode(e)|
      ensures c.decode(c.encode(e)[..k]) == None
    {
      DecodeTorn(e, k);
    }
    forall t, e | Blank(t) && Writable(c, e)
      ensures c.decode(t + c.encode(e)) == Some(e)
    {
      DecodeAt(t, e);
    }
    forall t, e | !Blank(t) && LF !in t
      ensures c.decode(t + c.encode(e)) == None
    {
      DecodeAt(t, e);
    }
  }

  /* ------------------------------------------------------------------ a wire */

  predicate Prefixes(s: string, p: string, e: Entry) {
    A.Skips(p) && CanWrite(e) && s == p + Encode(e)
  }

  function NameOf(a: Action): string {
    if a.Stop? then "STOP" else ActionField(a)
  }

  /** The wire without its `loads`: what the record of an entry is. */
  ghost function BareWire(): A.Wire {
    A.Wire(SomeCodec(), JournalValidator.Python((s: string) => None, (s: string) => true), a => NameOf(a),
           (t: real) => JournalValidator.Float(t))
  }

  ghost function Loads(s: string): Option<JournalValidator.Loaded> {
    if exists p, e :: Prefixes(s, p, e) then
      var p, e :| Prefixes(s, p, e);
      Some(JournalValidator.Object(A.EntryDoc(BareWire(), e)))
    else None
  }

  ghost function SomeWire(): A.Wire {
    BareWire().(py := JournalValidator.Python(s => Loads(s), (s: string) => true))
  }

  lemma {:induction false} LoadsAt(p: string, e: Entry)
    requires CanWrite(e) || !A.Skips(p)
    ensures Loads(p + Encode(e)) == if A.Skips(p) then Some(JournalValidator.Object(A.EntryDoc(SomeWire(), e)))
                else None
  {
    var s := p + Encode(e);
    if A.Skips(p) {
      assert Prefixes(s, p, e);
    }
    forall q, x | Prefixes(s, q, x)
      ensures A.Skips(p) && x == e
    {
      FoundFromBrace(p, e, q, x);
      BodyInjective(e, x);
    }
    assert A.EntryDoc(SomeWire(), e) == A.EntryDoc(BareWire(), e);
  }

  /** A producer and a validator that agree. */
  lemma {:induction false} WireExists()
    ensures A.Agreeing(SomeWire()) && SomeWire().codec.finite(10.0) && SomeWire().codec.finite(2.0)
  {
    var w := SomeWire();
    CodecExists();
    forall e
      ensures A.Unbroken(w.codec.encode(e))
    {
      BodyShape(e);
    }
    forall e | Writable(w.codec, e)
      ensures w.py.loads(w.codec.encode(e)) == Some(JournalValidator.Object(A.EntryDoc(w, e)))
    {
      assert "" + Encode(e) == Encode(e);
      LoadsAt("", e);
    }
    forall p, e | A.Skips(p) && Writable(w.codec, e)
      ensures w.py.loads(p + w.codec.encode(e)) == Some(JournalValidator.Object(A.EntryDoc(w, e)))
    {
      LoadsAt(p, e);
    }
    forall p, e | !A.Skips(p) && A.Unbroken(p)
      ensures w.py.loads(p + w.codec.encode(e)) == None
    {
      LoadsAt(p, e);
    }
  }

  /* ------------------------------------------------------------------ digests, addresses, text */

  /** A completion environment whose one-item bundle is the journal. */
  ghost function SomeEnv(): C.Env {
    C.Env(b => Spell(b), "prefix", (kind: string, contentType: string) => true,
          (c: C.Context, j: C.Bytes) => Some([C.Item(C.JOURNAL, "runner", "application/x-ndjson", j)]),
          (c: C.Context) => 1,
          (c: C.Context, items: seq<C.Item>, ids: set<C.Identity>) => Some("verdict"))
  }

  lemma {:induction false} EnvExists()
    ensures C.Lawful(SomeEnv())
  {
    var env := SomeEnv();
    forall b, c | env.hash(b) == env.hash(c)
      ensures b == c
    {
      SpellInjective(b, c);
    }
    forall b
      ensures '/' !in env.hash(b)
    {
      SpellsOnly(b);
    }
    forall c, j
      ensures C.BundleLaw(env, c, j, env.bundle(c, j).value)
    {
      var items := env.bundle(c, j).value;
      assert items[0].kind == C.JOURNAL && items[0].bytes == j;
    }
  }

  lemma {:induction false} AddressExists()
    ensures GitFlatten.CollisionFree((kind: string, content: string) => Spell(kind) + ";" + content)
  {
    forall k1, c1, k2, c2 | Spell(k1) + ";" + c1 == Spell(k2) + ";" + c2
      ensures k1 == k2 && c1 == c2
    {
      SpellsOnly(k1);
      SpellsOnly(k2);
      FirstSplitUnique(Spell(k1), c1, Spell(k2), c2, ';');
      SpellInjective(k1, k2);
    }
  }

  function TreeFields(es: seq<SnapshotArchive.TreeEntry>): seq<string> {
    if es == [] then [] else [Spell(es[0].path), Spell(es[0].sha256), Decimal(es[0].size)] + TreeFields(es[1..])
  }

  lemma {:induction false} TreeFieldsSpelled(es: seq<SnapshotArchive.TreeEntry>)
    ensures AllSpelled(TreeFields(es)) && |TreeFields(es)| == 3 * |es|
    decreases |es|
  {
    if es != [] {
      SpellsOnly(es[0].path);
      SpellsOnly(es[0].sha256);
      DotNotInDecimal(es[0].size);
      TreeFieldsSpelled(es[1..]);
    }
  }

  lemma {:induction false} TreeFieldsInjective(a: seq<SnapshotArchive.TreeEntry>, b: seq<SnapshotArchive.TreeEntry>)
    requires TreeFields(a) == TreeFields(b)
    ensures a == b
    decreases |a|
  {
    TreeFieldsSpelled(a);
    TreeFieldsSpelled(b);
    if a != [] {
      var x, y := TreeFields(a), TreeFields(b);
      assert x[0] == y[0] && x[1] == y[1] && x[2] == y[2] && x[3..] == TreeFields(a[1..])
             && y[3..] == TreeFields(b[1..]);
      SpellInjective(a[0].path, b[0].path);
      SpellInjective(a[0].sha256, b[0].sha256);
      DecimalInjective(a[0].size, b[0].size);
      TreeFieldsInjective(a[1..], b[1..]);
      assert a == [a[0]] + a[1..] && b == [b[0]] + b[1..];
    }
  }

  lemma {:induction false} HashingExists()
    ensures SnapshotArchive.CollisionFree(
              SnapshotArchive.Hashing(b => Spell(b), (es: seq<SnapshotArchive.TreeEntry>) => Record(TreeFields(es))))
  {
    forall a, b | Spell(a) == Spell(b)
      ensures a == b
    {
      SpellInjective(a, b);
    }
    forall a: seq<SnapshotArchive.TreeEntry>, b: seq<SnapshotArchive.TreeEntry>
      | Record(TreeFields(a)) == Record(TreeFields(b))
      ensures a == b
    {
      TreeFieldsSpelled(a);
      TreeFieldsSpelled(b);
      RecordInjective(TreeFields(a), TreeFields(b));
      TreeFieldsInjective(a, b);
    }
  }

  /* ------------------------------------------------------------------ a tar format */

  function FileFields(files: seq<Snapshot.SourceFile>): seq<string> {
    if files == [] then [] else
      [Spell(files[0].path), Decimal(files[0].mode), Spell(files[0].content)] + FileFields(files[1..])
  }

  lemma {:induction false} FileFieldsSpelled(files: seq<Snapshot.SourceFile>)
    ensures AllSpelled(FileFields(files)) && |FileFields(files)| == 3 * |files|
    decreases |files|
  {
    if files != [] {
      SpellsOnly(files[0].path);
      SpellsOnly(files[0].content);
      DotNotInDecimal(files[0].mode);
      FileFieldsSpelled(files[1..]);
    }
  }

  lemma {:induction false} FileFieldsInjective(a: seq<Snapshot.SourceFile>, b: seq<Snapshot.SourceFile>)
    requires FileFields(a) == FileFields(b)
    ensures a == b
    decreases |a|
  {
    FileFieldsSpelled(a);
    FileFieldsSpelled(b);
    if a != [] {
      var x, y := FileFields(a), FileFields(b);
      assert x[0] == y[0] && x[1] == y[1] && x[2] == y[2] && x[3..] == FileFields(a[1..])
             && y[3..] == FileFields(b[1..]);
      SpellInjective(a[0].path, b[0].path);
      SpellInjective(a[0].content, b[0].content);
      DecimalInjective(a[0].mode, b[0].mode);
      FileFieldsInjective(a[1..], b[1..]);
      assert a == [a[0]] + a[1..] && b == [b[0]] + b[1..];
    }
  }

  function PackFiles(files: seq<Snapshot.SourceFile>): string {
    Record(FileFields(files))
  }

  ghost function UnpackFiles(b: string): Option<seq<SnapshotArchive.Member>> {
    if files: seq<Snapshot.SourceFile> :| PackFiles(files) == b then Some(SnapshotArchive.Members(files)) else None
  }

  lemma {:induction false} PackInjective(a: seq<Snapshot.SourceFile>, b: seq<Snapshot.SourceFile>)
    requires PackFiles(a) == PackFiles(b)
    ensures a == b
  {
    FileFieldsSpelled(a);
    FileFieldsSpelled(b);
    RecordInjective(FileFields(a), FileFields(b));
    FileFieldsInjective(a, b);
  }

  lemma {:induction false} UnpacksFiles(files: seq<Snapshot.SourceFile>)
    ensures UnpackFiles(PackFiles(files)) == Some(SnapshotArchive.Members(files))
  {
    var b := PackFiles(files);
    var found: seq<Snapshot.SourceFile> :|
      PackFiles(found) == b && UnpackFiles(b) == Some(SnapshotArchive.Members(found));
    PackInjective(files, found);
  }

  lemma {:induction false} TarExists(u: SourcePaths.Unicode) returns (t: SnapshotArchive.Tar)
    ensures SnapshotArchive.Restores(u, t)
  {
    t := SnapshotArchive.Tar((ms: seq<SnapshotArchive.Member>) => PackFiles(SnapshotArchive.FilesOf(ms)),
                             (b: string) => UnpackFiles(b));
    forall files: seq<Snapshot.SourceFile> | Snapshot.SnapshotOk(u, files)
      ensures t.unpack(t.pack(SnapshotArchive.Members(files))) == Some(SnapshotArchive.Members(files))
    {
      SnapshotArchive.FilesOfMembers(files);
      UnpacksFiles(files);
    }
  }

  /* ------------------------------------------------------------------ chained digests */

  function IntText(i: int): string {
    if i >= 0 then Decimal(i) else "." + Decimal(-i)
  }

  function LinkFields(l: Bundle.Link): seq<string> {
    [IntText(l.sequence), Spell(l.eventType), Spell(l.sourceTime), Spell(l.payloadDigest), Spell(l.previousHash)]
  }

  lemma {:induction false} IntTextInjective(i: int, j: int)
    ensures Spelled(IntText(i)) && (IntText(i) == IntText(j) ==> i == j)
  {
    var m: nat, n: nat := if i >= 0 then i else -i, if j >= 0 then j else -j;
    DotNotInDecimal(m);
    DotNotInDecimal(n);
    DecimalInjective(m, n);
    assert ("." + Decimal(m))[1..] == Decimal(m) && ("." + Decimal(n))[1..] == Decimal(n);
    assert '.' in "." + Decimal(m) && '.' in "." + Decimal(n);
  }

  lemma {:induction false} LinkInjective(a: Bundle.Link, b: Bundle.Link)
    requires Record(LinkFields(a)) == Record(LinkFields(b))
    ensures a == b
  {
    forall s: string
      ensures Spelled(Spell(s))
    {
      SpellsOnly(s);
    }
    IntTextInjective(a.sequence, b.sequence);
    IntTextInjective(b.sequence, a.sequence);
    var x, y := LinkFields(a), LinkFields(b);
    RecordInjective(x, y);
    assert x[0] == y[0] && x[1] == y[1] && x[2] == y[2] && x[3] == y[3] && x[4] == y[4];
    SpellInjective(a.eventType, b.eventType);
    SpellInjective(a.sourceTime, b.sourceTime);
    SpellInjective(a.payloadDigest, b.payloadDigest);
    SpellInjective(a.previousHash, b.previousHash);
  }

  lemma {:induction false} DigestsExist()
    ensures exists d: Bundle.Digests :: Bundle.CollisionFree(d)
  {
    var d := Bundle.Digests("", (l: Bundle.Link) => Record(LinkFields(l)), (p: Bundle.Payload) => "", (s: string) => s);
    forall x: Bundle.Link, y: Bundle.Link | d.ofLink(x) == d.ofLink(y)
      ensures x == y
    {
      LinkInjective(x, y);
    }
    assert Bundle.CollisionFree(d);
  }

  /** Plain text is its own encoding, and folds to itself. */
  lemma {:induction false} UnicodeExists()
    ensures SourcePaths.Lawful(SourcePaths.Unicode((c: char) => [c], (t: string) => t, (b: string) => Some(b),
                (t: string) => true))
  {
  }
}
