/** Git's batch responses and tree objects as bytes, and the decoders that the source broker runs on them. */
module GitFraming {
  import opened Basics
  import opened SourcePaths
  import Snapshot

  const HEADER_BYTES: nat := 128
  const MAX_OBJECT_BYTES: nat := 1024 * 1024
  const MAX_SIZE_DIGITS: nat := 9
  const ID_BYTES: nat := 20

  datatype Wanted = Wanted(oid: string, kind: string)

  /** The content address: what the code computes over kind, decimal size, NUL and content. */
  type Address = (string, Bytes) -> string

  function Limit(kind: string): nat {
    if kind == "blob" then Snapshot.MAX_FILE_BYTES else MAX_OBJECT_BYTES
  }

  datatype Framed = Framed(content: Bytes, rest: Bytes)

  predicate SizeText(text: string) {
    text != "" && AllDigits(text) && |text| <= MAX_SIZE_DIGITS
  }

  /** The size text of a header that names the wanted object. */
  function ParseHeader(header: Bytes, w: Wanted): Option<string> {
    var fields := SplitOn(header, ' ');
    if |fields| != 3 || fields[0] != w.oid || fields[1] != w.kind || !SizeText(fields[2]) then None else Some(fields[2])
  }

  /** The content of `size` bytes and its newline, checked against the wanted address. */
  function ParseBody(address: Address, body: Bytes, size: nat, w: Wanted): Option<Framed> {
    if size > Limit(w.kind) || |body| < size + 1 || body[size] != '\n' || address(w.kind, body[..size]) != w.oid
    then None
    else Some(Framed(body[..size], body[size + 1..]))
  }

  /** One object of the response, and what follows it. */
  function ParseFrame(address: Address, payload: Bytes, w: Wanted): Option<Framed> {
    var header := Before(payload, '\n');
    if |header| == |payload| || |header| >= HEADER_BYTES then None else
      match ParseHeader(header, w)
      case None => None
      case Some(text) =>
        if AllDigits(text) then ParseBody(address, payload[|header| + 1..], DecimalValue(text), w) else None
  }

  /** The objects of a response that holds exactly the wanted ones, in order. */
  function Decode(address: Address, payload: Bytes, wanted: seq<Wanted>): Option<seq<Bytes>>
    decreases |wanted|
  {
    if wanted == [] then (if payload == "" then Some([]) else None) else
      match ParseFrame(address, payload, wanted[0])
      case None => None
      case Some(f) => Prepend([f.content], Decode(address, f.rest, wanted[1..]))
  }

  function Prepend(contents: seq<Bytes>, more: Option<seq<Bytes>>): Option<seq<Bytes>> {
    match more
    case None => None
    case Some(cs) => Some(contents + cs)
  }

  lemma {:induction false} PrependTwice(a: seq<Bytes>, b: seq<Bytes>, more: Option<seq<Bytes>>)
    ensures Prepend(a, Prepend(b, more)) == Prepend(a + b, more)
  {
    if more.Some? {
      assert a + (b + more.value) == (a + b) + more.value;
    }
  }

  /** One turn of the loop: the object framed at `offset`, and the offset after it. */
  method DecodeFrame(address: Address, payload: Bytes, offset: nat, w: Wanted)
    returns (content: Option<Bytes>, next: nat)
    requires offset <= |payload|
    ensures next <= |payload|
    ensures match ParseFrame(address, payload[offset..], w)
            case None => content == None
            case Some(f) => content == Some(f.content) && payload[next..] == f.rest
  {
    content, next := None, offset;
    var end := offset + |Before(payload[offset..], '\n')|;
    if end == |payload| || end - offset >= HEADER_BYTES {
      return;
    }
    assert payload[offset..end] == Before(payload[offset..], '\n');
    var fields := SplitOn(payload[offset..end], ' ');
    if |fields| != 3 || fields[0] != w.oid || fields[1] != w.kind || !SizeText(fields[2]) {
      return;
    }
    ghost var body := payload[offset..][end - offset + 1..];
    assert body == payload[end + 1..];
    content, next := DecodeBody(address, payload, end + 1, DecimalValue(fields[2]), w);
  }

  /** The content at `start`, and the offset after its newline. */
  method DecodeBody(address: Address, payload: Bytes, start: nat, size: nat, w: Wanted)
    returns (content: Option<Bytes>, next: nat)
    requires start <= |payload|
    ensures next <= |payload|
    ensures match ParseBody(address, payload[start..], size, w)
            case None => content == None
            case Some(f) => content == Some(f.content) && payload[next..] == f.rest
  {
    ghost var body := payload[start..];
    var after := start + size + 1;
    if size > Limit(w.kind) || |payload| < after || payload[after - 1] != '\n' {
      return None, start;
    }
    assert body[..size] == payload[start..start + size] && body[size + 1..] == payload[after..];
    if address(w.kind, payload[start..start + size]) != w.oid {
      return None, start;
    }
    return Some(payload[start..start + size]), after;
  }

  lemma {:induction false} PrependNothing(more: Option<seq<Bytes>>)
    ensures Prepend([], more) == more
  {
    if more.Some? {
      assert [] + more.value == more.value;
    }
  }

  /** What one frame contributes to the objects decoded so far. */
  lemma {:induction false} DecodeTurn(address: Address, contents: seq<Bytes>, payload: Bytes, wanted: seq<Wanted>)
    requires wanted != []
    ensures Prepend(contents, Decode(address, payload, wanted))
            == match ParseFrame(address, payload, wanted[0])
               case None => None
               case Some(f) => Prepend(contents + [f.content], Decode(address, f.rest, wanted[1..]))
  {
    var parsed := ParseFrame(address, payload, wanted[0]);
    if parsed.Some? {
      PrependTwice(contents, [parsed.value.content], Decode(address, parsed.value.rest, wanted[1..]));
    }
  }

  /** `_decode_batch`: one pass over the payload by offsets. */
  method DecodeBatch(address: Address, payload: Bytes, wanted: seq<Wanted>) returns (r: Option<seq<Bytes>>)
    ensures r == Decode(address, payload, wanted)
  {
    var contents: seq<Bytes>, offset := [], 0;
    var k := 0;
    PrependNothing(Decode(address, payload, wanted));
    assert payload[0..] == payload && wanted[0..] == wanted;
    while k < |wanted|
      invariant 0 <= k <= |wanted| && 0 <= offset <= |payload|
      invariant Decode(address, payload, wanted) == Prepend(contents, Decode(address, payload[offset..], wanted[k..]))
    {
      assert wanted[k..][1..] == wanted[k + 1..];
      DecodeTurn(address, contents, payload[offset..], wanted[k..]);
      var content;
      content, offset := DecodeFrame(address, payload, offset, wanted[k]);
      if content.None? {
        return None;
      }
      contents := contents + [content.value];
      k := k + 1;
    }
    if offset != |payload| {
      return None;
    }
    assert contents + [] == contents;
    return Some(contents);
  }

  /* ------------------------------------------------------------------ what is accepted */

  predicate PlainField(s: string) {
    ' ' !in s && '\n' !in s
  }

  function Header(w: Wanted, text: string): string {
    w.oid + [' '] + w.kind + [' '] + text
  }

  function Frame(w: Wanted, text: string, content: Bytes): Bytes {
    Header(w, text) + ['\n'] + content + ['\n']
  }

  /** `text` denotes the content's length, leading zeros allowed; the content has the wanted address. */
  predicate FrameOk(address: Address, w: Wanted, text: string, content: Bytes) {
    && PlainField(w.oid) && PlainField(w.kind) && |Header(w, text)| < HEADER_BYTES
    && SizeText(text) && DecimalValue(text) == |content| <= Limit(w.kind)
    && address(w.kind, content) == w.oid
  }

  /** `payload` is one good frame for each wanted object, in order, and nothing else. */
  ghost predicate Encodes(address: Address, payload: Bytes, wanted: seq<Wanted>, contents: seq<Bytes>)
    decreases |wanted|, 1
  {
    if wanted == [] then payload == "" && contents == [] else
      contents != [] && exists text, rest :: FirstFrame(address, payload, wanted, contents, text, rest)
  }

  lemma {:induction false} SplitOnce(head: string, c: char, rest: string)
    requires c !in head
    ensures SplitOn(head + [c] + rest, c) == [head] + SplitOn(rest, c)
  {
    BeforeAt(head, c, rest);
    assert (head + [c] + rest)[|head| + 1..] == rest;
  }

  lemma {:induction false} SplitThree(a: string, b: string, d: string, c: char)
    requires c !in a && c !in b && c !in d
    ensures SplitOn(a + [c] + b + [c] + d, c) == [a, b, d]
  {
    assert a + [c] + b + [c] + d == a + [c] + (b + [c] + d);
    SplitOnce(a, c, b + [c] + d);
    SplitOnce(b, c, d);
    BeforeNone(d, c);
  }

  lemma {:induction false} JoinOnce(s: string, c: char) returns (head: string, rest: string)
    requires |SplitOn(s, c)| > 1
    ensures c !in head && s == head + [c] + rest && SplitOn(s, c) == [head] + SplitOn(rest, c)
  {
    head := Before(s, c);
    rest := s[|head| + 1..];
  }

  lemma {:induction false} JoinLast(s: string, c: char)
    requires |SplitOn(s, c)| == 1
    ensures SplitOn(s, c) == [s] && c !in s
  {
    assert Before(s, c) == s;
  }

  /** A text that splits into three parts is those parts with two separators. */
  lemma {:induction false} JoinThree(s: string, c: char) returns (p0: string, p1: string, p2: string)
    requires |SplitOn(s, c)| == 3
    ensures SplitOn(s, c) == [p0, p1, p2] && s == p0 + [c] + p1 + [c] + p2 && c !in p0 && c !in p1 && c !in p2
  {
    var rest, last;
    p0, rest := JoinOnce(s, c);
    p1, last := JoinOnce(rest, c);
    JoinLast(last, c);
    p2 := last;
    assert s == p0 + [c] + (p1 + [c] + p2);
  }

  lemma {:induction false} DigitsPlain(text: string)
    requires AllDigits(text)
    ensures PlainField(text)
  {
    assert !IsDigit(' ') && !IsDigit('\n');
  }

  lemma {:induction false} HeaderParses(w: Wanted, text: string)
    requires PlainField(w.oid) && PlainField(w.kind) && SizeText(text)
    ensures ParseHeader(Header(w, text), w) == Some(text) && '\n' !in Header(w, text)
  {
    DigitsPlain(text);
    SplitThree(w.oid, w.kind, text, ' ');
  }

  lemma {:induction false} BodyParses(address: Address, w: Wanted, content: Bytes, rest: Bytes)
    requires |content| <= Limit(w.kind) && address(w.kind, content) == w.oid
    ensures ParseBody(address, content + ['\n'] + rest, |content|, w) == Some(Framed(content, rest))
  {
    var body := content + ['\n'] + rest;
    assert body[..|content|] == content && body[|content| + 1..] == rest;
  }

  lemma {:induction false} FrameParses(address: Address, w: Wanted, text: string, content: Bytes, rest: Bytes)
    requires FrameOk(address, w, text, content)
    ensures ParseFrame(address, Frame(w, text, content) + rest, w) == Some(Framed(content, rest))
  {
    var header, payload, body := Header(w, text), Frame(w, text, content) + rest, content + ['\n'] + rest;
    HeaderParses(w, text);
    BodyParses(address, w, content, rest);
    assert payload == header + ['\n'] + body;
    BeforeAt(header, '\n', body);
    assert payload[|header| + 1..] == body;
  }

  lemma {:induction false} ParsedHeader(header: Bytes, w: Wanted)
    requires ParseHeader(header, w).Some? && '\n' !in header
    ensures var text := ParseHeader(header, w).value;
            header == Header(w, text) && SizeText(text) && PlainField(w.oid) && PlainField(w.kind)
  {
    var p0, p1, p2 := JoinThree(header, ' ');
    assert forall c <- p0 :: c in header;
    assert forall c <- p1 :: c in header;
  }

  lemma {:induction false} ParsedBody(address: Address, body: Bytes, size: nat, w: Wanted)
    requires ParseBody(address, body, size, w).Some?
    ensures var f := ParseBody(address, body, size, w).value;
            body == f.content + ['\n'] + f.rest && |f.content| == size <= Limit(w.kind)
            && address(w.kind, f.content) == w.oid
  {
  }

  lemma {:induction false} ParsedFrame(address: Address, payload: Bytes, w: Wanted) returns (text: string)
    requires ParseFrame(address, payload, w).Some?
    ensures var f := ParseFrame(address, payload, w).value;
            FrameOk(address, w, text, f.content) && payload == Frame(w, text, f.content) + f.rest
  {
    var header := Before(payload, '\n');
    var body := payload[|header| + 1..];
    text := ParseHeader(header, w).value;
    ParsedHeader(header, w);
    ParsedBody(address, body, DecimalValue(text), w);
    assert payload == header + ['\n'] + body;
  }

  /** The first frame of an accepted payload. */
  ghost predicate FirstFrame(address: Address, payload: Bytes, wanted: seq<Wanted>, contents: seq<Bytes>, text: string,
                             rest: Bytes)
    requires wanted != [] && contents != []
    decreases |wanted|, 0
  {
    && FrameOk(address, wanted[0], text, contents[0])
    && payload == Frame(wanted[0], text, contents[0]) + rest
    && Encodes(address, rest, wanted[1..], contents[1..])
  }

  /**
   * The decoder accepts a payload exactly when it is one well-formed frame for each wanted object, in
   * order, with its exact address and nothing trailing, and then returns the objects. Sizes may
   * carry leading zeros and that is the only freedom.
   */
  lemma {:induction false} DecodeIff(address: Address, payload: Bytes, wanted: seq<Wanted>, contents: seq<Bytes>)
    ensures Decode(address, payload, wanted) == Some(contents) <==> Encodes(address, payload, wanted, contents)
  {
    if Decode(address, payload, wanted) == Some(contents) { Decoded(address, payload, wanted, contents); }
    if Encodes(address, payload, wanted, contents) { Encoded(address, payload, wanted, contents); }
  }

  lemma {:induction false} Decoded(address: Address, payload: Bytes, wanted: seq<Wanted>, contents: seq<Bytes>)
    requires Decode(address, payload, wanted) == Some(contents)
    ensures Encodes(address, payload, wanted, contents)
    decreases |wanted|
  {
    if wanted != [] {
      var f := ParseFrame(address, payload, wanted[0]).value;
      var text := ParsedFrame(address, payload, wanted[0]);
      assert contents[1..] == Decode(address, f.rest, wanted[1..]).value;
      Decoded(address, f.rest, wanted[1..], contents[1..]);
      assert FirstFrame(address, payload, wanted, contents, text, f.rest);
    }
  }

  lemma {:induction false} Encoded(address: Address, payload: Bytes, wanted: seq<Wanted>, contents: seq<Bytes>)
    requires Encodes(address, payload, wanted, contents)
    ensures Decode(address, payload, wanted) == Some(contents)
    decreases |wanted|, 1
  {
    if wanted != [] {
      var text, rest :| FirstFrame(address, payload, wanted, contents, text, rest);
      EncodedFrom(address, payload, wanted, contents, text, rest);
    }
  }

  lemma {:induction false} EncodedFrom(address: Address, payload: Bytes, wanted: seq<Wanted>, contents: seq<Bytes>,
                                       text: string, rest: Bytes)
    requires wanted != [] && contents != [] && FirstFrame(address, payload, wanted, contents, text, rest)
    ensures Decode(address, payload, wanted) == Some(contents)
    decreases |wanted|, 0
  {
    FrameParses(address, wanted[0], text, contents[0], rest);
    Encoded(address, rest, wanted[1..], contents[1..]);
    DecodeFirst(address, payload, wanted, Framed(contents[0], rest), contents[1..]);
    assert [contents[0]] + contents[1..] == contents;
  }

  lemma {:induction false} DecodeFirst(address: Address, payload: Bytes, wanted: seq<Wanted>, f: Framed,
                                       more: seq<Bytes>)
    requires wanted != [] && ParseFrame(address, payload, wanted[0]) == Some(f)
    requires Decode(address, f.rest, wanted[1..]) == Some(more)
    ensures Decode(address, payload, wanted) == Some([f.content] + more)
  {
  }

  /** What Git writes: every size in plain decimal. */
  function Encode(wanted: seq<Wanted>, contents: seq<Bytes>): Bytes
    requires |wanted| == |contents|
    decreases |wanted|
  {
    if wanted == [] then ""
    else Frame(wanted[0], Decimal(|contents[0]|), contents[0]) + Encode(wanted[1..], contents[1..])
  }

  predicate ObjectOk(address: Address, w: Wanted, content: Bytes) {
    PlainField(w.oid) && PlainField(w.kind) && |w.oid| + |w.kind| <= 100 && |content| <= Limit(w.kind)
    && address(w.kind, content) == w.oid
  }

  lemma {:induction false} DecimalShort(n: nat, digits: nat, bound: nat)
    requires n < bound && Power(digits) == bound && digits >= 1
    ensures |Decimal(n)| <= digits
    decreases n
  {
    if n >= 10 {
      DecimalShort(n / 10, digits - 1, Power(digits - 1));
    }
  }

  function Power(digits: nat): nat {
    if digits == 0 then 1 else 10 * Power(digits - 1)
  }

  lemma {:induction false} SizeShort(n: nat)
    requires n < 1000000000
    ensures AllDigits(Decimal(n)) && 1 <= |Decimal(n)| <= 9 && DecimalValue(Decimal(n)) == n
  {
    DecimalRoundTrip(n);
    assert Power(9) == 1000000000 by {
      assert Power(3) == 1000 && Power(6) == 1000000;
    }
    DecimalShort(n, 9, 1000000000);
  }

  /** Encoding and decoding a batch of objects of the right size and address gives the objects back. */
  lemma {:induction false} BatchRoundTrip(address: Address, wanted: seq<Wanted>, contents: seq<Bytes>)
    requires |wanted| == |contents| && forall k :: 0 <= k < |wanted| ==> ObjectOk(address, wanted[k], contents[k])
    ensures Decode(address, Encode(wanted, contents), wanted) == Some(contents)
    decreases |wanted|
  {
    if wanted != [] {
      var w, content := wanted[0], contents[0];
      SizeShort(|content|);
      FrameParses(address, w, Decimal(|content|), content, Encode(wanted[1..], contents[1..]));
      BatchRoundTrip(address, wanted[1..], contents[1..]);
      DecodeFirst(address, Encode(wanted, contents), wanted, Framed(content, Encode(wanted[1..], contents[1..])),
          contents[1..]);
      assert [content] + contents[1..] == contents;
    }
  }

  /* ------------------------------------------------------------------ tree objects */

  datatype RawEntry = RawEntry(mode: Bytes, name: Bytes, id: Bytes)

  datatype EntryParse = EntryParse(entry: RawEntry, rest: Bytes)

  /** One entry: up to NUL, the twenty bytes after it, and the first space in between. */
  function ParseEntry(tree: Bytes): Option<EntryParse> {
    var head := Before(tree, '\0');
    if |head| == |tree| || |head| + 1 + ID_BYTES > |tree| then None else
      var mode := Before(head, ' ');
      if |mode| == |head| then None
      else Some(EntryParse(RawEntry(mode, head[|mode| + 1..], tree[|head| + 1..|head| + 1 + ID_BYTES]),
          tree[|head| + 1 + ID_BYTES..]))
  }

  function ParseTree(tree: Bytes): Option<seq<RawEntry>>
    decreases |tree|
  {
    if tree == "" then Some([]) else
      match ParseEntry(tree)
      case None => None
      case Some(p) =>
        match ParseTree(p.rest)
        case None => None
        case Some(es) => Some([p.entry] + es)
  }

  function EncodeEntry(e: RawEntry): Bytes {
    e.mode + [' '] + e.name + ['\0'] + e.id
  }

  function EncodeTree(es: seq<RawEntry>): Bytes {
    if es == [] then "" else EncodeEntry(es[0]) + EncodeTree(es[1..])
  }

  /** Names may contain spaces; modes may not. */
  predicate EntryShaped(e: RawEntry) {
    ' ' !in e.mode && '\0' !in e.mode && '\0' !in e.name && |e.id| == ID_BYTES
  }

  lemma {:induction false} EntryParses(e: RawEntry, rest: Bytes)
    requires EntryShaped(e)
    ensures ParseEntry(EncodeEntry(e) + rest) == Some(EntryParse(e, rest))
  {
    var head := e.mode + [' '] + e.name;
    var tree := EncodeEntry(e) + rest;
    assert tree == head + ['\0'] + (e.id + rest);
    BeforeAt(head, '\0', e.id + rest);
    BeforeAt(e.mode, ' ', e.name);
    assert head[|e.mode| + 1..] == e.name;
    assert tree[|head| + 1..|head| + 1 + ID_BYTES] == e.id;
    assert tree[|head| + 1 + ID_BYTES..] == rest;
  }

  lemma {:induction false} ParsedEntry(tree: Bytes)
    requires ParseEntry(tree).Some?
    ensures var p := ParseEntry(tree).value; EntryShaped(p.entry) && tree == EncodeEntry(p.entry) + p.rest
  {
    var head := Before(tree, '\0');
    var mode := Before(head, ' ');
    var p := ParseEntry(tree).value;
    assert head == mode + [' '] + p.entry.name;
    assert tree == head + ['\0'] + p.entry.id + p.rest;
    assert forall c <- mode :: c in head;
    assert forall c <- p.entry.name :: c in head;
  }

  lemma {:induction false} TreeParses(es: seq<RawEntry>)
    requires AllShaped(es)
    ensures ParseTree(EncodeTree(es)) == Some(es)
    decreases |es|
  {
    if es != [] {
      var rest := EncodeTree(es[1..]);
      EntryParses(es[0], rest);
      TreeParses(es[1..]);
      ParseFirst(EncodeEntry(es[0]) + rest, EntryParse(es[0], rest), es[1..]);
      assert [es[0]] + es[1..] == es;
    }
  }

  predicate AllShaped(es: seq<RawEntry>) {
    forall e <- es :: EntryShaped(e)
  }

  lemma {:induction false} ParseFirst(tree: Bytes, p: EntryParse, more: seq<RawEntry>)
    requires tree != "" && ParseEntry(tree) == Some(p) && ParseTree(p.rest) == Some(more)
    ensures ParseTree(tree) == Some([p.entry] + more)
  {
  }

  lemma {:induction false} ParsedTree(tree: Bytes, es: seq<RawEntry>)
    requires ParseTree(tree) == Some(es)
    ensures AllShaped(es) && tree == EncodeTree(es)
    decreases |es|
  {
    if tree != "" {
      ParsedEntry(tree);
      var p := ParseEntry(tree).value;
      var more := ParseTree(p.rest).value;
      assert es == [p.entry] + more && es[1..] == more;
      ParsedTree(p.rest, more);
    }
  }

  /** The entry loop inverts the encoding `mode SP name NUL id`, whatever bytes the names hold. */
  lemma {:induction false} TreeIff(tree: Bytes, es: seq<RawEntry>)
    ensures ParseTree(tree) == Some(es) <==> AllShaped(es) && tree == EncodeTree(es)
  {
    if ParseTree(tree) == Some(es) {
      ParsedTree(tree, es);
    }
    if AllShaped(es) && tree == EncodeTree(es) {
      TreeParses(es);
    }
  }
}
