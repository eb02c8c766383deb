/**
 * Source paths: the canonical form, prefixes, and case folding.
 *
 * Text is a `string` of Unicode scalar values and bytes are a `string` of byte-valued characters.
 * What Python's Unicode tables decide is a parameter; `Lawful` is what the code relies on.
 */
module SourcePaths {
  import opened Basics

  type Bytes = string

  const MAX_PATH_BYTES: nat := 1024

  datatype Unicode = Unicode(foldChar: char -> string, encode: string -> Bytes, decode: Bytes -> Option<string>,
      nfc: string -> bool)

  /** Folding works character by character, never makes or unmakes a `/` or a `.`; decoding inverts encoding. */
  ghost predicate Lawful(u: Unicode) {
    && u.foldChar('/') == "/" && u.foldChar('.') == "."
    && (forall c :: u.foldChar(c) != "")
    && (forall c :: c != '/' ==> '/' !in u.foldChar(c))
    && (forall c :: c != '.' ==> '.' !in u.foldChar(c))
    && (forall t :: u.decode(u.encode(t)) == Some(t))
    && (forall b :: u.decode(b).Some? ==> u.encode(u.decode(b).value) == b)
  }

  /** `casefold`. */
  function Fold(u: Unicode, s: string): string {
    if s == "" then "" else u.foldChar(s[0]) + Fold(u, s[1..])
  }

  /** `s` up to its first `c`, which is `s` itself when there is none. */
  function Before(s: string, c: char): (head: string)
    ensures |head| <= |s| && head == s[..|head|] && c !in head
    ensures |head| < |s| ==> s[|head|] == c
  {
    if s == "" || s[0] == c then "" else
      var rest := Before(s[1..], c);
      [s[0]] + rest
  }

  /** `split`: the parts between occurrences of `c`. */
  function SplitOn(s: string, c: char): (parts: seq<string>)
    ensures |parts| >= 1
    decreases |s|
  {
    var head := Before(s, c);
    if |head| == |s| then [s] else [head] + SplitOn(s[|head| + 1..], c)
  }

  function Segments(s: string): seq<string> {
    SplitOn(s, '/')
  }

  lemma {:induction false} BeforeAt(head: string, c: char, rest: string)
    requires c !in head
    ensures Before(head + [c] + rest, c) == head
    decreases |head|
  {
    var s := head + [c] + rest;
    var h := Before(s, c);
    assert forall k :: 0 <= k < |head| ==> s[k] == head[k] && head[k] in head;
    assert s[|head|] == c;
    assert forall k :: 0 <= k < |h| ==> s[k] == h[k] && h[k] in h;
    assert |h| == |head|;
    assert s[..|head|] == head;
  }

  lemma {:induction false} BeforeNone(s: string, c: char)
    requires c !in s
    ensures Before(s, c) == s
  {
    var h := Before(s, c);
    assert forall k :: 0 <= k < |s| ==> s[k] in s;
    assert |h| == |s|;
  }

  predicate PlainChar(c: char) {
    c != '\\' && c != ':' && 32 <= c as int && c as int != 127
  }

  /** A part that neither vanishes, climbs, nor names Git's own directory. */
  predicate PlainPart(u: Unicode, part: string) {
    part != "" && part != "." && part != ".." && Fold(u, part) != ".git"
  }

  /** `_path`: a nonempty, bounded, relative, normalised name. */
  predicate PathOk(u: Unicode, name: string) {
    && name != "" && |u.encode(name)| <= MAX_PATH_BYTES
    && (forall part <- Segments(name) :: PlainPart(u, part))
    && (forall c <- name :: PlainChar(c))
    && u.nfc(name)
  }

  /** `_path` as the code checks it, character class by character class. */
  method CheckPath(u: Unicode, name: string) returns (ok: bool)
    ensures ok <==> PathOk(u, name)
  {
    if name == "" || |u.encode(name)| > MAX_PATH_BYTES || !u.nfc(name) {
      return false;
    }
    var i := 0;
    while i < |name|
      invariant 0 <= i <= |name|
      invariant forall k :: 0 <= k < i ==> PlainChar(name[k])
    {
      if !PlainChar(name[i]) {
        return false;
      }
      i := i + 1;
    }
    var parts := Segments(name);
    var k := 0;
    while k < |parts|
      invariant 0 <= k <= |parts|
      invariant forall j :: 0 <= j < k ==> PlainPart(u, parts[j])
    {
      if !PlainPart(u, parts[k]) {
        return false;
      }
      k := k + 1;
    }
    return true;
  }

  function Join(parts: seq<string>): string
    requires parts != []
  {
    if |parts| == 1 then parts[0] else parts[0] + "/" + Join(parts[1..])
  }

  lemma {:induction false} JoinSegments(s: string)
    ensures Join(Segments(s)) == s && forall part <- Segments(s) :: '/' !in part
    decreases |s|
  {
    var head := Before(s, '/');
    if |head| < |s| {
      var rest := s[|head| + 1..];
      JoinSegments(rest);
      assert Segments(s) == [head] + Segments(rest) && Segments(s)[1..] == Segments(rest);
      assert s == head + "/" + rest;
    } else {
      assert head == s;
    }
  }

  lemma {:induction false} SegmentsOfJoin(parts: seq<string>)
    requires parts != [] && forall part <- parts :: '/' !in part
    ensures Segments(Join(parts)) == parts
    decreases |parts|
  {
    if |parts| == 1 {
      BeforeNone(parts[0], '/');
    } else {
      SegmentsOfJoin(parts[1..]);
      BeforeAt(parts[0], '/', Join(parts[1..]));
      assert Join(parts) == parts[0] + ['/'] + Join(parts[1..]);
      assert Join(parts)[|parts[0]| + 1..] == Join(parts[1..]);
    }
  }

  /** A nonempty name that goes neither nowhere nor up, is not Git's directory, and has only plain characters. */
  predicate PartOk(u: Unicode, part: string) {
    && |part| > 0 && part != "." && part != ".." && Fold(u, part) != ".git"
    && forall c <- part :: c >= ' ' && c != '/' && c != '\\' && c != ':' && c != '\U{7F}'
  }

  /** The parts may be joined to a canonical name: each is in order, and the whole is short and normalised. */
  predicate PartsOk(u: Unicode, name: string, parts: seq<string>) {
    && parts != [] && name == Join(parts) && (forall part <- parts :: PartOk(u, part))
    && |u.encode(name)| <= 1024 && u.nfc(name)
  }

  predicate PlainText(s: string) {
    forall c <- s :: PlainChar(c)
  }

  lemma {:induction false} PlainJoin(parts: seq<string>)
    requires parts != []
    ensures PlainText(Join(parts)) <==> forall part <- parts :: PlainText(part)
    decreases |parts|
  {
    if |parts| > 1 {
      PlainJoin(parts[1..]);
      var rest := Join(parts[1..]);
      assert PlainChar('/') && parts == [parts[0]] + parts[1..];
      assert Join(parts) == parts[0] + (['/'] + rest);
      assert PlainText(Join(parts)) <==> PlainText(parts[0]) && PlainText(rest);
    }
  }

  /** A name is canonical exactly when it is good parts with a slash between any two. */
  lemma {:induction false} PathOkIff(u: Unicode, name: string)
    ensures PathOk(u, name) <==> exists parts :: PartsOk(u, name, parts)
  {
    var own := Segments(name);
    JoinSegments(name);
    PlainJoin(own);
    if PathOk(u, name) {
      assert PlainText(name);
      forall part | part in own
        ensures PartOk(u, part)
      {
        assert PlainText(part) && PlainPart(u, part);
      }
      assert PartsOk(u, name, own);
    }
    forall parts | PartsOk(u, name, parts)
      ensures PathOk(u, name)
    {
      SegmentsOfJoin(parts);
      assert own == parts && PartOk(u, parts[0]);
      forall part | part in parts
        ensures PlainText(part) && PlainPart(u, part)
      {
        assert PartOk(u, part);
      }
      assert PlainText(name);
    }
  }

  /** `s[..k]` is the path itself or one of the directories above it. */
  predicate Cut(s: string, k: nat) {
    k == |s| || (0 < k < |s| && s[k] == '/')
  }

  predicate Above(dir: string, path: string) {
    |dir| < |path| && Cut(path, |dir|) && dir == path[..|dir|]
  }

  /* ------------------------------------------------------------------ folding keeps the shape of paths */

  lemma {:induction false} FoldAppend(u: Unicode, a: string, b: string)
    ensures Fold(u, a + b) == Fold(u, a) + Fold(u, b)
    decreases |a|
  {
    if a == "" {
      assert a + b == b;
    } else {
      FoldAppend(u, a[1..], b);
      assert (a + b)[1..] == a[1..] + b;
    }
  }

  lemma {:induction false} FoldSlash(u: Unicode, s: string)
    requires Lawful(u)
    ensures ('/' in Fold(u, s)) == ('/' in s)
    ensures |Fold(u, s)| >= |s|
    decreases |s|
  {
    if s != "" {
      FoldSlash(u, s[1..]);
      assert s == [s[0]] + s[1..];
    }
  }

  /** Every cut of a folded path is the fold of a cut of the path. */
  lemma {:induction false} CutOfFold(u: Unicode, s: string, k: nat) returns (j: nat)
    requires Lawful(u) && k <= |Fold(u, s)| && Cut(Fold(u, s), k)
    ensures j <= |s| && Cut(s, j) && Fold(u, s[..j]) == Fold(u, s)[..k] && (k < |Fold(u, s)| ==> j < |s|)
  {
    if k == |Fold(u, s)| {
      assert s[..|s|] == s && Fold(u, s)[..k] == Fold(u, s);
      return |s|;
    }
    j := SlashOfFold(u, s, k);
  }

  /** Every slash of a folded text comes from a slash. */
  lemma {:induction false} SlashOfFold(u: Unicode, s: string, k: nat) returns (j: nat)
    requires Lawful(u) && k < |Fold(u, s)| && Fold(u, s)[k] == '/'
    ensures j < |s| && s[j] == '/' && Fold(u, s[..j]) == Fold(u, s)[..k]
    decreases |s|
  {
    var head := u.foldChar(s[0]);
    if k < |head| {
      assert s[..0] == "" && Fold(u, s)[..0] == "";
      return 0;
    }
    var i := SlashOfFold(u, s[1..], k - |head|);
    j := i + 1;
    assert s[..j] == [s[0]] + s[1..][..i];
    FoldAppend(u, [s[0]], s[1..][..i]);
    assert [s[0]][1..] == "";
    assert Fold(u, [s[0]]) == head;
    assert Fold(u, s)[..k] == head + Fold(u, s[1..])[..k - |head|];
  }

  lemma {:induction false} FoldOfCut(u: Unicode, s: string, j: nat)
    requires Lawful(u) && j < |s| && Cut(s, j)
    ensures |Fold(u, s[..j])| < |Fold(u, s)| && Cut(Fold(u, s), |Fold(u, s[..j])|)
            && Fold(u, s[..j]) == Fold(u, s)[..|Fold(u, s[..j])|]
  {
    assert s == s[..j] + (['/'] + s[j + 1..]);
    FoldAppend(u, s[..j], ['/'] + s[j + 1..]);
    FoldAppend(u, ['/'], s[j + 1..]);
    assert ['/'][1..] == "";
    assert Fold(u, ['/']) == "/" + "";
    FoldSlash(u, s[..j]);
  }
}
