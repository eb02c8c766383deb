/** What the recovery takes for an answer: the bytes of a frame, of a commit's first line and of an identifier. */
module GitObjects {
  import opened Basics
  import opened SourcePaths
  import opened GitFraming
  import opened GitWalk
  import opened Snapshot
  import opened SnapshotArchive
  import Process

  /* ------------------------------------------------------------------ one object */

  predicate Digit(c: char) {
    c in "0123456789"
  }

  /** A frame's header names the object in fewer than 128 bytes, and its size in at most nine digits. */
  predicate Heads(w: Wanted, text: string) {
    && (forall c <- w.oid + w.kind :: c != ' ' && c != '\n')
    && |w.oid| + 1 + |w.kind| + 1 + |text| < 128
    && 1 <= |text| <= 9 && forall c <- text :: Digit(c)
  }

  lemma {:induction false} DigitIs(c: char)
    ensures Digit(c) <==> IsDigit(c)
  {
    if IsDigit(c) {
      var d := c as int - '0' as int;
      assert "0123456789"[d] == c;
    }
  }

  lemma {:induction false} DigitsIff(text: string)
    ensures AllDigits(text) <==> forall c <- text :: Digit(c)
  {
    forall c | c in text
      ensures Digit(c) <==> IsDigit(c)
    {
      DigitIs(c);
    }
  }

  lemma {:induction false} PlainIff(oid: string, kind: string)
    ensures PlainField(oid) && PlainField(kind) <==> forall c <- oid + kind :: c != ' ' && c != '\n'
  {
    assert forall c :: c in oid + kind <==> c in oid || c in kind;
  }

  /** A good frame: such a header, that many bytes, no more than the kind may have, of the wanted address. */
  lemma {:induction false} FrameIff(address: Address, w: Wanted, text: string, content: Bytes)
    ensures FrameOk(address, w, text, content)
            <==> && Heads(w, text) && AllDigits(text) && DecimalValue(text) == |content|
                 && |content| <= (if w.kind == "blob" then 4194304 else 1048576)
                 && address(w.kind, content) == w.oid
    ensures Frame(w, text, content) == w.oid + " " + w.kind + " " + text + "\n" + content + "\n"
  {
    DigitsIff(text);
    PlainIff(w.oid, w.kind);
  }

  /* ------------------------------------------------------------------ one process */

  /** The input asks for the wanted objects, one address a line. */
  lemma {:induction false} InputNames(wanted: seq<Wanted>)
    requires forall k :: 0 <= k < |wanted| ==> '\n' !in wanted[k].oid
    ensures var lines := SplitOn(InputOf(wanted), '\n');
            && |lines| == |wanted| + 1 && lines[|wanted|] == ""
            && forall k :: 0 <= k < |wanted| ==> lines[k] == wanted[k].oid
    decreases |wanted|
  {
    if wanted != [] {
      InputNames(wanted[1..]);
      SplitOnce(wanted[0].oid, '\n', InputOf(wanted[1..]));
    }
  }

  /** The next process ends by itself, with code 0 and within the bytes that are left, having printed `stdout`. */
  predicate Answered(git: Git, b: Budget, wanted: seq<Wanted>, n: nat, stdout: Bytes) {
    && b.consumed < 41943040 && b.calls < |git| && n < |git[b.calls]|
    && Process.Completes(InputOf(wanted), 41943040 - b.consumed, git[b.calls], n)
    && Process.ResultAt(git[b.calls], n).code == 0 && Process.ResultAt(git[b.calls], n).stdout == stdout
  }

  /** Objects are fetched exactly when the next process answers with their frames and nothing else. */
  lemma {:induction false} FetchedIff(address: Address, git: Git, b: Budget, wanted: seq<Wanted>, contents: seq<Bytes>)
    requires b.consumed <= MAX_ARCHIVE_BYTES
    ensures Fetch(address, git, b, wanted).contents == Some(contents)
            <==> exists n, stdout ::
                   Answered(git, b, wanted, n, stdout) && Encodes(address, stdout, wanted, contents)
  {
    if b.consumed < MAX_ARCHIVE_BYTES && b.calls < |git| {
      var input, limit, hs := InputOf(wanted), MAX_ARCHIVE_BYTES - b.consumed, git[b.calls];
      Process.DrainIff(input, limit, hs);
      var result := Process.Drain(input, limit, hs, 0, Process.Opened).result;
      if result.Some? {
        var n :| 0 <= n < |hs| && Process.Completes(input, limit, hs, n);
        assert result == Some(Process.ResultAt(hs, n));
        DecodeIff(address, result.value.stdout, wanted, contents);
        if result.value.code == 0 {
          assert Answered(git, b, wanted, n, result.value.stdout);
        }
      }
    }
  }

  /* ------------------------------------------------------------------ a commit's first line */

  predicate Identifier(text: string) {
    |text| == 40 && forall c <- text :: c in "0123456789abcdef"
  }

  lemma {:induction false} HexCharIs(c: char)
    ensures c in "0123456789abcdef" <==> IsDigit(c) || 'a' <= c <= 'f'
  {
    if IsDigit(c) {
      assert "0123456789abcdef"[c as int - '0' as int] == c;
    } else if 'a' <= c <= 'f' {
      assert "0123456789abcdef"[c as int - 'a' as int + 10] == c;
    }
  }

  lemma {:induction false} IdentifierIff(text: string)
    ensures HexText(text) <==> Identifier(text)
  {
    forall c | c in text
      ensures c in "0123456789abcdef" <==> IsDigit(c) || 'a' <= c <= 'f'
    {
      HexCharIs(c);
    }
  }

  /** A commit names a tree exactly when it begins with the line `tree ` and the tree's forty hexadecimal digits. */
  lemma {:induction false} CommitIff(commit: Bytes, tree: string)
    ensures TreeOfCommit(commit) == Some(tree)
            <==> && Identifier(tree) && |commit| >= 45 && commit[..45] == "tree " + tree
                 && (|commit| > 45 ==> commit[45] == '\n')
  {
    IdentifierIff(tree);
    var line := Before(commit, '\n');
    if |commit| >= 45 && commit[..45] == "tree " + tree && Identifier(tree) && (|commit| > 45 ==> commit[45] == '\n') {
      NoFeed(tree);
      var head := "tree " + tree;
      if |commit| > 45 {
        assert commit == head + ['\n'] + commit[46..];
        BeforeAt(head, '\n', commit[46..]);
      } else {
        assert commit == head;
        BeforeNone(head, '\n');
      }
      assert line == head && head[..5] == "tree " && head[5..] == tree;
    }
    if TreeOfCommit(commit) == Some(tree) {
      assert line[..5] == "tree " && line == line[..5] + line[5..];
    }
  }

  lemma {:induction false} NoFeed(tree: string)
    requires Identifier(tree)
    ensures '\n' !in "tree " + tree
  {
    HexCharIs('\n');
  }

  /* ------------------------------------------------------------------ an entry's identifier */

  function HexValue(c: char): int {
    if '0' <= c <= '9' then c as int - '0' as int
    else if 'a' <= c <= 'f' then c as int - 'a' as int + 10
    else -1
  }

  predicate ByteValued(b: Bytes) {
    forall k :: 0 <= k < |b| ==> b[k] as int < 256
  }

  /** Every byte is two lower-case hexadecimal digits, so different identifiers stay different. */
  lemma {:induction false} HexIff(b: Bytes, k: nat)
    requires ByteValued(b) && k < |b|
    ensures |Hex(b)| == 2 * |b|
    ensures HexValue(Hex(b)[2 * k]) >= 0 && HexValue(Hex(b)[2 * k + 1]) >= 0
    ensures 16 * HexValue(Hex(b)[2 * k]) + HexValue(Hex(b)[2 * k + 1]) == b[k] as int
    decreases |b|
  {
    HexLong(b);
    if k > 0 {
      HexIff(b[1..], k - 1);
    } else {
      HexByte(b[0] as nat);
    }
  }

  lemma {:induction false} HexLong(b: Bytes)
    ensures |Hex(b)| == 2 * |b|
  {
    if b != "" {
      HexLong(b[1..]);
    }
  }

  lemma {:induction false} HexByte(n: nat)
    requires n < 256
    ensures HexValue(HexDigit(n / 16 % 16)) == n / 16 && HexValue(HexDigit(n % 16)) == n % 16
  {
  }

  lemma {:induction false} HexInjective(a: Bytes, b: Bytes)
    requires ByteValued(a) && ByteValued(b)
    ensures Hex(a) == Hex(b) ==> a == b
  {
    HexLong(a);
    HexLong(b);
    if Hex(a) == Hex(b) {
      forall k | 0 <= k < |a|
        ensures a[k] == b[k]
      {
        HexIff(a, k);
        HexIff(b, k);
      }
    }
  }

  /* ------------------------------------------------------------------ the bound source */

  /**
   * Against the digest of any snapshot, a recovery is accepted exactly when its files are a snapshot
   * with the paths and contents of that one.
   */
  lemma {:induction false} BoundIff(u: Unicode, h: Hashing, r: Option<Recovered>, original: seq<SourceFile>)
    requires SnapshotOk(u, original) && CollisionFree(h)
    ensures Bound(u, h, r, TreeDigest(h, original))
            <==> r.Some? && SnapshotOk(u, r.value.files) && SameContents(r.value.files, original)
  {
    if r.Some? && SnapshotOk(u, r.value.files) {
      TreeDigestDetermines(u, h, r.value.files, original);
    }
  }
}
