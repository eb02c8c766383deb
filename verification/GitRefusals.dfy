/** Exactly when the walk refuses what it is given: one level of trees, read entry by entry. */
module GitRefusals {
  import opened Basics
  import opened SourcePaths
  import opened GitFraming
  import opened Snapshot
  import opened GitWalk
  import opened GitFlatten

  /** An entry and the directory it was found in. */
  datatype Placed = Placed(prefix: string, entry: RawEntry)

  function PathOf(u: Unicode, p: Placed): string {
    p.prefix + NameOf(u, p.entry)
  }

  /** A canonical UTF-8 path of a supported kind. */
  predicate Fine(u: Unicode, p: Placed) {
    '/' !in p.entry.name && u.decode(p.entry.name).Some? && PathOk(u, PathOf(u, p)) && EntryMode(p.entry.mode)
  }

  predicate AllFine(u: Unicode, ps: seq<Placed>) {
    forall p <- ps :: Fine(u, p)
  }

  /** No path folds like one seen before, nor like another of these. */
  predicate Unseen(u: Unicode, seen: set<string>, ps: seq<Placed>) {
    && (forall k :: 0 <= k < |ps| ==> Fold(u, PathOf(u, ps[k])) !in seen)
    && forall i, j :: 0 <= i < j < |ps| ==> Fold(u, PathOf(u, ps[i])) != Fold(u, PathOf(u, ps[j]))
  }

  function EntriesOf(prefix: string, es: seq<RawEntry>): seq<Placed> {
    if es == [] then [] else [Placed(prefix, es[0])] + EntriesOf(prefix, es[1..])
  }

  /** All entries of the trees of a level, in the order they are read. */
  function LevelEntries(dirs: seq<Dir>, trees: seq<Bytes>): seq<Placed>
    requires |dirs| == |trees|
  {
    if dirs == [] then [] else
      (if ParseTree(trees[0]).Some? then EntriesOf(dirs[0].prefix, ParseTree(trees[0]).value) else [])
      + LevelEntries(dirs[1..], trees[1..])
  }

  function ScanPlaced(u: Unicode, scan: Scan, ps: seq<Placed>): Option<Scan>
    decreases |ps|
  {
    if ps == [] then Some(scan)
    else if EntryOk(u, scan, ps[0].prefix, ps[0].entry)
    then ScanPlaced(u, AddEntry(u, scan, ps[0].prefix, ps[0].entry), ps[1..])
    else None
  }

  predicate Acceptable(u: Unicode, scan: Scan, ps: seq<Placed>) {
    AllFine(u, ps) && Unseen(u, scan.seen, ps) && (ps == [] || scan.members + |ps| <= MAX_MEMBERS)
  }

  lemma {:induction false} UnseenCons(u: Unicode, seen: set<string>, p: Placed, ps: seq<Placed>)
    ensures Unseen(u, seen, [p] + ps)
            <==> Fold(u, PathOf(u, p)) !in seen && Unseen(u, seen + {Fold(u, PathOf(u, p))}, ps)
  {
    if Unseen(u, seen, [p] + ps) {
      UnseenRest(u, seen, p, ps);
    }
    if Fold(u, PathOf(u, p)) !in seen && Unseen(u, seen + {Fold(u, PathOf(u, p))}, ps) {
      UnseenLonger(u, seen, p, ps);
    }
  }

  lemma {:induction false} UnseenRest(u: Unicode, seen: set<string>, p: Placed, ps: seq<Placed>)
    requires Unseen(u, seen, [p] + ps)
    ensures Fold(u, PathOf(u, p)) !in seen && Unseen(u, seen + {Fold(u, PathOf(u, p))}, ps)
  {
    var all := [p] + ps;
    assert all[0] == p;
    forall k | 0 <= k < |ps|
      ensures Fold(u, PathOf(u, ps[k])) !in seen + {Fold(u, PathOf(u, p))}
    {
      assert all[k + 1] == ps[k];
    }
    forall i, j | 0 <= i < j < |ps|
      ensures Fold(u, PathOf(u, ps[i])) != Fold(u, PathOf(u, ps[j]))
    {
      assert all[i + 1] == ps[i] && all[j + 1] == ps[j];
    }
  }

  lemma {:induction false} UnseenLonger(u: Unicode, seen: set<string>, p: Placed, ps: seq<Placed>)
    requires Fold(u, PathOf(u, p)) !in seen && Unseen(u, seen + {Fold(u, PathOf(u, p))}, ps)
    ensures Unseen(u, seen, [p] + ps)
  {
    var all := [p] + ps;
    forall i, j | 0 <= i < j < |all|
      ensures Fold(u, PathOf(u, all[i])) != Fold(u, PathOf(u, all[j]))
    {
      assert all[j] == ps[j - 1];
      if i > 0 {
        assert all[i] == ps[i - 1];
      }
    }
  }

  lemma {:induction false} PlacedIff(u: Unicode, scan: Scan, ps: seq<Placed>)
    ensures ScanPlaced(u, scan, ps).Some? <==> Acceptable(u, scan, ps)
    decreases |ps|
  {
    if ps != [] {
      var p, rest := ps[0], ps[1..];
      assert ps == [p] + rest;
      UnseenCons(u, scan.seen, p, rest);
      PlacedIff(u, AddEntry(u, scan, p.prefix, p.entry), rest);
      assert AllFine(u, ps) <==> Fine(u, p) && AllFine(u, rest);
    }
  }

  lemma {:induction false} PlacedAppend(u: Unicode, scan: Scan, a: seq<Placed>, b: seq<Placed>)
    ensures ScanPlaced(u, scan, a + b)
            == if ScanPlaced(u, scan, a).Some? then ScanPlaced(u, ScanPlaced(u, scan, a).value, b) else None
    decreases |a|
  {
    if a == [] {
      assert a + b == b;
    } else {
      assert (a + b)[0] == a[0] && (a + b)[1..] == a[1..] + b;
      PlacedAppend(u, AddEntry(u, scan, a[0].prefix, a[0].entry), a[1..], b);
    }
  }

  lemma {:induction false} TreeIsPlaced(u: Unicode, scan: Scan, prefix: string, tree: Bytes)
    requires ParseTree(tree).Some?
    ensures ScanTree(u, scan, prefix, tree) == ScanPlaced(u, scan, EntriesOf(prefix, ParseTree(tree).value))
    decreases |tree|
  {
    if tree != "" {
      var p := ParseEntry(tree).value;
      var es := ParseTree(p.rest).value;
      assert ParseTree(tree).value == [p.entry] + es && ([p.entry] + es)[1..] == es;
      var ps := EntriesOf(prefix, es);
      assert ([Placed(prefix, p.entry)] + ps)[1..] == ps;
      TreeIsPlaced(u, AddEntry(u, scan, prefix, p.entry), prefix, p.rest);
    }
  }

  lemma {:induction false} LevelIsPlaced(u: Unicode, scan: Scan, dirs: seq<Dir>, trees: seq<Bytes>)
    requires |dirs| == |trees| && AllParse(trees)
    ensures ScanTrees(u, scan, dirs, trees) == ScanPlaced(u, scan, LevelEntries(dirs, trees))
    decreases |dirs|
  {
    if dirs != [] {
      assert trees[0] in trees && forall t <- trees[1..] :: t in trees;
      var here := EntriesOf(dirs[0].prefix, ParseTree(trees[0]).value);
      TreeIsPlaced(u, scan, dirs[0].prefix, trees[0]);
      PlacedAppend(u, scan, here, LevelEntries(dirs[1..], trees[1..]));
      if ScanPlaced(u, scan, here).Some? {
        LevelIsPlaced(u, ScanPlaced(u, scan, here).value, dirs[1..], trees[1..]);
      }
    }
  }

  /**
   * A level is accepted exactly when every tree is a sequence of whole entries, every entry is a
   * canonical path of a supported kind, no two paths of the walk so far fold alike, and the member
   * limit holds: independent of the order in which the loop meets them.
   */
  lemma {:induction false} LevelAcceptedIff(u: Unicode, scan: Scan, dirs: seq<Dir>, trees: seq<Bytes>)
    requires |dirs| == |trees|
    ensures ScanTrees(u, scan, dirs, trees).Some? <==> AllParse(trees) && Acceptable(u, scan, LevelEntries(dirs, trees))
  {
    if AllParse(trees) {
      LevelIsPlaced(u, scan, dirs, trees);
      PlacedIff(u, scan, LevelEntries(dirs, trees));
    } else if ScanTrees(u, scan, dirs, trees).Some? {
      LevelAdds(u, scan, dirs, trees);
    }
  }

  /** What an accepted level records: exactly the folds and the number of its entries. */
  lemma {:induction false} LevelRecords(u: Unicode, scan: Scan, ps: seq<Placed>)
    requires ScanPlaced(u, scan, ps).Some?
    ensures ScanPlaced(u, scan, ps).value.members == scan.members + |ps|
    ensures forall f :: f in ScanPlaced(u, scan, ps).value.seen <==>
                        f in scan.seen || exists k :: 0 <= k < |ps| && Fold(u, PathOf(u, ps[k])) == f
    decreases |ps|
  {
    if ps != [] {
      var p, rest := ps[0], ps[1..];
      var next := AddEntry(u, scan, p.prefix, p.entry);
      LevelRecords(u, next, rest);
      forall f
        ensures (f in next.seen || exists k :: 0 <= k < |rest| && Fold(u, PathOf(u, rest[k])) == f)
                <==> (f in scan.seen || exists k :: 0 <= k < |ps| && Fold(u, PathOf(u, ps[k])) == f)
      {
        if k :| 0 <= k < |rest| && Fold(u, PathOf(u, rest[k])) == f {
          assert ps[k + 1] == rest[k];
        }
        if k :| 0 <= k < |ps| && Fold(u, PathOf(u, ps[k])) == f {
          assert k > 0 ==> rest[k - 1] == ps[k];
        }
      }
    }
  }
}
