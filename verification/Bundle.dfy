/** The canonical event list as a hash chain, and its division among the producers it came from. */
module Bundle {
  import opened Basics

  /** A payload is an object that names its producer, or anything else. */
  datatype Payload =
    | Object(producerId: string, producerSequence: int, sourceDigest: string, sourceRecord: string)
    | NoObject(text: string)

  datatype Event = Event(
    sequence: int, eventId: string, eventType: string, sourceTime: string, previousHash: string,
    payloadDigest: string, manifestDigest: string, leaseEpoch: int, payload: Payload)

  /** What the chain hashes: an event's place, type, time and payload digest, and the chain before it. */
  datatype Link = Link(sequence: int, eventType: string, sourceTime: string, payloadDigest: string,
      previousHash: string)

  datatype Record = Record(link: Link, eventId: string, payload: Payload)

  datatype Digests = Digests(genesis: string, ofLink: Link -> string, ofPayload: Payload -> string,
      ofSource: string -> string)

  /** The attempt that the events must belong to. */
  datatype Attempt = Attempt(manifestDigest: string, epoch: int)

  /* ------------------------------------------------------------------ what is accepted */

  function LinkOf(e: Event, index: nat, previous: string): Link {
    Link(index, e.eventType, e.sourceTime, e.payloadDigest, previous)
  }

  /** The hash after the whole list. */
  function Head(d: Digests, events: seq<Event>): string {
    if events == [] then d.genesis else
      d.ofLink(LinkOf(events[|events| - 1], |events|, Head(d, events[..|events| - 1])))
  }

  function Records(d: Digests, events: seq<Event>): (rs: seq<Record>)
    ensures |rs| == |events|
  {
    if events == [] then [] else
      var e := events[|events| - 1];
      Records(d, events[..|events| - 1])
          + [Record(LinkOf(e, |events|, Head(d, events[..|events| - 1])), e.eventId, e.payload)]
  }

  /** The records of one producer, in order. */
  function Group(d: Digests, events: seq<Event>, producer: string): seq<Record> {
    if events == [] then [] else
      var e, rest := events[|events| - 1], events[..|events| - 1];
      Group(d, rest, producer)
      + if e.payload.Object? && e.payload.producerId == producer
        then [Record(LinkOf(e, |events|, Head(d, rest)), e.eventId, e.payload)] else []
  }

  /** The event continues the chain and its producer's numbering. */
  predicate Continues(d: Digests, a: Attempt, producers: set<string>, before: seq<Event>, e: Event) {
    && e.payload.Object?
    && e.sequence == |before| + 1 && e.previousHash == Head(d, before)
    && e.payloadDigest == d.ofPayload(e.payload)
    && e.manifestDigest == a.manifestDigest && e.leaseEpoch == a.epoch
    && e.payload.producerId in producers
    && e.payload.sourceDigest == d.ofSource(e.payload.sourceRecord)
    && e.payload.producerSequence == |Group(d, before, e.payload.producerId)| + 1
  }

  predicate Chained(d: Digests, a: Attempt, producers: set<string>, events: seq<Event>) {
    events != [] ==>
      Chained(d, a, producers, events[..|events| - 1])
      && Continues(d, a, producers, events[..|events| - 1], events[|events| - 1])
  }

  /** A chain from genesis that covers every producer's closed tail. */
  predicate BundleOk(d: Digests, a: Attempt, tails: map<string, int>, events: seq<Event>) {
    Chained(d, a, tails.Keys, events) && forall p <- tails :: |Group(d, events, p)| == tails[p]
  }

  function Groups(d: Digests, events: seq<Event>, producers: set<string>): map<string, seq<Record>> {
    map p | p in producers :: Group(d, events, p)
  }

  /* ------------------------------------------------------------------ the loop */

  lemma {:induction false} ChainedPrefix(d: Digests, a: Attempt, producers: set<string>, events: seq<Event>, n: nat)
    requires n <= |events| && Chained(d, a, producers, events)
    ensures Chained(d, a, producers, events[..n])
    ensures n < |events| ==> Continues(d, a, producers, events[..n], events[n])
    decreases |events|
  {
    if n < |events| {
      var rest := events[..|events| - 1];
      ChainedPrefix(d, a, producers, rest, n);
      assert events[..n] == rest[..n];
    } else {
      assert events[..n] == events;
    }
  }

  lemma {:induction false} GroupsNext(d: Digests, events: seq<Event>, n: nat, producers: set<string>)
    requires n < |events| && events[n].payload.Object? && events[n].payload.producerId in producers
    ensures var e := events[n];
            Groups(d, events[..n + 1], producers) == AddRecord(d, Groups(d, events[..n], producers), events[..n], e)
  {
    assert events[..n + 1][..n] == events[..n];
    var more := AddRecord(d, Groups(d, events[..n], producers), events[..n], events[n]);
    assert forall q <- producers :: more[q] == Group(d, events[..n + 1], q);
  }

  function AddRecord(d: Digests, grouped: map<string, seq<Record>>, before: seq<Event>,
                     e: Event): map<string, seq<Record>>
    requires e.payload.Object? && e.payload.producerId in grouped
  {
    var p := e.payload.producerId;
    grouped[p := grouped[p] + [Record(LinkOf(e, |before| + 1, Head(d, before)), e.eventId, e.payload)]]
  }

  /** The part of `_bundle` that validates the chain and groups its records. */
  method Demultiplex(d: Digests, a: Attempt, tails: map<string, int>, events: seq<Event>)
    returns (r: Option<map<string, seq<Record>>>)
    ensures r.Some? <==> BundleOk(d, a, tails, events)
    ensures r.Some? ==> r.value == Groups(d, events, tails.Keys)
  {
    var grouped: map<string, seq<Record>> := map p | p in tails.Keys :: [];
    var previous := d.genesis;
    var i := 0;
    while i < |events|
      invariant 0 <= i <= |events|
      invariant grouped == Groups(d, events[..i], tails.Keys) && previous == Head(d, events[..i])
      invariant Chained(d, a, tails.Keys, events[..i])
    {
      var e := events[i];
      assert events[..i + 1][..i] == events[..i];
      if !e.payload.Object? || e.sequence != i + 1 || e.previousHash != previous
         || e.payloadDigest != d.ofPayload(e.payload) || e.manifestDigest != a.manifestDigest || e.leaseEpoch != a.epoch
         || e.payload.producerId !in grouped || e.payload.sourceDigest != d.ofSource(e.payload.sourceRecord)
         || e.payload.producerSequence != |grouped[e.payload.producerId]| + 1
      {
        if Chained(d, a, tails.Keys, events) { ChainedPrefix(d, a, tails.Keys, events, i); }
        return None;
      }
      var producer := e.payload.producerId;
      GroupsNext(d, events, i, tails.Keys);
      var link := Link(i + 1, e.eventType, e.sourceTime, e.payloadDigest, previous);
      previous := d.ofLink(link);
      grouped := grouped[producer := grouped[producer] + [Record(link, e.eventId, e.payload)]];
      i := i + 1;
    }
    assert events[..i] == events;
    if exists p <- tails :: |grouped[p]| != tails[p] {
      return None;
    }
    return Some(grouped);
  }

  /* ------------------------------------------------------------------ the division loses and doubles nothing */

  lemma {:induction false} GroupGrows(d: Digests, events: seq<Event>, n: nat, producer: string)
    requires n <= |events|
    ensures Group(d, events[..n], producer) <= Group(d, events, producer)
    decreases |events| - n
  {
    if n < |events| {
      GroupGrows(d, events, n + 1, producer);
      assert events[..n + 1][..n] == events[..n];
    } else {
      assert events[..n] == events;
    }
  }

  lemma {:induction false} RecordsAt(d: Digests, events: seq<Event>, k: nat)
    requires k < |events|
    ensures Records(d, events)[k]
                == Record(LinkOf(events[k], k + 1, Head(d, events[..k])), events[k].eventId, events[k].payload)
    decreases |events|
  {
    if k < |events| - 1 {
      var rest := events[..|events| - 1];
      RecordsAt(d, rest, k);
      assert rest[..k] == events[..k];
    }
  }

  /** The `k`-th record is in its producer's group, at the place its own number says. */
  lemma {:induction false} RecordPlaced(d: Digests, a: Attempt, tails: map<string, int>, events: seq<Event>, k: nat)
    requires BundleOk(d, a, tails, events) && k < |events|
    ensures var p := events[k].payload;
            && p.Object? && p.producerId in tails && 1 <= p.producerSequence <= tails[p.producerId]
            && Group(d, events, p.producerId)[p.producerSequence - 1] == Records(d, events)[k]
  {
    ChainedPrefix(d, a, tails.Keys, events, k);
    RecordsAt(d, events, k);
    var p := events[k].payload;
    assert events[..k + 1][..k] == events[..k];
    GroupGrows(d, events, k + 1, p.producerId);
    var now := Group(d, events[..k + 1], p.producerId);
    assert now[|now| - 1] == Records(d, events)[k];
  }

  /** Every entry of a group is a record of the list, with the group's producer and the entry's own number. */
  lemma {:induction false} GroupEntry(d: Digests, a: Attempt, producers: set<string>, events: seq<Event>,
                                      producer: string, i: nat) returns (k: nat)
    requires Chained(d, a, producers, events) && i < |Group(d, events, producer)|
    ensures k < |events| && events[k].payload.Object? && events[k].payload.producerId == producer
    ensures events[k].payload.producerSequence == i + 1
    ensures Group(d, events, producer)[i] == Records(d, events)[k]
    decreases |events|
  {
    var n := |events| - 1;
    if i < |Group(d, events[..n], producer)| {
      k := GroupEntry(d, a, producers, events[..n], producer, i);
      assert Records(d, events)[k] == Records(d, events[..n])[k];
    } else {
      k := n;
    }
  }

  /**
   * An accepted bundle is a partition: each group is numbered 1, 2, ... up to its closed tail, and
   * ordering the entries of all groups by sequence gives the event list back, each record once.
   */
  lemma {:induction false} MergeRestores(d: Digests, a: Attempt, tails: map<string, int>, events: seq<Event>)
    requires BundleOk(d, a, tails, events)
    ensures forall p, i :: p in tails && 0 <= i < |Group(d, events, p)| ==> EntryOk(d, events, p, i)
    ensures forall k :: 0 <= k < |events| ==> PlacedOnce(d, events, tails.Keys, k)
  {
    forall p, i | p in tails && 0 <= i < |Group(d, events, p)|
      ensures EntryOk(d, events, p, i)
    {
      EntryIsRecord(d, a, tails.Keys, events, p, i);
    }
    forall k | 0 <= k < |events|
      ensures PlacedOnce(d, events, tails.Keys, k)
    {
      OnePlace(d, a, tails, events, k);
    }
  }

  /** Entry `i` of a group carries number `i + 1` and is the list's record at its own sequence. */
  predicate EntryOk(d: Digests, events: seq<Event>, p: string, i: nat)
    requires i < |Group(d, events, p)|
  {
    var r := Group(d, events, p)[i];
    && r.payload.Object? && r.payload.producerId == p && r.payload.producerSequence == i + 1
    && 1 <= r.link.sequence <= |events| && r == Records(d, events)[r.link.sequence - 1]
  }

  /** Record `k` is in exactly one place of exactly one group. */
  predicate PlacedOnce(d: Digests, events: seq<Event>, producers: set<string>, k: nat)
    requires k < |events|
  {
    && events[k].payload.Object? && events[k].payload.producerId in producers
    && (forall p <- producers :: forall i :: 0 <= i < |Group(d, events, p)| ==>
          (Group(d, events, p)[i].link.sequence == k + 1
           <==> p == events[k].payload.producerId && i + 1 == events[k].payload.producerSequence))
    && 1 <= events[k].payload.producerSequence <= |Group(d, events, events[k].payload.producerId)|
  }

  lemma {:induction false} EntryIsRecord(d: Digests, a: Attempt, producers: set<string>, events: seq<Event>, p: string,
                                         i: nat)
    requires Chained(d, a, producers, events) && i < |Group(d, events, p)|
    ensures EntryOk(d, events, p, i)
  {
    var k := GroupEntry(d, a, producers, events, p, i);
    RecordsAt(d, events, k);
  }

  lemma {:induction false} OnePlace(d: Digests, a: Attempt, tails: map<string, int>, events: seq<Event>, k: nat)
    requires BundleOk(d, a, tails, events) && k < |events|
    ensures PlacedOnce(d, events, tails.Keys, k)
  {
    RecordPlaced(d, a, tails, events, k);
    RecordsAt(d, events, k);
    forall p, i | p in tails && 0 <= i < |Group(d, events, p)|
      ensures Group(d, events, p)[i].link.sequence == k + 1
              <==> p == events[k].payload.producerId && i + 1 == events[k].payload.producerSequence
    {
      EntryIsRecord(d, a, tails.Keys, events, p, i);
    }
  }

  /* ------------------------------------------------------------------ acceptance, event by event */

  /** How many of the first `n` events came from the producer. */
  function CountOf(events: seq<Event>, n: nat, producer: string): nat
    requires n <= |events|
  {
    if n == 0 then 0 else
      CountOf(events, n - 1, producer)
      + if events[n - 1].payload.Object? && events[n - 1].payload.producerId == producer then 1 else 0
  }

  lemma {:induction false} GroupCounts(d: Digests, events: seq<Event>, n: nat, producer: string)
    requires n <= |events|
    ensures |Group(d, events[..n], producer)| == CountOf(events, n, producer)
    decreases n
  {
    if n > 0 {
      GroupCounts(d, events, n - 1, producer);
      assert events[..n][..n - 1] == events[..n - 1];
    }
  }

  /** What the `k`-th event must be: a place, two digests, the attempt, and its producer's next number. */
  predicate InPlace(d: Digests, a: Attempt, tails: map<string, int>, events: seq<Event>, k: nat)
    requires k < |events|
  {
    var e := events[k];
    && e.payload.Object? && e.payload.producerId in tails
    && e.sequence == k + 1 && e.manifestDigest == a.manifestDigest && e.leaseEpoch == a.epoch
    && e.previousHash == Head(d, events[..k])
    && e.payloadDigest == d.ofPayload(e.payload)
    && e.payload.sourceDigest == d.ofSource(e.payload.sourceRecord)
    && e.payload.producerSequence == CountOf(events, k, e.payload.producerId) + 1
  }

  /** One event: continuing what came before is being in place. */
  lemma {:induction false} ContinuesIff(d: Digests, a: Attempt, tails: map<string, int>, events: seq<Event>, k: nat)
    requires k < |events|
    ensures Continues(d, a, tails.Keys, events[..k], events[k]) <==> InPlace(d, a, tails, events, k)
  {
    if events[k].payload.Object? {
      GroupCounts(d, events, k, events[k].payload.producerId);
    }
  }

  lemma {:induction false} ChainedWhenInPlace(d: Digests, a: Attempt, tails: map<string, int>, events: seq<Event>,
                                              n: nat)
    requires n <= |events| && forall k :: 0 <= k < |events| ==> InPlace(d, a, tails, events, k)
    ensures Chained(d, a, tails.Keys, events[..n])
    decreases n
  {
    if n > 0 {
      ChainedWhenInPlace(d, a, tails, events, n - 1);
      ContinuesIff(d, a, tails, events, n - 1);
      assert events[..n][..n - 1] == events[..n - 1];
    }
  }

  /** A list is accepted exactly when every event is in its place and every producer's count is its closed tail. */
  lemma {:induction false} AcceptedIff(d: Digests, a: Attempt, tails: map<string, int>, events: seq<Event>)
    ensures BundleOk(d, a, tails, events)
            <==> && (forall k :: 0 <= k < |events| ==> InPlace(d, a, tails, events, k))
                 && forall p <- tails :: CountOf(events, |events|, p) == tails[p]
  {
    assert events[..|events|] == events;
    if Chained(d, a, tails.Keys, events) {
      forall k | 0 <= k < |events|
        ensures InPlace(d, a, tails, events, k)
      {
        ChainedPrefix(d, a, tails.Keys, events, k);
        ContinuesIff(d, a, tails, events, k);
      }
    }
    if forall k :: 0 <= k < |events| ==> InPlace(d, a, tails, events, k) {
      ChainedWhenInPlace(d, a, tails, events, |events|);
    }
    forall p | p in tails
      ensures |Group(d, events, p)| == CountOf(events, |events|, p)
    {
      GroupCounts(d, events, |events|, p);
    }
  }

  /* ------------------------------------------------------------------ the head determines the chain */

  ghost predicate CollisionFree(d: Digests) {
    && (forall x, y :: d.ofLink(x) == d.ofLink(y) ==> x == y)
    && (forall x :: d.ofLink(x) != d.genesis)
  }

  /** Two lists with one head agree in length and in every chained field of every event. */
  lemma {:induction false} HeadDetermines(d: Digests, x: seq<Event>, y: seq<Event>)
    requires CollisionFree(d) && Head(d, x) == Head(d, y)
    ensures |x| == |y|
    ensures forall k :: 0 <= k < |x| ==>
              x[k].eventType == y[k].eventType && x[k].sourceTime == y[k].sourceTime
              && x[k].payloadDigest == y[k].payloadDigest
    decreases |x|
  {
    if x != [] && y != [] {
      HeadDetermines(d, x[..|x| - 1], y[..|y| - 1]);
    }
  }

  /** For accepted lists that is also sequence numbers and, if payload digests do not collide, whole payloads. */
  lemma {:induction false} HeadDeterminesBundle(d: Digests, a: Attempt, tails: map<string, int>,
                                                tails': map<string, int>, x: seq<Event>, y: seq<Event>)
    requires CollisionFree(d) && BundleOk(d, a, tails, x) && BundleOk(d, a, tails', y) && Head(d, x) == Head(d, y)
    requires forall p, q :: d.ofPayload(p) == d.ofPayload(q) ==> p == q
    ensures |x| == |y| && forall k :: 0 <= k < |x| ==> x[k] == y[k].(eventId := x[k].eventId)
  {
    HeadDetermines(d, x, y);
    forall k | 0 <= k < |x|
      ensures x[k] == y[k].(eventId := x[k].eventId)
    {
      ChainedPrefix(d, a, tails.Keys, x, k);
      ChainedPrefix(d, a, tails'.Keys, y, k);
      HeadOfAgreeing(d, x, y, k);
    }
  }

  lemma {:induction false} HeadOfAgreeing(d: Digests, x: seq<Event>, y: seq<Event>, n: nat)
    requires n <= |x| == |y|
    requires forall k :: 0 <= k < |x| ==>
               x[k].eventType == y[k].eventType && x[k].sourceTime == y[k].sourceTime
               && x[k].payloadDigest == y[k].payloadDigest
    ensures Head(d, x[..n]) == Head(d, y[..n])
    decreases n
  {
    if n > 0 {
      HeadOfAgreeing(d, x, y, n - 1);
      assert x[..n][..n - 1] == x[..n - 1] && y[..n][..n - 1] == y[..n - 1];
    }
  }
}
