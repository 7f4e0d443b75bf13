/** Reassembly under any interleaving, and exactly which payloads can be delivered. */
module FragmentTheorems {
  import opened Prelude
  import opened FragmentModel

  // ------------------------------------------------------------------- the pieces join up

  lemma CountBounds(total: nat, max: nat)
    requires max > 0
    ensures var n := FragmentCount(total, max); n >= 1 && (total > 0 ==> (n - 1) * max < total <= n * max)
  {
    if total > 0 {
      var q := (total + max - 1) / max;
      var r := (total + max - 1) % max;
      assert total + max - 1 == q * max + r;
      assert (q - 1) * max == q * max - max;
      assert q >= 1;
    }
  }

  /** The bytes of the pieces, in order. */
  function Chunks(payload: seq<u8>, max: nat, n: nat): (chunks: seq<seq<u8>>)
    requires max > 0
    ensures |chunks| == n
  {
    seq(n, i requires 0 <= i => Piece(0, payload, max, i).bytes)
  }

  /** Every part present. */
  function Whole(chunks: seq<seq<u8>>): (parts: seq<Option<seq<u8>>>)
    ensures |parts| == |chunks|
  {
    seq(|chunks|, i requires 0 <= i < |chunks| => Some(chunks[i]))
  }

  lemma {:induction false} ChunksJoin(payload: seq<u8>, max: nat, n: nat)
    requires max > 0
    ensures Concat(Whole(Chunks(payload, max, n))) == payload[..Cut(|payload|, max, n)]
  {
    if n > 0 {
      ChunksJoin(payload, max, n - 1);
      assert Whole(Chunks(payload, max, n))[..n - 1] == Whole(Chunks(payload, max, n - 1));
      CutsAscend(|payload|, max, n - 1);
    }
  }

  /** Putting every piece of a split back in order gives the payload. */
  lemma SplitJoins(payload: seq<u8>, max: nat)
    requires max > 0
    ensures Concat(Whole(Chunks(payload, max, FragmentCount(|payload|, max)))) == payload
  {
    ChunksJoin(payload, max, FragmentCount(|payload|, max));
    CountBounds(|payload|, max);
  }

  // ------------------------------------------------------------- what a run has collected

  /** What has arrived for one message since it last completed, expired or was unknown. */
  datatype Epoch = Idle | Collecting(firstTick: nat, got: set<nat>)

  function Got(e: Epoch): set<nat> {
    if e.Idle? then {} else e.got
  }

  function Arrived(e: Epoch, i: nat, tick: nat, n: nat): Epoch {
    var got := Got(e) + {i};
    if |got| == n then Idle else Collecting(if e.Idle? then tick else e.firstTick, got)
  }

  /** One event, seen from message m of connection c, which has n pieces. */
  function NextEpoch(e: Epoch, event: Event, budget: nat, c: nat, m: u16, n: nat): Epoch {
    match event
    case Arrival(c', f, tick) => if c' == c && f.messageId == m then Arrived(e, f.index, tick, n) else e
    case PruneAt(tick) => if e.Collecting? && tick > e.firstTick + budget then Idle else e
  }

  /** Events in order, from an epoch on. */
  function EpochAfter(e: Epoch, events: seq<Event>, budget: nat, c: nat, m: u16, n: nat): Epoch {
    if events == [] then e
    else NextEpoch(EpochAfter(e, events[..|events| - 1], budget, c, m, n), events[|events| - 1], budget, c, m, n)
  }

  function PartsGot(chunks: seq<seq<u8>>, got: set<nat>): seq<Option<seq<u8>>> {
    seq(|chunks|, i requires 0 <= i < |chunks| => if i in got then Some(chunks[i]) else None)
  }

  /** The pending entry holds exactly what the epoch says. */
  ghost predicate Holds(pending: Pending, key: nat, e: Epoch, chunks: seq<seq<u8>>) {
    if e.Idle? then key !in pending
    else
      && |e.got| < |chunks| <= 0xFFFF && (forall i :: i in e.got ==> i < |chunks|)
      && key in pending
      && pending[key] == Reassembly(|chunks|, e.firstTick, |e.got|, PartsGot(chunks, e.got))
  }

  ghost predicate IsChunk(f: Fragment, chunks: seq<seq<u8>>) {
    f.count == |chunks| && f.index < f.count && f.bytes == chunks[f.index]
  }

  function Below(n: nat): (s: set<nat>)
    ensures |s| == n && forall i: nat :: i in s <==> i < n
  {
    if n == 0 then {} else Below(n - 1) + {n - 1}
  }

  lemma {:induction false} SubsetSmaller(a: set<nat>, b: set<nat>)
    requires a <= b
    ensures |a| <= |b| && (|a| == |b| ==> a == b)
  {
    if a != {} {
      var x :| x in a;
      SubsetSmaller(a - {x}, b - {x});
    }
  }

  /** n different indices below n are all of them. */
  lemma AllGot(got: set<nat>, n: nat)
    requires forall i :: i in got ==> i < n
    ensures |got| <= n && (|got| == n <==> forall i :: 0 <= i < n ==> i in got)
  {
    SubsetSmaller(got, Below(n));
    if forall i :: 0 <= i < n ==> i in got {
      assert got == Below(n);
    }
  }

  /** Every index but perhaps i is there. */
  ghost predicate OthersGot(got: set<nat>, i: nat, n: nat) {
    forall j :: 0 <= j < n && j != i ==> j in got
  }

  lemma AllButOne(got: set<nat>, i: nat, n: nat)
    requires i < n && forall j :: j in got ==> j < n
    ensures |got + {i}| == n <==> OthersGot(got, i, n)
  {
    AllGot(got + {i}, n);
    if !OthersGot(got, i, n) {
      var j :| 0 <= j < n && j != i && j !in got;
      assert j !in got + {i};
    }
  }

  /** A piece for an index that is held already, or the chunk of that index. */
  ghost predicate Suits(f: Fragment, e: Epoch, chunks: seq<seq<u8>>) {
    f.count == |chunks| && f.index < f.count && (f.index in Got(e) || f.bytes == chunks[f.index])
  }

  /** A piece arrives: completed iff nothing is missing any more, else one more part is held. */
  lemma PieceArrives(pending: Pending, key: nat, e: Epoch, chunks: seq<seq<u8>>, f: Fragment, tick: nat)
    requires PartsMatch(pending) && Holds(pending, key, e, chunks) && Suits(f, e, chunks)
    ensures var r := Accept(pending, key, f, tick);
      && Holds(r.pending, key, Arrived(e, f.index, tick, |chunks|), chunks)
      && r.outcome == if |Got(e) + {f.index as nat}| == |chunks| then Completed(Concat(Whole(chunks))) else Incomplete
  {
    var got := Got(e) + {f.index as nat};
    AllGot(got, |chunks|);
    var r := EntryFor(pending, key, f, tick);
    assert r.parts == PartsGot(chunks, Got(e));
    var r1 := Store(r, f);
    assert r1.parts == PartsGot(chunks, got);
    if f.index in Got(e) {
      assert got == Got(e);
    } else {
      assert |got| == |Got(e)| + 1;
    }
    assert r1.have == |got|;
    if |got| == |chunks| {
      assert r1.parts == Whole(chunks);
    }
  }

  /** Anything that arrives for another message leaves the entry alone. */
  lemma OthersUntouched(pending: Pending, c: nat, f: Fragment, tick: nat, c': nat, m': u16)
    requires PartsMatch(pending) && (c != c' || f.messageId != m')
    ensures var after := Accept(pending, Key(c, f.messageId), f, tick).pending;
      && (Key(c', m') in after <==> Key(c', m') in pending)
      && (Key(c', m') in pending ==> after[Key(c', m')] == pending[Key(c', m')])
  {
    if Key(c, f.messageId) == Key(c', m') {
      KeyInjective(c, f.messageId, c', m');
    }
  }

  ghost predicate IsFor(e: Event, c: nat, m: u16) {
    e.Arrival? && e.connection == c && e.fragment.messageId == m
  }

  /** Whatever arrives for (c, m) is out of the payload's split; everything else is arbitrary. */
  ghost predicate OnlyPieces(events: seq<Event>, c: nat, m: u16, payload: seq<u8>, max: nat)
    requires max > 0
  {
    forall k :: 0 <= k < |events| && IsFor(events[k], c, m) ==> events[k].fragment in Split(m, payload, max)
  }

  lemma SplitChunk(f: Fragment, m: u16, payload: seq<u8>, max: nat)
    requires max > 0 && FragmentCount(|payload|, max) <= 0xFFFF && f in Split(m, payload, max)
    ensures IsChunk(f, Chunks(payload, max, FragmentCount(|payload|, max)))
  {
  }

  /** The entry of (c, m) is idle, or holds some of the payload's pieces. */
  ghost predicate Begins(start: Pending, e: Epoch, c: nat, m: u16, payload: seq<u8>, max: nat)
    requires max > 0
  {
    && PartsMatch(start) && FragmentCount(|payload|, max) <= 0xFFFF
    && Holds(start, Key(c, m), e, Chunks(payload, max, FragmentCount(|payload|, max)))
  }

  /**
   * Any order, any duplicates, any interleaving, from any pending map in which the entry is idle or holds
   * some of the pieces: the entry holds exactly the indices that arrived since its epoch began.
   */
  lemma {:induction false} RunHolds(start: Pending, e: Epoch, events: seq<Event>, budget: nat,
                                    c: nat, m: u16, payload: seq<u8>, max: nat)
    requires max > 0 && Begins(start, e, c, m, payload, max) && OnlyPieces(events, c, m, payload, max)
    ensures var n := FragmentCount(|payload|, max);
      Holds(Run(start, events, budget).pending, Key(c, m), EpochAfter(e, events, budget, c, m, n),
            Chunks(payload, max, n))
  {
    if events != [] {
      var k := |events| - 1;
      RunHolds(start, e, events[..k], budget, c, m, payload, max);
      if events[k].Arrival? {
        var before := Run(start, events[..k], budget).pending;
        var a := events[k];
        if IsFor(a, c, m) {
          var n := FragmentCount(|payload|, max);
          SplitChunk(a.fragment, m, payload, max);
          PieceArrives(before, Key(c, m), EpochAfter(e, events[..k], budget, c, m, n), Chunks(payload, max, n),
                       a.fragment, a.tick);
        } else {
          OthersUntouched(before, a.connection, a.fragment, a.tick, c, m);
        }
      }
    }
  }

  lemma OnlyPiecesSplit(events: seq<Event>, k: nat, c: nat, m: u16, payload: seq<u8>, max: nat)
    requires max > 0 && |events| == k + 1 && OnlyPieces(events, c, m, payload, max)
    ensures OnlyPieces(events[..k], c, m, payload, max)
    ensures IsFor(events[k], c, m) ==> events[k].fragment in Split(m, payload, max)
  {
  }

  /** The last arrival, in what the run before it has collected. */
  lemma {:induction false} LastArrival(start: Pending, events: seq<Event>, budget: nat, k: nat)
    requires PartsMatch(start) && |events| == k + 1 && events[k].Arrival?
    ensures var a := events[k];
      Run(start, events, budget)
        == Accept(Run(start, events[..k], budget).pending, Key(a.connection, a.fragment.messageId), a.fragment, a.tick)
  {
  }

  /** An arriving index completes the message, with the payload, exactly when every other index is there. */
  lemma {:induction false} CompletesAtLastMissing(start: Pending, e: Epoch, events: seq<Event>, budget: nat,
                                                  c: nat, m: u16, payload: seq<u8>, max: nat)
    requires max > 0 && Begins(start, e, c, m, payload, max) && OnlyPieces(events, c, m, payload, max)
    requires events != [] && IsFor(events[|events| - 1], c, m)
    ensures var n := FragmentCount(|payload|, max);
      var k := |events| - 1;
      var got := Got(EpochAfter(e, events[..k], budget, c, m, n));
      Run(start, events, budget).outcome
        == if OthersGot(got, events[k].fragment.index, n) then Completed(payload) else Incomplete
  {
    hide Run, OnlyPieces, Split, Accept, Chunks, Concat, FragmentCount, OthersGot;
    var n := FragmentCount(|payload|, max);
    var k := |events| - 1;
    var a := events[k];
    OnlyPiecesSplit(events, k, c, m, payload, max);
    LastArrival(start, events, budget, k);
    RunHolds(start, e, events[..k], budget, c, m, payload, max);
    SplitChunk(a.fragment, m, payload, max);
    var last := EpochAfter(e, events[..k], budget, c, m, n);
    PieceArrives(Run(start, events[..k], budget).pending, Key(c, m), last, Chunks(payload, max, n), a.fragment, a.tick);
    SplitJoins(payload, max);
    AllButOne(Got(last), a.fragment.index, n);
  }

  // ------------------------------------------------------------ which payloads arrive at all

  /** All pieces in order, at tick 0. */
  function InOrder(c: nat, m: u16, payload: seq<u8>, max: nat, k: nat): seq<Event>
    requires max > 0
  {
    seq(k, i requires 0 <= i => Arrival(c, Piece(m, payload, max, i), 0))
  }

  lemma InOrderLast(c: nat, m: u16, payload: seq<u8>, max: nat, k: nat)
    requires max > 0 && 0 < k <= 0xFFFF
    ensures var events := InOrder(c, m, payload, max, k);
      && |events| == k && events[..k - 1] == InOrder(c, m, payload, max, k - 1)
      && IsFor(events[k - 1], c, m) && events[k - 1].fragment.index == k - 1 && events[k - 1].tick == 0
  {
  }

  lemma {:induction false} InOrderEpoch(c: nat, m: u16, payload: seq<u8>, max: nat, budget: nat, n: nat, k: nat)
    requires max > 0 && k < n <= 0xFFFF
    ensures Got(EpochAfter(Idle, InOrder(c, m, payload, max, k), budget, c, m, n)) == Below(k)
  {
    if k > 0 {
      hide InOrder;
      var events := InOrder(c, m, payload, max, k);
      InOrderEpoch(c, m, payload, max, budget, n, k - 1);
      InOrderLast(c, m, payload, max, k);
      var e := EpochAfter(Idle, events[..k - 1], budget, c, m, n);
      assert EpochAfter(Idle, events, budget, c, m, n) == Arrived(e, k - 1, 0, n);
      assert Got(e) + {k - 1} == Below(k);
    }
  }

  lemma InOrderOnlyPieces(c: nat, m: u16, payload: seq<u8>, max: nat)
    requires max > 0
    ensures OnlyPieces(InOrder(c, m, payload, max, FragmentCount(|payload|, max)), c, m, payload, max)
  {
    var n := FragmentCount(|payload|, max);
    forall k | 0 <= k < n ensures InOrder(c, m, payload, max, n)[k].fragment in Split(m, payload, max) {
      assert InOrder(c, m, payload, max, n)[k].fragment == Split(m, payload, max)[k];
    }
  }

  /** In order, every payload of at most 65535 pieces arrives, whatever else is pending. */
  lemma {:induction false} InOrderDelivers(start: Pending, c: nat, m: u16, payload: seq<u8>, max: nat, budget: nat)
    requires PartsMatch(start) && Key(c, m) !in start && max > 0 && FragmentCount(|payload|, max) <= 0xFFFF
    ensures var events := InOrder(c, m, payload, max, FragmentCount(|payload|, max));
      OnlyPieces(events, c, m, payload, max) && Run(start, events, budget).outcome == Completed(payload)
  {
    hide InOrder, OnlyPieces, Run, EpochAfter, FragmentCount;
    var n := FragmentCount(|payload|, max);
    CountBounds(|payload|, max);
    InOrderOnlyPieces(c, m, payload, max);
    InOrderLast(c, m, payload, max, n);
    InOrderEpoch(c, m, payload, max, budget, n, n - 1);
    CompletesAtLastMissing(start, Idle, InOrder(c, m, payload, max, n), budget, c, m, payload, max);
  }

  ghost predicate PartsWithin(parts: seq<Option<seq<u8>>>, max: nat) {
    forall i :: 0 <= i < |parts| && parts[i].Some? ==> |parts[i].value| <= max
  }

  lemma {:induction false} ConcatBound(parts: seq<Option<seq<u8>>>, max: nat)
    requires PartsWithin(parts, max)
    ensures |Concat(parts)| <= |parts| * max
  {
    if parts != [] {
      var n := |parts| - 1;
      ConcatBound(parts[..n], max);
      assert (n + 1) * max == n * max + max;
    }
  }

  /** With more than 65535 pieces the count field is too small for the bytes. */
  lemma CountTooSmall(total: nat, max: nat)
    requires max > 0 && FragmentCount(total, max) > 0xFFFF
    ensures FragmentCount(total, max) % 0x1_0000 * max < total
  {
    var n := FragmentCount(total, max);
    CountBounds(total, max);
    Scaled(n % 0x1_0000, n - 1, max);
  }

  lemma Scaled(a: nat, b: nat, max: nat)
    requires a <= b
    ensures a * max <= b * max
  {
  }

  /** While pieces of an oversized payload arrive, the entry holds that many parts, none too long. */
  ghost predicate Short(pending: Pending, key: nat, count: nat, max: nat) {
    key in pending ==>
      pending[key].count == count && |pending[key].parts| == count && PartsWithin(pending[key].parts, max)
  }

  lemma ShortStep(pending: Pending, key: nat, f: Fragment, tick: nat, max: nat)
    requires PartsMatch(pending) && Short(pending, key, f.count, max) && |f.bytes| <= max
    ensures var r := Accept(pending, key, f, tick);
      Short(r.pending, key, f.count, max) && (r.outcome.Completed? ==> |r.outcome.bytes| <= f.count * max)
  {
    if f.index < f.count {
      var r1 := Store(EntryFor(pending, key, f, tick), f);
      assert PartsWithin(r1.parts, max);
      ConcatBound(r1.parts, max);
    }
  }

  lemma OversizePiece(f: Fragment, m: u16, payload: seq<u8>, max: nat)
    requires max > 0 && f in Split(m, payload, max)
    ensures f.count == FragmentCount(|payload|, max) % 0x1_0000 && |f.bytes| <= max
  {
    var i :| 0 <= i < FragmentCount(|payload|, max) && f == Split(m, payload, max)[i];
    CutsAscend(|payload|, max, i);
  }

  lemma {:induction false} OversizeNeverDelivers(start: Pending, events: seq<Event>, budget: nat, c: nat, m: u16,
                                                 payload: seq<u8>, max: nat)
    requires PartsMatch(start) && Key(c, m) !in start
    requires max > 0 && FragmentCount(|payload|, max) > 0xFFFF && OnlyPieces(events, c, m, payload, max)
    ensures Short(Run(start, events, budget).pending, Key(c, m), FragmentCount(|payload|, max) % 0x1_0000, max)
    ensures events != [] && IsFor(events[|events| - 1], c, m) ==>
      Run(start, events, budget).outcome != Completed(payload)
  {
    if events != [] {
      var k := |events| - 1;
      OversizeNeverDelivers(start, events[..k], budget, c, m, payload, max);
      if events[k].Arrival? {
        var before := Run(start, events[..k], budget).pending;
        var a := events[k];
        if IsFor(a, c, m) {
          OversizePiece(a.fragment, m, payload, max);
          ShortStep(before, Key(c, m), a.fragment, a.tick, max);
          CountTooSmall(|payload|, max);
        } else {
          OthersUntouched(before, a.connection, a.fragment, a.tick, c, m);
        }
      }
    }
  }

  /** A payload can be delivered at all exactly when it splits into at most 65535 pieces. */
  lemma DeliverableIff(start: Pending, c: nat, m: u16, payload: seq<u8>, max: nat, budget: nat)
    requires PartsMatch(start) && Key(c, m) !in start && max > 0
    ensures (exists events ::
               && OnlyPieces(events, c, m, payload, max) && events != [] && IsFor(events[|events| - 1], c, m)
               && Run(start, events, budget).outcome == Completed(payload))
        <==> FragmentCount(|payload|, max) <= 0xFFFF
  {
    if FragmentCount(|payload|, max) <= 0xFFFF {
      InOrderDelivers(start, c, m, payload, max, budget);
      CountBounds(|payload|, max);
      var n := FragmentCount(|payload|, max);
      InOrderLast(c, m, payload, max, n);
      var events := InOrder(c, m, payload, max, n);
      assert events != [] && IsFor(events[|events| - 1], c, m);
    } else {
      forall events | OnlyPieces(events, c, m, payload, max) && events != [] && IsFor(events[|events| - 1], c, m)
        ensures Run(start, events, budget).outcome != Completed(payload)
      {
        OversizeNeverDelivers(start, events, budget, c, m, payload, max);
      }
    }
  }

  // ---------------------------------------------------------------------- where it fails

  /**
   * 65537 bytes in pieces of one: the count field says one piece, so the first piece alone completes the
   * message, with one byte of the payload.
   */
  lemma {:induction false} OversizeCompletesShort(c: nat, m: u16, payload: seq<u8>, budget: nat)
    requires |payload| == 0x1_0001
    ensures var events := [Arrival(c, Split(m, payload, 1)[0], 0)];
      OnlyPieces(events, c, m, payload, 1) && Run(map[], events, budget).outcome == Completed([payload[0]])
  {
    var f := Split(m, payload, 1)[0];
    var events := [Arrival(c, f, 0)];
    assert f in Split(m, payload, 1);
    assert f == Fragment(m, 0, 1, [payload[0]]);
    assert events[..0] == [];
    var parts: seq<Option<seq<u8>>> := [Some([payload[0]])];
    assert parts[..0] == [];
    assert Concat(parts) == [payload[0]];
    assert Store(EntryFor(map[], Key(c, m), f, 0), f).parts == parts;
  }
}
