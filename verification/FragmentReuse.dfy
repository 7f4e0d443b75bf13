/** One payload after another under the same connection and message id. */
module FragmentReuse {
  import opened Prelude
  import opened FragmentModel
  import opened FragmentTheorems

  // -------------------------------------------------------- what earlier payloads leave behind

  function Indices(parts: seq<Option<seq<u8>>>): set<nat> {
    set i | 0 <= i < |parts| && parts[i].Some?
  }

  /** Parts as a split cuts them: of the full size, except perhaps the last. */
  ghost predicate CutParts(parts: seq<Option<seq<u8>>>, max: nat) {
    forall i :: 0 <= i < |parts| - 1 && parts[i].Some? ==> |parts[i].value| == max
  }

  /** An open entry: it counts its parts, and some are missing. */
  ghost predicate OpenEntry(r: Reassembly, max: nat) {
    |r.parts| == r.count && r.have == |Indices(r.parts)| < r.count && CutParts(r.parts, max)
  }

  ghost predicate IsPiece(f: Fragment, m: u16, max: nat)
    requires max > 0
  {
    exists payload :: FragmentCount(|payload|, max) <= 0xFFFF && f in Split(m, payload, max)
  }

  /** Whatever arrives for (c, m) is a piece of some payload; not always of the same one. */
  ghost predicate AnyPieces(events: seq<Event>, c: nat, m: u16, max: nat)
    requires max > 0
  {
    forall k :: 0 <= k < |events| && IsFor(events[k], c, m) ==> IsPiece(events[k].fragment, m, max)
  }

  /** Every piece but the last has the full size. */
  lemma ChunkSize(payload: seq<u8>, max: nat, i: nat)
    requires max > 0 && i < FragmentCount(|payload|, max) - 1
    ensures |Piece(0, payload, max, i).bytes| == max
  {
    var n := FragmentCount(|payload|, max);
    CountBounds(|payload|, max);
    Scaled(i + 1, n - 1, max);
    assert (i + 1) * max == i * max + max;
  }

  lemma PieceIsCut(f: Fragment, m: u16, payload: seq<u8>, max: nat)
    requires max > 0 && FragmentCount(|payload|, max) <= 0xFFFF && f in Split(m, payload, max)
    ensures f.index < f.count == FragmentCount(|payload|, max)
    ensures f.index < f.count - 1 ==> |f.bytes| == max
  {
    var i :| 0 <= i < FragmentCount(|payload|, max) && f == Split(m, payload, max)[i];
    if i < f.count - 1 {
      ChunkSize(payload, max, i);
    }
  }

  lemma IndicesStored(parts: seq<Option<seq<u8>>>, i: nat, bytes: seq<u8>)
    requires i < |parts|
    ensures Indices(parts[i := Some(bytes)]) == Indices(parts) + {i}
  {
  }

  lemma IndicesBound(parts: seq<Option<seq<u8>>>)
    ensures |Indices(parts)| <= |parts|
  {
    AllGot(Indices(parts), |parts|);
  }

  lemma OpenStep(pending: Pending, key: nat, f: Fragment, tick: nat, max: nat)
    requires PartsMatch(pending) && (key in pending ==> OpenEntry(pending[key], max))
    requires f.index < f.count && (f.index < f.count - 1 ==> |f.bytes| == max)
    ensures var after := Accept(pending, key, f, tick).pending; key in after ==> OpenEntry(after[key], max)
  {
    var r := EntryFor(pending, key, f, tick);
    if key !in pending {
      assert Indices(r.parts) == {};
    }
    if r.count == f.count {
      IndicesStored(r.parts, f.index, f.bytes);
      IndicesBound(Store(r, f).parts);
    }
  }

  /** After any run of pieces of any payloads, an entry that is left is open. */
  lemma {:induction false} LeftOpen(events: seq<Event>, budget: nat, c: nat, m: u16, max: nat)
    requires max > 0 && AnyPieces(events, c, m, max)
    ensures var pending := Run(map[], events, budget).pending;
      Key(c, m) in pending ==> OpenEntry(pending[Key(c, m)], max)
  {
    if events != [] {
      var k := |events| - 1;
      LeftOpen(events[..k], budget, c, m, max);
      if events[k].Arrival? {
        var before := Run(map[], events[..k], budget).pending;
        var a := events[k];
        if IsFor(a, c, m) {
          var payload :| FragmentCount(|payload|, max) <= 0xFFFF && a.fragment in Split(m, payload, max);
          PieceIsCut(a.fragment, m, payload, max);
          OpenStep(before, Key(c, m), a.fragment, a.tick, max);
        } else {
          OthersUntouched(before, a.connection, a.fragment, a.tick, c, m);
        }
      }
    }
  }

  // --------------------------------------------------- pieces joined with somebody else's parts

  /** The parts that are there, and the payload's own chunks everywhere else. */
  function Overlaid(parts: seq<Option<seq<u8>>>, chunks: seq<seq<u8>>): (r: seq<seq<u8>>)
    requires |parts| == |chunks|
    ensures |r| == |chunks|
  {
    seq(|chunks|, i requires 0 <= i < |chunks| => if parts[i].Some? then parts[i].value else chunks[i])
  }

  lemma WholeLast(chunks: seq<seq<u8>>)
    requires chunks != []
    ensures var n := |chunks| - 1; Concat(Whole(chunks)) == Concat(Whole(chunks[..n])) + chunks[n]
  {
    var n := |chunks| - 1;
    assert Whole(chunks)[..n] == Whole(chunks[..n]);
  }

  ghost predicate AllFull(chunks: seq<seq<u8>>, max: nat) {
    forall i :: 0 <= i < |chunks| ==> |chunks[i]| == max
  }

  lemma {:induction false} FullLength(chunks: seq<seq<u8>>, max: nat)
    requires AllFull(chunks, max)
    ensures |Concat(Whole(chunks))| == |chunks| * max
  {
    if chunks != [] {
      var n := |chunks| - 1;
      WholeLast(chunks);
      FullLength(chunks[..n], max);
      assert (n + 1) * max == n * max + max;
    }
  }

  lemma SplitAt(a: seq<u8>, b: seq<u8>, a': seq<u8>, b': seq<u8>)
    requires a + b == a' + b' && |a| == |a'|
    ensures a == a' && b == b'
  {
    assert (a + b)[..|a|] == a && (a' + b')[..|a|] == a';
    assert (a + b)[|a|..] == b && (a' + b')[|a|..] == b';
  }

  /** Lists of chunks that are full but for the last join to the same bytes only if they are equal. */
  lemma {:induction false} JoinInjective(a: seq<seq<u8>>, b: seq<seq<u8>>, max: nat)
    requires |a| == |b| && Concat(Whole(a)) == Concat(Whole(b))
    requires forall i :: 0 <= i < |a| - 1 ==> |a[i]| == |b[i]| == max
    ensures a == b
  {
    if a != [] {
      var n := |a| - 1;
      WholeLast(a);
      WholeLast(b);
      FullLength(a[..n], max);
      FullLength(b[..n], max);
      SplitAt(Concat(Whole(a[..n])), a[n], Concat(Whole(b[..n])), b[n]);
      JoinInjective(a[..n], b[..n], max);
      assert a == a[..n] + [a[n]] && b == b[..n] + [b[n]];
    }
  }

  // ------------------------------------------------------------------------ the next payload

  /** The entry of the key, if there is one, is of this many parts, and those it has are the payload's own. */
  ghost predicate Compatible(pending: Pending, key: nat, chunks: seq<seq<u8>>) {
    key in pending ==>
      && pending[key].count == |chunks| == |pending[key].parts|
      && forall i :: 0 <= i < |chunks| && pending[key].parts[i].Some? ==> pending[key].parts[i].value == chunks[i]
  }

  /** What the entry has collected. */
  ghost function EpochOf(pending: Pending, key: nat): Epoch {
    if key in pending then Collecting(pending[key].firstTick, Indices(pending[key].parts)) else Idle
  }

  /** The entry is neither completed nor expired, from the start to the end of these events. */
  ghost predicate StaysOpen(start: Pending, events: seq<Event>, budget: nat, key: nat)
    requires PartsMatch(start)
  {
    && key in Run(start, events, budget).pending
    && (events == [] || StaysOpen(start, events[..|events| - 1], budget, key))
  }

  /** An open entry holds its own parts, and would complete with the payload's chunks in the gaps. */
  lemma OpenHolds(pending: Pending, key: nat, chunks: seq<seq<u8>>, max: nat)
    requires key in pending && OpenEntry(pending[key], max) && pending[key].count == |chunks| <= 0xFFFF
    ensures Holds(pending, key, EpochOf(pending, key), Overlaid(pending[key].parts, chunks))
  {
    var r := pending[key];
    assert PartsGot(Overlaid(r.parts, chunks), Indices(r.parts)) == r.parts;
  }

  /** While the entry stays open it gains exactly the indices that arrive. */
  lemma {:induction false} MixedHolds(start: Pending, events: seq<Event>, budget: nat, c: nat, m: u16,
                                      payload: seq<u8>, max: nat, mixed: seq<seq<u8>>)
    requires max > 0 && PartsMatch(start) && FragmentCount(|payload|, max) <= 0xFFFF
    requires OnlyPieces(events, c, m, payload, max) && StaysOpen(start, events, budget, Key(c, m))
    requires Key(c, m) in start && OpenEntry(start[Key(c, m)], max)
    requires start[Key(c, m)].count == FragmentCount(|payload|, max)
    requires mixed == Overlaid(start[Key(c, m)].parts, Chunks(payload, max, FragmentCount(|payload|, max)))
    ensures var e := EpochAfter(EpochOf(start, Key(c, m)), events, budget, c, m, |mixed|);
      && Holds(Run(start, events, budget).pending, Key(c, m), e, mixed)
      && e.Collecting? && Indices(start[Key(c, m)].parts) <= e.got
  {
    var key := Key(c, m);
    var chunks := Chunks(payload, max, FragmentCount(|payload|, max));
    if events == [] {
      OpenHolds(start, key, chunks, max);
    } else {
      var k := |events| - 1;
      MixedHolds(start, events[..k], budget, c, m, payload, max, mixed);
      if events[k].Arrival? {
        var before := Run(start, events[..k], budget).pending;
        var a := events[k];
        if IsFor(a, c, m) {
          SplitChunk(a.fragment, m, payload, max);
          PieceArrives(before, key, EpochAfter(EpochOf(start, key), events[..k], budget, c, m, |mixed|), mixed,
                       a.fragment, a.tick);
        } else {
          OthersUntouched(before, a.connection, a.fragment, a.tick, c, m);
        }
      }
    }
  }

  /** Pieces of another count do not get in. */
  lemma {:induction false} MismatchStays(start: Pending, events: seq<Event>, budget: nat, c: nat, m: u16,
                                         payload: seq<u8>, max: nat)
    requires max > 0 && PartsMatch(start) && FragmentCount(|payload|, max) <= 0xFFFF
    requires OnlyPieces(events, c, m, payload, max) && StaysOpen(start, events, budget, Key(c, m))
    requires Key(c, m) in start && start[Key(c, m)].count != FragmentCount(|payload|, max)
    ensures Run(start, events, budget).pending[Key(c, m)] == start[Key(c, m)]
  {
    if events != [] {
      var k := |events| - 1;
      MismatchStays(start, events[..k], budget, c, m, payload, max);
      if events[k].Arrival? {
        var before := Run(start, events[..k], budget).pending;
        var a := events[k];
        if IsFor(a, c, m) {
          SplitChunk(a.fragment, m, payload, max);
        } else {
          OthersUntouched(before, a.connection, a.fragment, a.tick, c, m);
        }
      }
    }
  }

  /** What the parts left behind and the payload's chunks join to is the payload only if they agree. */
  lemma MixedIsPayloadIff(start: Pending, key: nat, payload: seq<u8>, max: nat)
    requires max > 0 && key in start && OpenEntry(start[key], max)
    requires start[key].count == FragmentCount(|payload|, max)
    ensures var chunks := Chunks(payload, max, FragmentCount(|payload|, max));
      Concat(Whole(Overlaid(start[key].parts, chunks))) == payload <==> Compatible(start, key, chunks)
  {
    var n := FragmentCount(|payload|, max);
    var chunks := Chunks(payload, max, n);
    var mixed := Overlaid(start[key].parts, chunks);
    SplitJoins(payload, max);
    if Compatible(start, key, chunks) {
      assert mixed == chunks;
    }
    if Concat(Whole(mixed)) == payload {
      forall i | 0 <= i < n - 1 ensures |mixed[i]| == |chunks[i]| == max {
        ChunkSize(payload, max, i);
      }
      JoinInjective(mixed, chunks, max);
      forall i | 0 <= i < n && start[key].parts[i].Some? ensures start[key].parts[i].value == chunks[i] {
        assert mixed[i] == chunks[i];
      }
    }
  }

  /** The last arrival of a payload's pieces over an open entry of the same count. */
  lemma {:induction false} MixedCompletes(start: Pending, events: seq<Event>, budget: nat, c: nat, m: u16,
                                          payload: seq<u8>, max: nat)
    requires max > 0 && PartsMatch(start) && FragmentCount(|payload|, max) <= 0xFFFF
    requires events != [] && IsFor(events[|events| - 1], c, m) && OnlyPieces(events, c, m, payload, max)
    requires Key(c, m) in start && OpenEntry(start[Key(c, m)], max)
    requires start[Key(c, m)].count == FragmentCount(|payload|, max)
    requires StaysOpen(start, events[..|events| - 1], budget, Key(c, m))
    ensures var n, k := FragmentCount(|payload|, max), |events| - 1;
      var got := Got(EpochAfter(EpochOf(start, Key(c, m)), events[..k], budget, c, m, n));
      Run(start, events, budget).outcome
        == if OthersGot(got, events[k].fragment.index, n)
           then Completed(Concat(Whole(Overlaid(start[Key(c, m)].parts, Chunks(payload, max, n))))) else Incomplete
  {
    hide Run, OnlyPieces, Split, Accept, Chunks, Concat, FragmentCount, OthersGot, StaysOpen, EpochOf;
    var n, k := FragmentCount(|payload|, max), |events| - 1;
    var a := events[k];
    var mixed := Overlaid(start[Key(c, m)].parts, Chunks(payload, max, n));
    OnlyPiecesSplit(events, k, c, m, payload, max);
    LastArrival(start, events, budget, k);
    MixedHolds(start, events[..k], budget, c, m, payload, max, mixed);
    SplitChunk(a.fragment, m, payload, max);
    var last := EpochAfter(EpochOf(start, Key(c, m)), events[..k], budget, c, m, n);
    PieceArrives(Run(start, events[..k], budget).pending, Key(c, m), last, mixed, a.fragment, a.tick);
    AllButOne(Got(last), a.fragment.index, n);
  }

  lemma {:induction false} MismatchRejects(start: Pending, events: seq<Event>, budget: nat, c: nat, m: u16,
                                           payload: seq<u8>, max: nat)
    requires max > 0 && PartsMatch(start) && FragmentCount(|payload|, max) <= 0xFFFF
    requires events != [] && IsFor(events[|events| - 1], c, m) && OnlyPieces(events, c, m, payload, max)
    requires Key(c, m) in start && start[Key(c, m)].count != FragmentCount(|payload|, max)
    requires StaysOpen(start, events[..|events| - 1], budget, Key(c, m))
    ensures Run(start, events, budget).outcome == Rejected
  {
    var k := |events| - 1;
    OnlyPiecesSplit(events, k, c, m, payload, max);
    MismatchStays(start, events[..k], budget, c, m, payload, max);
    SplitChunk(events[k].fragment, m, payload, max);
    LastArrival(start, events, budget, k);
  }

  /**
   * After any history of other payloads under the same key, an arrival delivers the payload exactly when all
   * its other indices are there and nothing that does not belong to it was left in the entry.
   */
  lemma {:induction false} NextDeliveredIff(before: seq<Event>, after: seq<Event>, budget: nat, c: nat, m: u16,
                                            payload: seq<u8>, max: nat)
    requires max > 0 && FragmentCount(|payload|, max) <= 0xFFFF
    requires AnyPieces(before, c, m, max) && OnlyPieces(after, c, m, payload, max)
    requires after != [] && IsFor(after[|after| - 1], c, m)
    requires var start := Run(map[], before, budget).pending;
      Key(c, m) in start ==> StaysOpen(start, after[..|after| - 1], budget, Key(c, m))
    ensures var start, n, k := Run(map[], before, budget).pending, FragmentCount(|payload|, max), |after| - 1;
      var got := Got(EpochAfter(EpochOf(start, Key(c, m)), after[..k], budget, c, m, n));
      Run(start, after, budget).outcome == Completed(payload) <==>
        Compatible(start, Key(c, m), Chunks(payload, max, n)) && OthersGot(got, after[k].fragment.index, n)
  {
    hide Run, OnlyPieces, AnyPieces, Split, Chunks, Concat, FragmentCount, OthersGot, StaysOpen, EpochAfter;
    var start, key := Run(map[], before, budget).pending, Key(c, m);
    LeftOpen(before, budget, c, m, max);
    if key !in start {
      CompletesAtLastMissing(start, Idle, after, budget, c, m, payload, max);
    } else if start[key].count == FragmentCount(|payload|, max) {
      MixedCompletes(start, after, budget, c, m, payload, max);
      MixedIsPayloadIff(start, key, payload, max);
    } else {
      MismatchRejects(start, after, budget, c, m, payload, max);
    }
  }

  // ---------------------------------------------------------------------- where it fails

  lemma {:induction false} RunTwo(a: Event, b: Event, budget: nat)
    ensures Run(map[], [a, b], budget) == Step(Step(map[], a, budget).pending, b, budget)
  {
    assert [a][..0] == [] && [a, b][..1] == [a];
    assert Run(map[], [], budget) == Accepted(map[], Incomplete);
    assert Run(map[], [a], budget) == Step(map[], a, budget);
  }

  /** Two fragments that fill an entry of two. */
  lemma TwoFill(key: nat, f: Fragment, g: Fragment)
    requires f.index == 0 && g.index == 1 && f.count == g.count == 2
    ensures var one := Accept(map[], key, f, 0);
      PartsMatch(one.pending) && Accept(one.pending, key, g, 0).outcome == Completed(f.bytes + g.bytes)
  {
    var half: seq<Option<seq<u8>>> := [Some(f.bytes), None];
    var whole: seq<Option<seq<u8>>> := [Some(f.bytes), Some(g.bytes)];
    assert Store(EntryFor(map[], key, f, 0), f).parts == half;
    var one := Accept(map[], key, f, 0).pending;
    assert one[key] == Reassembly(2, 0, 1, half);
    assert Store(one[key], g).parts == whole;
    assert whole[..1] == [Some(f.bytes)] && whole[..1][..0] == [];
    assert Concat(whole[..1]) == f.bytes;
  }

  /** The first half of one message and the second half of the next are delivered as a message nobody sent. */
  lemma {:induction false} HalvesMix(c: nat, m: u16, first: seq<u8>, second: seq<u8>, budget: nat)
    requires first == [1, 2] && second == [3, 4]
    ensures var events := [Arrival(c, Piece(m, first, 1, 0), 0), Arrival(c, Piece(m, second, 1, 1), 0)];
      AnyPieces(events, c, m, 1) && Run(map[], events, budget).outcome == Completed([1, 4])
  {
    var f, g := Piece(m, first, 1, 0), Piece(m, second, 1, 1);
    assert f == Split(m, first, 1)[0] && g == Split(m, second, 1)[1];
    assert f == Fragment(m, 0, 2, [1]) && g == Fragment(m, 1, 2, [4]);
    TwoFill(Key(c, m), f, g);
    RunTwo(Arrival(c, f, 0), Arrival(c, g, 0), budget);
    assert [1] + [4] == [1, 4];
  }
}
