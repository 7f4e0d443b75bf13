/** Every run of the frame ring, and what is presented between two frames. */
module PredictionTheorems {
  import opened Prelude
  import opened PredictionModel

  lemma {:induction false} AcceptedAscend(pushed: seq<Frame>)
    ensures AscendingTicks(AcceptedOf(pushed))
  {
    if pushed != [] {
      AcceptedAscend(pushed[..|pushed| - 1]);
    }
  }

  /** Whatever was pushed, the buffer holds the last min(n, capacity) accepted frames, ascending. */
  lemma {:induction false} BufferIsRecent(pushed: seq<Frame>, capacity: nat)
    requires capacity >= 1
    ensures Buffered(pushed, capacity) == Recent(AcceptedOf(pushed), capacity)
    ensures AscendingTicks(Buffered(pushed, capacity))
  {
    AcceptedAscend(pushed);
    if pushed != [] {
      var n := |pushed| - 1;
      BufferIsRecent(pushed[..n], capacity);
      RecentPush(AcceptedOf(pushed[..n]), capacity, pushed[n]);
    }
  }

  /** Pushing onto the window of the last frames is extending the frames and taking the window. */
  lemma RecentPush(accepted: seq<Frame>, capacity: nat, f: Frame)
    requires capacity >= 1
    ensures Push(Recent(accepted, capacity), capacity, f)
         == Recent(if Accepts(accepted, f) then accepted + [f] else accepted, capacity)
  {
    if |accepted| >= capacity {
      Slide(accepted, capacity, f);
    }
  }

  /** The window of the last c moves on by one. */
  lemma Slide<T>(s: seq<T>, c: nat, x: T)
    requires 1 <= c <= |s|
    ensures s[|s| - c..][1..] + [x] == (s + [x])[|s| + 1 - c..]
    ensures s[|s| - c..][c - 1] == s[|s| - 1]
  {
  }

  /** The newest frame of an accepting push is the frame itself, and ticks still ascend. */
  lemma PushAscends(frames: seq<Frame>, capacity: nat, f: Frame)
    requires AscendingTicks(frames) && Accepts(frames, f)
    ensures var r := Push(frames, capacity, f);
      AscendingTicks(r) && r != [] && r[|r| - 1] == f
  {
    var kept := if |frames| >= capacity && frames != [] then frames[1..] else frames;
    forall i | 0 <= i < |kept| ensures kept[i].tick < f.tick {
      assert kept[i] == frames[i + |frames| - |kept|];
      assert frames[i + |frames| - |kept|].tick <= frames[|frames| - 1].tick;
    }
  }

  lemma LerpBetween(a: real, b: real, t: real)
    ensures a <= b ==> a <= Lerp(a, b, t) <= b
    ensures b <= a ==> b <= Lerp(a, b, t) <= a
  {
    var c := ClampFactor(t);
    assert (b - a) * c + (b - a) * (1.0 - c) == b - a;
    if a <= b {
      Product(b - a, c);
      Product(b - a, 1.0 - c);
    }
    if b <= a {
      assert (b - a) * c == -((a - b) * c) && (b - a) * (1.0 - c) == -((a - b) * (1.0 - c));
      Product(a - b, c);
      Product(a - b, 1.0 - c);
    }
  }

  lemma Product(x: real, y: real)
    requires x >= 0.0 && y >= 0.0
    ensures x * y >= 0.0
  {
  }

  lemma ProperFraction(offset: nat, span: nat)
    requires offset < span
    ensures 0.0 <= offset as real / span as real < 1.0
  {
    var q := offset as real / span as real;
    assert q * span as real == offset as real;
    assert (q - 1.0) * span as real == q * span as real - span as real;
    if q >= 1.0 {
      Product(q - 1.0, span as real);
    }
    if q < 0.0 {
      Product(-q, span as real);
    }
  }

  ghost predicate KeepsIds(blend: Blender) {
    forall a, b :: blend(a, b).id == a.id
  }

  lemma {:induction false} BlendsAscend(from: seq<Sighting>, to: seq<Sighting>, blend: Blender, n: nat)
    requires n <= |from| && AscendingSightings(from) && KeepsIds(blend)
    ensures AscendingPresented(Blends(from, to, blend, n))
    ensures forall s :: s in Blends(from, to, blend, n) ==> n > 0 && s.id <= from[n - 1].id
  {
    if n > 0 {
      BlendsAscend(from, to, blend, n - 1);
    }
  }

  lemma {:induction false} SightSnoc(s: seq<Sighting>, x: Sighting, id: nat)
    ensures Sight(s + [x], id) == if x.id == id then Some(x) else Sight(s, id)
  {
    SnocSplit(s, x);
  }

  lemma {:induction false} ShownSnoc(s: seq<Presented>, x: Presented, id: nat)
    ensures Shown(s + [x], id) == if x.id == id then Some(x) else Shown(s, id)
  {
    SnocSplit(s, x);
  }

  /** Looking an id up in the blends of the first n. */
  lemma {:induction false} BlendsSight(from: seq<Sighting>, to: seq<Sighting>, blend: Blender, n: nat, id: nat)
    requires n <= |from| && KeepsIds(blend)
    ensures var a, b := Sight(from[..n], id), Sight(to, id);
      Shown(Blends(from, to, blend, n), id) == if a.Some? && b.Some? then Some(blend(a.value, b.value)) else None
  {
    if n > 0 {
      BlendsSight(from, to, blend, n - 1, id);
      assert from[..n] == from[..n - 1] + [from[n - 1]];
      SightSnoc(from[..n - 1], from[n - 1], id);
      var b := Sight(to, from[n - 1].id);
      if b.Some? {
        ShownSnoc(Blends(from, to, blend, n - 1), blend(from[n - 1], b.value), id);
      } else {
        assert Blends(from, to, blend, n) == Blends(from, to, blend, n - 1);
      }
    }
  }

  /**
   * The presented entities are exactly those in both frames, ascending, each at the blend of its two
   * sightings.
   */
  lemma BlendsAreIntersection(from: seq<Sighting>, to: seq<Sighting>, t: real, id: nat)
    requires AscendingSightings(from)
    ensures var out := Blends(from, to, Blending(t), |from|);
      var a, b := Sight(from, id), Sight(to, id);
      && AscendingPresented(out)
      && Shown(out, id) == if a.Some? && b.Some? then Some(Blend(a.value, b.value, t)) else None
  {
    assert from[..|from|] == from;
    BlendsAscend(from, to, Blending(t), |from|);
    BlendsSight(from, to, Blending(t), |from|, id);
  }
}
