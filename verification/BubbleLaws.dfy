/** Distances are Euclidean, and the bubble's edges are where its two radii say. */
module BubbleLaws {
  import opened BubbleModel
  import opened BubbleTheorems

  function Times(x: real, y: real): real {
    x * y
  }

  lemma Product(x: real, y: real)
    requires x > 0.0 && y > 0.0
    ensures Times(x, y) > 0.0
  {
  }

  lemma Signs(x: real, y: real)
    ensures Times(-x, -y) == Times(x, y) && Times(0.0, y) == 0.0
  {
  }

  lemma SquarePositive(x: real)
    ensures if x == 0.0 then Times(x, x) == 0.0 else Times(x, x) > 0.0
  {
    hide Times;
    Signs(x, x);
    if x > 0.0 {
      Product(x, x);
    } else if x < 0.0 {
      Product(-x, -x);
    }
  }

  lemma DistanceZeroIff(a: Point, b: Point)
    ensures if a == b then DistanceSquared(a, b) == 0.0 else DistanceSquared(a, b) > 0.0
  {
    var x, y, z := a.x - b.x, a.y - b.y, a.z - b.z;
    assert DistanceSquared(a, b) == Times(x, x) + Times(y, y) + Times(z, z);
    hide Times, DistanceSquared;
    SquarePositive(x);
    SquarePositive(y);
    SquarePositive(z);
    if a != b {
      assert x != 0.0 || y != 0.0 || z != 0.0;
    }
  }

  /** Zero only between equal points, symmetric, the same after a move, and the sum over the three axes. */
  lemma DistanceIsEuclidean(a: Point, b: Point, m: Point)
    ensures var d := DistanceSquared(a, b);
      && (if a == b then d == 0.0 else d > 0.0) && d == DistanceSquared(b, a)
      && d == DistanceSquared(Point(a.x + m.x, a.y + m.y, a.z + m.z), Point(b.x + m.x, b.y + m.y, b.z + m.z))
      && d == DistanceSquared(a, Point(b.x, a.y, a.z)) + DistanceSquared(Point(b.x, a.y, a.z), Point(b.x, b.y, a.z))
              + DistanceSquared(Point(b.x, b.y, a.z), b)
      && DistanceSquared(a, Point(b.x, a.y, a.z)) == (b.x - a.x) * (b.x - a.x)
      && DistanceSquared(a, Point(a.x, b.y, a.z)) == (b.y - a.y) * (b.y - a.y)
      && DistanceSquared(a, Point(a.x, a.y, b.z)) == (b.z - a.z) * (b.z - a.z)
  {
    DistanceZeroIff(a, b);
    Flip(a.x, b.x);
    Flip(a.y, b.y);
    Flip(a.z, b.z);
    assert (a.x + m.x) - (b.x + m.x) == a.x - b.x;
    assert (a.y + m.y) - (b.y + m.y) == a.y - b.y;
    assert (a.z + m.z) - (b.z + m.z) == a.z - b.z;
  }

  lemma Flip(a: real, b: real)
    ensures (a - b) * (a - b) == (b - a) * (b - a)
  {
    assert a - b == -(b - a);
  }

  /** One player at the origin and one entity d away from it. */
  ghost function Apart(d: real, id: nat): World {
    World([Point(0.0, 0.0, 0.0)], [EntityView(id, Point(d, 0.0, 0.0))])
  }

  ghost function Walk(ds: seq<real>, id: nat): seq<World> {
    seq(|ds|, i requires 0 <= i < |ds| => Apart(ds[i], id))
  }

  lemma SquaresCompare(d: real, r: real)
    requires d >= 0.0 && r >= 0.0
    ensures d * d <= r * r <==> d <= r
  {
    assert r * r - d * d == Times(r - d, r + d) && d * d - r * r == Times(d - r, d + r);
    hide Times;
    if d < r {
      Product(r - d, r + d);
    }
    if d > r {
      Product(d - r, d + r);
    }
  }

  lemma WithinApart(d: real, id: nat, r: real)
    requires d >= 0.0 && r >= 0.0
    ensures Within(Apart(d, id), id, r * r) <==> d <= r
  {
    var w := Apart(d, id);
    var origin, at := Point(0.0, 0.0, 0.0), Point(d, 0.0, 0.0);
    assert DistanceSquared(at, origin) == d * d;
    SquaresCompare(d, r);
    if d <= r {
      assert w.players[0] == origin && w.entities[0].position == at;
      assert Near(w.players, at, r * r);
    }
  }

  ghost predicate StayedCloser(ds: seq<real>, off: real, m: nat) {
    forall k :: m <= k < |ds| ==> ds[k] <= off
  }

  /**
   * An entity that walks to and fro is online exactly if it came as close as the activation radius at some
   * evaluation and has been no further than the deactivation radius since. Being on a radius counts as inside.
   */
  lemma WalkIsOnlineIff(ds: seq<real>, on: real, off: real, id: nat)
    requires 0.0 <= on <= off && forall i :: 0 <= i < |ds| ==> ds[i] >= 0.0
    ensures id in Run(Walk(ds, id), Radii(on * on, off * off)).online
       <==> exists m :: 0 <= m < |ds| && ds[m] <= on && StayedCloser(ds, off, m)
  {
    var worlds := Walk(ds, id);
    SquaresCompare(on, off);
    OnlineIff(worlds, Radii(on * on, off * off), id);
    hide Run, Within, Apart;
    forall i | 0 <= i < |ds|
      ensures (Within(worlds[i], id, on * on) <==> ds[i] <= on) && (Within(worlds[i], id, off * off) <==> ds[i] <= off)
    {
      assert worlds[i] == Apart(ds[i], id);
      WithinApart(ds[i], id, on);
      WithinApart(ds[i], id, off);
    }
    forall m | 0 <= m < |ds| ensures StayedWithin(worlds, id, off * off, m) <==> StayedCloser(ds, off, m) {
      SameStay(worlds, ds, id, off, m);
    }
  }

  lemma SameStay(worlds: seq<World>, ds: seq<real>, id: nat, off: real, m: nat)
    requires |worlds| == |ds|
    requires forall i :: 0 <= i < |ds| ==> (Within(worlds[i], id, off * off) <==> ds[i] <= off)
    ensures StayedWithin(worlds, id, off * off, m) <==> StayedCloser(ds, off, m)
  {
    hide Within;
  }
}
