/** What is presented between two frames is where a steady motion was `delay` ticks ago. */
module PredictionLaws {
  import opened BubbleModel
  import opened PredictionModel
  import opened PredictionTheorems

  /** Factor 0 is the first value, factor 1 the second, in between in proportion; outside the nearer end is kept. */
  lemma LerpEnds(a: real, b: real, t: real)
    ensures t <= 0.0 ==> Lerp(a, b, t) == a
    ensures t >= 1.0 ==> Lerp(a, b, t) == b
    ensures 0.0 <= t <= 1.0 ==> Lerp(a, b, t) - a == t * (b - a)
  {
  }

  /** One coordinate of something that is at `origin` at tick 0 and moves by `velocity` each tick. */
  function Along(origin: real, velocity: real, tick: nat): real {
    origin + velocity * tick as real
  }

  function On(origin: Point, velocity: Point, tick: nat): Point {
    Point(Along(origin.x, velocity.x, tick), Along(origin.y, velocity.y, tick), Along(origin.z, velocity.z, tick))
  }

  lemma Proportion(v: real, from: nat, target: nat, to: nat)
    requires from <= target < to
    ensures var f := (target - from) as real / (to - from) as real;
      f * (v * to as real - v * from as real) == v * target as real - v * from as real
  {
    var part, whole := (target - from) as real, (to - from) as real;
    var f := part / whole;
    assert f * whole == part;
    assert v * to as real - v * from as real == v * whole;
    assert v * target as real - v * from as real == v * part;
    assert f * (v * whole) == v * (f * whole);
  }

  lemma LerpsAlong(o: real, v: real, from: nat, target: nat, to: nat)
    requires from <= target < to
    ensures Lerp(Along(o, v, from), Along(o, v, to), (target - from) as real / (to - from) as real)
         == Along(o, v, target)
  {
    var f := (target - from) as real / (to - from) as real;
    ProperFraction(target - from, to - from);
    LerpEnds(o + v * from as real, o + v * to as real, f);
    hide Lerp;
    Proportion(v, from, target, to);
    assert (o + v * to as real) - (o + v * from as real) == v * to as real - v * from as real;
  }

  lemma BlendsAlong(a: Sighting, b: Sighting, origin: Point, velocity: Point, from: nat, target: nat, to: nat)
    requires from <= target < to
    requires a.position == On(origin, velocity, from) && b.position == On(origin, velocity, to)
    ensures Blend(a, b, (target - from) as real / (to - from) as real)
         == Presented(a.id, On(origin, velocity, target), 0.0)
  {
    hide Lerp, Along;
    LerpsAlong(origin.x, velocity.x, from, target, to);
    LerpsAlong(origin.y, velocity.y, from, target, to);
    LerpsAlong(origin.z, velocity.z, from, target, to);
  }

  lemma BlendsHeld(a: Sighting)
    ensures Blend(a, a, 0.0) == Presented(a.id, a.position, 0.0)
  {
    LerpEnds(a.position.x, a.position.x, 0.0);
    LerpEnds(a.position.y, a.position.y, 0.0);
    LerpEnds(a.position.z, a.position.z, 0.0);
  }

  /** The tick within the buffered ones that is nearest to the one wanted. */
  function Nearest(tick: nat, first: nat, last: nat): nat {
    if tick < first then first else if tick > last then last else tick
  }

  /**
   * A steady motion is presented as it was: of an entity that moves by the same amount each tick, the blend of the
   * two sightings around a render tick is where it was `delay` ticks before, as far as the buffer reaches.
   */
  lemma SteadyMotionIsPresented(frames: seq<Frame>, renderTick: nat, delay: nat, p: FramePair, a: Sighting, b: Sighting,
                                origin: Point, velocity: Point)
    requires frames != [] && AscendingTicks(frames) && Brackets(frames, Target(renderTick, delay), p)
    requires a.position == On(origin, velocity, p.from.tick) && b.position == On(origin, velocity, p.to.tick)
    requires p.from == p.to ==> a == b
    ensures var wanted := if renderTick >= delay then renderTick - delay else 0;
      var seen := Nearest(wanted, frames[0].tick, frames[|frames| - 1].tick);
      Blend(a, b, p.factor) == Presented(a.id, On(origin, velocity, seen), 0.0)
  {
    hide Blend, On;
    var target := Target(renderTick, delay);
    assert frames[0].tick <= frames[|frames| - 1].tick;
    if frames[0].tick < target < frames[|frames| - 1].tick {
      BlendsAlong(a, b, origin, velocity, p.from.tick, target, p.to.tick);
    } else {
      BlendsHeld(a);
    }
  }
}
