/** Frames, the recent-frames window, brackets and blends; arithmetic on exact reals. */
module PredictionModel {
  import opened Prelude
  import opened BubbleModel

  /** What a frame says of an entity that interpolation uses. */
  datatype Sighting = Sighting(id: nat, position: Point)

  datatype Frame = Frame(tick: nat, entities: seq<Sighting>)

  datatype PushOutcome = Pushed | SequenceMismatch

  ghost predicate AscendingTicks(fs: seq<Frame>) {
    forall i, j :: 0 <= i < j < |fs| ==> fs[i].tick < fs[j].tick
  }

  /** The last n of a sequence. */
  function Recent<T>(s: seq<T>, n: nat): seq<T> {
    if |s| <= n then s else s[|s| - n..]
  }

  predicate Accepts(frames: seq<Frame>, f: Frame) {
    frames == [] || f.tick > frames[|frames| - 1].tick
  }

  /** Of everything pushed, the frames that moved the tick forward. */
  function AcceptedOf(pushed: seq<Frame>): seq<Frame> {
    if pushed == [] then []
    else
      var before := AcceptedOf(pushed[..|pushed| - 1]);
      var f := pushed[|pushed| - 1];
      if Accepts(before, f) then before + [f] else before
  }

  /** What a push does to the buffered frames, oldest first. */
  function Push(frames: seq<Frame>, capacity: nat, f: Frame): seq<Frame> {
    if !Accepts(frames, f) then frames
    else if |frames| >= capacity && frames != [] then frames[1..] + [f]
    else frames + [f]
  }

  function Buffered(pushed: seq<Frame>, capacity: nat): seq<Frame> {
    if pushed == [] then [] else Push(Buffered(pushed[..|pushed| - 1], capacity), capacity, pushed[|pushed| - 1])
  }

  function Target(renderTick: nat, delay: nat): nat {
    if renderTick > delay then renderTick - delay else 0
  }

  datatype FramePair = NoFrame | FramePair(from: Frame, to: Frame, factor: real)

  /** Adjacent frames around the target, or a clamp at an end; never beyond what is buffered. */
  ghost predicate Brackets(frames: seq<Frame>, target: nat, p: FramePair) {
    if frames == [] then p == NoFrame
    else if target <= frames[0].tick then p == FramePair(frames[0], frames[0], 0.0)
    else if target >= frames[|frames| - 1].tick then p == FramePair(frames[|frames| - 1], frames[|frames| - 1], 0.0)
    else
      && p.FramePair?
      && (exists i :: 0 <= i < |frames| - 1 && p.from == frames[i] && p.to == frames[i + 1])
      && p.from.tick <= target < p.to.tick
      && p.factor == (target - p.from.tick) as real / (p.to.tick - p.from.tick) as real
      && 0.0 <= p.factor < 1.0
  }

  // ------------------------------------------------------------------------- interpolation

  function ClampFactor(t: real): real {
    if t < 0.0 then 0.0 else if t > 1.0 then 1.0 else t
  }

  function Lerp(a: real, b: real, t: real): real {
    a + (b - a) * ClampFactor(t)
  }

  /** What is presented of an entity; there is no source for an orientation. */
  datatype Presented = Presented(id: nat, position: Point, yaw: real)

  function Blend(a: Sighting, b: Sighting, t: real): Presented {
    Presented(a.id, Point(Lerp(a.position.x, b.position.x, t), Lerp(a.position.y, b.position.y, t),
                          Lerp(a.position.z, b.position.z, t)), 0.0)
  }

  ghost predicate AscendingSightings(s: seq<Sighting>) {
    forall i, j :: 0 <= i < j < |s| ==> s[i].id < s[j].id
  }

  /** The sighting of an id, by scanning. */
  function Sight(s: seq<Sighting>, id: nat): (r: Option<Sighting>)
    ensures r.Some? ==> r.value in s && r.value.id == id
    ensures r.None? ==> forall i :: 0 <= i < |s| ==> s[i].id != id
  {
    if s == [] then None else if s[|s| - 1].id == id then Some(s[|s| - 1]) else Sight(s[..|s| - 1], id)
  }

  ghost predicate AscendingPresented(s: seq<Presented>) {
    forall i, j :: 0 <= i < j < |s| ==> s[i].id < s[j].id
  }

  /** What is presented of an id, by scanning. */
  function Shown(s: seq<Presented>, id: nat): Option<Presented> {
    if s == [] then None else if s[|s| - 1].id == id then Some(s[|s| - 1]) else Shown(s[..|s| - 1], id)
  }

  /** A way of blending two sightings of one entity. */
  type Blender = (Sighting, Sighting) -> Presented

  function Blending(t: real): Blender {
    (a, b) => Blend(a, b, t)
  }

  /** Of the first n of one frame, those that are also in the other, blended. */
  function Blends(from: seq<Sighting>, to: seq<Sighting>, blend: Blender, n: nat): seq<Presented>
    requires n <= |from|
  {
    if n == 0 then []
    else
      var b := Sight(to, from[n - 1].id);
      Blends(from, to, blend, n - 1) + if b.Some? then [blend(from[n - 1], b.value)] else []
  }
}
