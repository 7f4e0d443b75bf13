/** SnapshotBuffer.cpp and InterpolationManager.cpp: the frame ring, the bracket search, the merge walk. */
module SnapshotBuffers {
  import opened Prelude
  import opened Sorted
  import opened PredictionModel
  import opened PredictionTheorems
  import opened RecordQueues

  class SnapshotBuffer {
    const buffer: array<Frame>
    const delayTicks: nat
    var head: nat
    var count: nat
    var lastTick: nat

    /** The ring in bounds, the frames ascending, and the guard tick that of the newest. */
    ghost predicate Valid()
      reads this, buffer
    {
      && 1 <= buffer.Length && count <= buffer.Length && head < buffer.Length
      && AscendingTicks(Frames())
      && (count > 0 ==> lastTick == Frames()[count - 1].tick)
    }

    /** Oldest first. */
    ghost function Frames(): (fs: seq<Frame>)
      requires count <= buffer.Length && (head < buffer.Length)
      reads this, buffer
      ensures |fs| == count
    {
      seq(count, i requires 0 <= i < count reads this, buffer requires count <= buffer.Length && head < buffer.Length =>
        buffer[Slot(head, i, buffer.Length)])
    }

    constructor (capacity: nat, delayTicks: nat)
      ensures Valid() && Frames() == [] && this.delayTicks == delayTicks && fresh(buffer)
      ensures buffer.Length == if capacity == 0 then 1 else capacity
    {
      buffer := new Frame[if capacity == 0 then 1 else capacity](_ => Frame(0, []));
      this.delayTicks := delayTicks;
      head, count, lastTick := 0, 0, 0;
    }

    method Push(frame: Frame) returns (outcome: PushOutcome)
      requires Valid()
      modifies this, buffer
      ensures Valid() && outcome == (if Accepts(old(Frames()), frame) then Pushed else SequenceMismatch)
      ensures Frames() == PredictionModel.Push(old(Frames()), buffer.Length, frame)
    {
      if count > 0 && frame.tick <= lastTick {
        return SequenceMismatch;
      }
      ghost var before := Frames();
      if count >= buffer.Length {
        EvictOldest();
      }
      Append(frame);
      lastTick := frame.tick;
      PushAscends(before, buffer.Length, frame);
      assert Frames() == PredictionModel.Push(before, buffer.Length, frame);
      outcome := Pushed;
    }

    method EvictOldest()
      requires 0 < count <= buffer.Length && head < buffer.Length
      modifies this`head, this`count
      ensures count == old(count) - 1 && head < buffer.Length && Frames() == old(Frames())[1..]
    {
      SlotIsModulo(head, 1, buffer.Length);
      head := (head + 1) % buffer.Length;
      count := count - 1;
    }

    method Append(frame: Frame)
      requires count < buffer.Length && head < buffer.Length
      modifies this`count, buffer
      ensures count == old(count) + 1 && count <= buffer.Length && Frames() == old(Frames()) + [frame]
    {
      SlotIsModulo(head, count, buffer.Length);
      var tail := (head + count) % buffer.Length;
      buffer[tail] := frame;
      count := count + 1;
    }

    method FrameAt(i: nat) returns (frame: Frame)
      requires Valid() && i < count
      ensures frame == Frames()[i]
    {
      SlotIsModulo(head, i, buffer.Length);
      frame := buffer[(head + i) % buffer.Length];
    }

    /** The pair around the delayed render tick; past the search the code cannot get. */
    method Pair(renderTick: nat) returns (pair: FramePair)
      requires Valid()
      ensures Brackets(Frames(), Target(renderTick, delayTicks), pair)
    {
      if count == 0 {
        return NoFrame;
      }
      var target := if renderTick > delayTicks then renderTick - delayTicks else 0;
      var oldest := FrameAt(0);
      var newest := FrameAt(count - 1);
      if target <= oldest.tick {
        return FramePair(oldest, oldest, 0.0);
      }
      if target >= newest.tick {
        return FramePair(newest, newest, 0.0);
      }
      pair := Search(target);
    }

    method Search(target: nat) returns (pair: FramePair)
      requires Valid() && count > 0 && Frames()[0].tick < target < Frames()[count - 1].tick
      ensures Brackets(Frames(), target, pair)
    {
      var i := 0;
      while i + 1 < count
        invariant i < count && Frames()[i].tick <= target
      {
        var from := FrameAt(i);
        var to := FrameAt(i + 1);
        if from.tick <= target && target < to.tick {
          var span, offset := to.tick - from.tick, target - from.tick;
          ProperFraction(offset, span);
          return FramePair(from, to, offset as real / span as real);
        }
        i := i + 1;
      }
      assert false;
    }

    method Clear()
      requires Valid()
      modifies this
      ensures Valid() && Frames() == []
    {
      head, count, lastTick := 0, 0, 0;
    }
  }

  /** Both frames walked in step; an entity in only one of them is passed over. */
  method MergeWalk(from: seq<Sighting>, to: seq<Sighting>, factor: real) returns (out: seq<Presented>)
    requires AscendingSightings(from) && AscendingSightings(to)
    ensures out == Blends(from, to, Blending(factor), |from|)
  {
    out := [];
    ghost var blend := Blending(factor);
    var i, j := 0, 0;
    while i < |from| && j < |to|
      invariant i <= |from| && j <= |to|
      invariant out == Blends(from, to, blend, i)
      invariant j > 0 && i < |from| ==> to[j - 1].id < from[i].id
      decreases |from| - i + |to| - j
    {
      if from[i].id == to[j].id {
        SightAt(to, j);
        assert blend(from[i], to[j]) == Blend(from[i], to[j], factor);
        out := out + [Blend(from[i], to[j], factor)];
        i, j := i + 1, j + 1;
      } else if from[i].id < to[j].id {
        NoSight(to, from[i].id, j);
        i := i + 1;
      } else {
        j := j + 1;
      }
    }
    NothingLeft(from, to, blend, i, j);
  }

  lemma {:induction false} SightAt(s: seq<Sighting>, i: nat)
    requires AscendingSightings(s) && i < |s|
    ensures Sight(s, s[i].id) == Some(s[i])
  {
    var r := Sight(s, s[i].id);
    var k :| 0 <= k < |s| && s[k] == r.value;
  }

  lemma {:induction false} NoSight(s: seq<Sighting>, id: nat, k: nat)
    requires AscendingSightings(s) && k <= |s|
    requires (k > 0 ==> s[k - 1].id < id) && (k < |s| ==> id < s[k].id)
    ensures Sight(s, id) == None
  {
    var ids: seq<nat> := seq(|s|, i requires 0 <= i < |s| => s[i].id);
    NotBetween(ids, k, id);
    forall i | 0 <= i < |s| ensures s[i].id != id {
      assert ids[i] == s[i].id;
    }
  }

  /** When one side is used up nothing more is in both. */
  lemma {:induction false} NothingLeft(from: seq<Sighting>, to: seq<Sighting>, blend: Blender, i: nat, j: nat)
    requires AscendingSightings(from) && AscendingSightings(to) && i <= |from| && j <= |to|
    requires i < |from| ==> j == |to| && (j > 0 ==> to[j - 1].id < from[i].id)
    ensures Blends(from, to, blend, |from|) == Blends(from, to, blend, i)
    decreases |from| - i
  {
    if i < |from| {
      NoSight(to, from[i].id, j);
      NothingLeft(from, to, blend, i + 1, j);
    }
  }

  class InterpolationManager {
    const snapshots: SnapshotBuffer

    constructor (stateBufferDepth: nat, delayTicks: nat)
      ensures snapshots.Valid() && snapshots.Frames() == [] && fresh(snapshots) && fresh(snapshots.buffer)
    {
      snapshots := new SnapshotBuffer(stateBufferDepth, delayTicks);
    }

    /** Appends the blended intersection of the two frames around the render tick; without a frame, nothing. */
    method Interpolate(renderTick: nat, out: seq<Presented>) returns (ok: bool, more: seq<Presented>)
      requires snapshots.Valid()
      requires forall i :: 0 <= i < |snapshots.Frames()| ==> AscendingSightings(snapshots.Frames()[i].entities)
      ensures ok <==> snapshots.Frames() != []
      ensures !ok ==> more == out
      ensures ok ==> exists p ::
        && Brackets(snapshots.Frames(), Target(renderTick, snapshots.delayTicks), p) && p.FramePair?
        && more == out + Blends(p.from.entities, p.to.entities, Blending(p.factor), |p.from.entities|)
    {
      var pair := snapshots.Pair(renderTick);
      if pair.NoFrame? {
        return false, out;
      }
      var blended := MergeWalk(pair.from.entities, pair.to.entities, pair.factor);
      ok, more := true, out + blended;
    }
  }
}
