/**
 * SimulationSnapshot.cpp and SnapshotPool.cpp as objects: buffers are objects shared by reference, the
 * pool counts references to them. `Slots` is the pool as SnapshotModel.dfy sees it.
 */
module SnapshotPools {
  import opened Prelude
  import opened SnapshotTypes
  import M = SnapshotModel

  class SimulationSnapshot {
    var metadata: Metadata
    var entities: seq<EntitySnapshot>
    var players: seq<PlayerSnapshot>
    var environment: EnvironmentSnapshot

    ghost function Value(): Snapshot
      reads this
    {
      Snapshot(metadata, entities, players, environment)
    }

    constructor ()
      ensures Value() == FRESH_SNAPSHOT
    {
      metadata, entities, players, environment := FRESH_SNAPSHOT.metadata, [], [], EMPTY_ENVIRONMENT;
    }

    method BeginBuild(id: nat, tick: u64, version: u32)
      modifies this
      ensures Value() == Begun(id, tick, version)
    {
      entities, players, environment := [], [], EMPTY_ENVIRONMENT;
      metadata := Metadata(id, tick, version, 0, 0, 0, Building);
    }

    method AddEntity(e: EntitySnapshot) returns (ok: bool)
      modifies this
      ensures ok == CanAddEntity(old(Value()), e)
      ensures Value() == if ok then old(Value()).(entities := old(entities) + [e]) else old(Value())
    {
      if metadata.state != Building {
        return false;
      }
      if e.id == 0 {
        return false;
      }
      if entities != [] && e.id <= entities[|entities| - 1].id {
        return false;
      }
      entities := entities + [e];
      ok := true;
    }

    method AddPlayer(p: PlayerSnapshot) returns (ok: bool)
      modifies this
      ensures ok == CanAddPlayer(old(Value()), p)
      ensures Value() == if ok then old(Value()).(players := old(players) + [p]) else old(Value())
    {
      if metadata.state != Building {
        return false;
      }
      if p.id == 0 {
        return false;
      }
      if players != [] && p.id <= players[|players| - 1].id {
        return false;
      }
      players := players + [p];
      ok := true;
    }

    method SetEnvironment(env: EnvironmentSnapshot) returns (ok: bool)
      modifies this
      ensures ok == (old(metadata.state) == Building)
      ensures Value() == if ok then old(Value()).(environment := env) else old(Value())
    {
      if metadata.state != Building {
        return false;
      }
      environment := env;
      ok := true;
    }

    method Finalize() returns (ok: bool)
      modifies this
      ensures ok == (old(metadata.state) == Building)
      ensures Value() == if ok then Sealed(old(Value())) else old(Value())
    {
      if metadata.state != Building {
        return false;
      }
      metadata := metadata.(
        entityCount := Low32(|entities|), playerCount := Low32(|players|), state := Finalized);
      ok := true;
    }
  }

  /** The position of a buffer among the pool's, or the pool's size. */
  ghost function IndexIn(snapshots: seq<SimulationSnapshot>, b: SimulationSnapshot): (i: nat)
    ensures i <= |snapshots|
    ensures i < |snapshots| ==> snapshots[i] == b
    ensures i == |snapshots| ==> b !in snapshots
  {
    if snapshots == [] then 0
    else if snapshots[0] == b then 0
    else IndexIn(snapshots[1..], b) + 1
  }

  ghost predicate Distinct(snapshots: seq<SimulationSnapshot>) {
    forall i, j :: 0 <= i < j < |snapshots| ==> snapshots[i] != snapshots[j]
  }

  lemma {:induction false} IndexInAt(snapshots: seq<SimulationSnapshot>, i: nat)
    requires Distinct(snapshots) && i < |snapshots|
    ensures IndexIn(snapshots, snapshots[i]) == i
  {
    assert snapshots[i] in snapshots;
  }

  /** A buffer pointer as a slot number. */
  ghost function Name(snapshots: seq<SimulationSnapshot>, b: SimulationSnapshot?): Option<nat> {
    if b == null then None else Some(IndexIn(snapshots, b))
  }

  datatype SlotState = SlotState(refCount: nat, inUse: bool)

  ghost function View(snapshots: seq<SimulationSnapshot>, slots: seq<SlotState>): seq<M.Slot>
    requires |snapshots| == |slots|
    reads snapshots
  {
    seq(|slots|, i requires 0 <= i < |slots| reads snapshots =>
      M.Slot(snapshots[i].Value(), slots[i].refCount, slots[i].inUse))
  }

  class SnapshotPool {
    /** Buffer i belongs to slot i; the storage is fixed by Reserve. */
    var snapshots: seq<SimulationSnapshot>
    var slots: seq<SlotState>
    var inUse: nat

    ghost predicate Valid()
      reads this
    {
      |snapshots| == |slots| && Distinct(snapshots)
    }

    ghost function Slots(): seq<M.Slot>
      requires Valid()
      reads this, snapshots
    {
      View(snapshots, slots)
    }

    constructor ()
      ensures Valid() && snapshots == [] && inUse == 0
    {
      snapshots, slots, inUse := [], [], 0;
    }

    method Reserve(capacity: nat)
      modifies this
      ensures Valid() && inUse == 0 && fresh(snapshots)
      ensures Slots() == seq(capacity, _ => M.Slot(FRESH_SNAPSHOT, 0, false))
    {
      snapshots, slots, inUse := [], [], 0;
      for i := 0 to capacity
        invariant Valid() && inUse == 0 && fresh(snapshots) && |slots| == i
        invariant forall j :: 0 <= j < i ==>
          snapshots[j].Value() == FRESH_SNAPSHOT && slots[j] == SlotState(0, false)
      {
        var b := new SimulationSnapshot();
        snapshots := snapshots + [b];
        slots := slots + [SlotState(0, false)];
      }
    }

    method IndexOf(buffer: SimulationSnapshot?) returns (i: nat)
      requires Valid()
      ensures i == if buffer == null then |slots| else IndexIn(snapshots, buffer)
    {
      if buffer == null {
        return |slots|;
      }
      i := 0;
      while i < |slots|
        invariant i <= |slots|
        invariant buffer !in snapshots[..i]
      {
        if snapshots[i] == buffer {
          IndexInAt(snapshots, i);
          return;
        }
        i := i + 1;
      }
      assert snapshots[..|snapshots|] == snapshots;
    }

    /** The lowest buffer not in use, with one reference; null when the pool is exhausted. */
    method Acquire() returns (buffer: SimulationSnapshot?)
      requires Valid()
      modifies this`slots, this`inUse
      ensures Valid()
      ensures var i := M.FirstFree(old(Slots()), 0);
        if i == |old(Slots())| then
          buffer == null && Slots() == old(Slots()) && inUse == old(inUse)
        else
          && Name(snapshots, buffer) == Some(i) && buffer in snapshots
          && Slots() == old(Slots())[i := old(Slots())[i].(inUse := true, refCount := 1)]
          && inUse == old(inUse) + 1
    {
      var i := 0;
      while i < |slots|
        invariant i <= |slots|
        invariant M.FirstFree(Slots(), i) == M.FirstFree(Slots(), 0)
      {
        if !slots[i].inUse {
          slots := slots[i := SlotState(1, true)];
          inUse := inUse + 1;
          IndexInAt(snapshots, i);
          return snapshots[i];
        }
        i := i + 1;
      }
      buffer := null;
    }

    method AddRef(buffer: SimulationSnapshot?)
      requires Valid()
      modifies this`slots
      ensures Valid()
      ensures var i := if buffer == null then |old(Slots())| else IndexIn(snapshots, buffer);
        Slots() == if i < |old(Slots())| && old(Slots())[i].inUse
                   then old(Slots())[i := old(Slots())[i].(refCount := old(Slots())[i].refCount + 1)]
                   else old(Slots())
    {
      var idx := IndexOf(buffer);
      if idx < |slots| && slots[idx].inUse {
        slots := slots[idx := slots[idx].(refCount := slots[idx].refCount + 1)];
      }
    }

    method ReturnToPool(buffer: SimulationSnapshot?)
      requires Valid()
      modifies this`slots, this`inUse
      ensures Valid()
      ensures Released(old(Slots()), old(inUse), if buffer == null then |old(Slots())| else IndexIn(snapshots, buffer),
                       Slots(), inUse)
    {
      var idx := IndexOf(buffer);
      if idx >= |slots| || !slots[idx].inUse {
        return;
      }
      if slots[idx].refCount > 0 {
        slots := slots[idx := slots[idx].(refCount := slots[idx].refCount - 1)];
      }
      if slots[idx].refCount == 0 {
        slots := slots[idx := slots[idx].(inUse := false)];
        inUse := if inUse > 0 then inUse - 1 else 0;
      }
    }
  }

  /** What ReturnToPool does to the slots and to the number in use. */
  ghost predicate Released(before: seq<M.Slot>, used: nat, i: nat, after: seq<M.Slot>, used': nat) {
    if i >= |before| || !before[i].inUse then after == before && used' == used
    else
      var rc := if before[i].refCount > 0 then before[i].refCount - 1 else 0;
      if rc == 0
      then after == before[i := before[i].(refCount := 0, inUse := false)] && used' == if used > 0 then used - 1 else 0
      else after == before[i := before[i].(refCount := rc)] && used' == used
  }
}
