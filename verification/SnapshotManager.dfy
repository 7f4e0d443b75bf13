/**
 * SnapshotBuilder.cpp, SnapshotQueue.cpp and SnapshotManager.cpp over the shared pool. Each method
 * takes the model state that describes the objects before the call, and is proved to leave the
 * objects described by the corresponding step of SnapshotModel.dfy.
 */
module SnapshotManagers {
  import opened Prelude
  import opened SnapshotTypes
  import opened SnapshotPools
  import M = SnapshotModel

  /** The pool is as the model state says. */
  ghost predicate PoolIs(pool: SnapshotPool, s: M.System)
    reads pool, pool.snapshots
  {
    pool.Valid() && pool.Slots() == s.slots && pool.inUse == s.inUse
  }

  class SnapshotBuilder {
    const config: M.Config
    var current: SimulationSnapshot?
    var nextId: nat

    constructor (config: M.Config)
      ensures this.config == config && current == null && nextId == 1
    {
      this.config := config;
      current, nextId := null, 1;
    }

    ghost predicate Is(pool: SnapshotPool, s: M.System)
      reads this, pool, pool.snapshots
    {
      && PoolIs(pool, s)
      && s.building == Name(pool.snapshots, current) && (current != null ==> current in pool.snapshots)
      && s.nextId == nextId && s.config == config
    }

    method AbortToPool(pool: SnapshotPool, ghost s: M.System)
      requires Is(pool, s)
      modifies this`current, pool`slots, pool`inUse
      ensures current == null && Is(pool, M.Abort(s))
    {
      if current != null {
        pool.ReturnToPool(current);
      }
      current := null;
    }

    method BeginBuild(pool: SnapshotPool, tick: nat, ghost s: M.System) returns (begun: bool)
      requires Is(pool, s) && s.tick == tick
      modifies this`current, this`nextId, pool`slots, pool`inUse, pool.snapshots
      ensures Is(pool, M.BeginBuild(s)) && begun == (current != null)
    {
      AbortToPool(pool, s);
      begun := AcquireBuffer(pool, tick, M.Abort(s));
    }

    method AcquireBuffer(pool: SnapshotPool, tick: nat, ghost s: M.System) returns (begun: bool)
      requires Is(pool, s) && current == null && s.tick == tick
      modifies this`current, this`nextId, pool`slots, pool`inUse, pool.snapshots
      ensures begun == (current != null) && Is(pool, M.TakeFree(s))
    {
      current := pool.Acquire();
      if current == null {
        return false;
      }
      current.BeginBuild(nextId, Low64(tick), config.version);
      assert pool.Slots() == M.Take(s, M.FirstFree(s.slots, 0)).slots;
      nextId := nextId + 1;
      begun := true;
    }

    /** The buffer under construction changed; nothing else did. */
    ghost predicate Filling(pool: SnapshotPool, s: M.System, content: Snapshot)
      reads this, pool, pool.snapshots
    {
      && current != null && s.building.Some? && s.building.value < |s.slots|
      && Is(pool, M.Write(s, s.building.value, content))
      && current.Value() == content
    }

    method CaptureEntities(pool: SnapshotPool, entities: seq<EntitySnapshot>, ghost s: M.System) returns (ok: bool)
      requires current != null && Filling(pool, s, current.Value())
      modifies current
      ensures var fill := M.AddEntitiesFrom(old(current.Value()), entities, 0);
              ok == fill.ok && Filling(pool, s, fill.content)
    {
      ghost var goal := M.AddEntitiesFrom(current.Value(), entities, 0);
      for k := 0 to |entities|
        invariant Filling(pool, s, current.Value())
        invariant M.AddEntitiesFrom(current.Value(), entities, k) == goal
      {
        ghost var i := s.building.value;
        assert pool.snapshots[i] == current;
        assert pool.Slots()[i] == s.slots[i].(content := current.Value());
        assert forall j :: 0 <= j < |s.slots| && j != i ==>
          pool.snapshots[j] != current && pool.Slots()[j] == s.slots[j];
        var added := current.AddEntity(entities[k]);
        assert pool.Slots() == s.slots[i := s.slots[i].(content := current.Value())];
        if !added {
          return false;
        }
      }
      ok := true;
    }

    method CapturePlayers(pool: SnapshotPool, players: seq<M.CapturedPlayer>, ghost s: M.System) returns (ok: bool)
      requires current != null && Filling(pool, s, current.Value())
      modifies current
      ensures var fill := M.AddPlayersFrom(old(current.Value()), players, 0, 0, config.maxPlayers);
              ok == fill.ok && Filling(pool, s, fill.content)
    {
      ghost var goal := M.AddPlayersFrom(current.Value(), players, 0, 0, config.maxPlayers);
      var playerCount := 0;
      for k := 0 to |players|
        invariant Filling(pool, s, current.Value())
        invariant M.AddPlayersFrom(current.Value(), players, k, playerCount, config.maxPlayers) == goal
      {
        if players[k].removed {
          continue;
        }
        if playerCount >= config.maxPlayers {
          return false;
        }
        ghost var i := s.building.value;
        assert pool.snapshots[i] == current;
        assert pool.Slots()[i] == s.slots[i].(content := current.Value());
        assert forall j :: 0 <= j < |s.slots| && j != i ==>
          pool.snapshots[j] != current && pool.Slots()[j] == s.slots[j];
        var added := current.AddPlayer(players[k].player);
        assert pool.Slots() == s.slots[i := s.slots[i].(content := current.Value())];
        if !added {
          return false;
        }
        playerCount := playerCount + 1;
      }
      ok := true;
    }

    /** Fill the buffer; on any failure it is handed back to the pool. Refused when no build is under way. */
    method Capture(pool: SnapshotPool, input: M.Capture, ghost s: M.System) returns (ok: bool)
      requires Is(pool, s)
      modifies this`current, pool`slots, pool`inUse, current
      ensures old(current) == null ==> !ok && current == null && Is(pool, s)
      ensures old(current) != null ==>
        && s.building.Some? && s.building.value < |s.slots|
        && var i := s.building.value;
           var fill := M.Captured(s.slots[i].content, s.config, input);
           var s1 := M.Write(s, i, fill.content);
           && ok == fill.ok && Is(pool, if ok then s1 else M.Abort(s1))
           && current == if ok then old(current) else null
    {
      if current == null {
        return false;
      }
      ghost var i := s.building.value;
      assert current.Value() == s.slots[i].content;
      assert s.slots[i := s.slots[i].(content := current.Value())] == s.slots;
      assert Filling(pool, s, current.Value());
      ok := Gather(pool, input, s);
      if !ok {
        AbortToPool(pool, M.Write(s, i, M.Captured(s.slots[i].content, s.config, input).content));
      }
    }

    method SampleEnvironment(pool: SnapshotPool, weather: Option<(u32, bool)>, ghost s: M.System) returns (ok: bool)
      requires current != null && Filling(pool, s, current.Value())
      modifies current
      ensures var c := old(current.Value());
              && ok == (c.metadata.state == Building)
              && Filling(pool, s, if ok
                   then c.(environment := M.EnvironmentOf(c.metadata.simulationTick, weather)) else c)
    {
      ghost var i := s.building.value;
      assert pool.snapshots[i] == current;
      assert pool.Slots()[i] == s.slots[i].(content := current.Value());
      assert forall j :: 0 <= j < |s.slots| && j != i ==>
        pool.snapshots[j] != current && pool.Slots()[j] == s.slots[j];
      ok := current.SetEnvironment(M.EnvironmentOf(current.metadata.simulationTick, weather));
      assert pool.Slots() == s.slots[i := s.slots[i].(content := current.Value())];
    }

    /** The three capture phases, stopping at the first failure. */
    method Gather(pool: SnapshotPool, input: M.Capture, ghost s: M.System) returns (ok: bool)
      requires current != null && Filling(pool, s, current.Value())
      modifies current
      ensures var fill := M.Captured(old(current.Value()), config, input);
              ok == fill.ok && Filling(pool, s, fill.content)
    {
      if |input.entities| > config.maxEntities {
        return false;
      }
      ok := CaptureEntities(pool, input.entities, s);
      if ok {
        ok := CapturePlayers(pool, input.players, s);
        if ok {
          ok := SampleEnvironment(pool, input.weather, s);
        }
      }
    }

    /**
     * Seal the buffer and let go of it. Null when no build is under way, or when the buffer was sealed
     * already: then it goes back to the pool.
     */
    method Finalize(pool: SnapshotPool, ghost s: M.System) returns (finished: SimulationSnapshot?)
      requires Is(pool, s)
      modifies this`current, pool`slots, pool`inUse, current
      ensures current == null
      ensures finished == if old(current) != null && old(current.metadata.state) == Building then old(current) else null
      ensures finished == null ==> Is(pool, M.Abort(s))
      ensures finished != null ==>
        && s.building.Some? && s.building.value < |s.slots|
        && finished.Value() == Sealed(old(current.Value()))
        && Is(pool, M.Write(s, s.building.value, finished.Value()).(building := None))
    {
      if current == null {
        return null;
      }
      var sealed := current.Finalize();
      if !sealed {
        AbortToPool(pool, s);
        return null;
      }
      ghost var i := s.building.value;
      assert pool.Slots() == s.slots[i := s.slots[i].(content := current.Value())];
      finished := current;
      current := null;
    }
  }

  class SnapshotQueue {
    var current: SimulationSnapshot?
    var published: nat

    constructor ()
      ensures current == null && published == 0
    {
      current, published := null, 0;
    }

    ghost predicate Is(pool: SnapshotPool, s: M.System)
      reads this, pool, pool.snapshots
    {
      && PoolIs(pool, s)
      && s.current == Name(pool.snapshots, current)
      && s.published == published
    }

    /** Latest wins: the incoming snapshot brings its build reference; the superseded one gives one back. */
    method Publish(pool: SnapshotPool, snapshot: SimulationSnapshot?, ghost s: M.System) returns (ok: bool)
      requires Is(pool, s)
      modifies this, pool`slots, pool`inUse
      ensures ok <==> snapshot != null && snapshot.metadata.state != Building
      ensures current == if ok then snapshot else old(current)
      ensures !ok ==> Is(pool, s)
      ensures ok ==> Is(pool, M.Publish(s, IndexIn(pool.snapshots, snapshot)))
    {
      if snapshot == null {
        return false;
      }
      if snapshot.metadata.state == Building {
        return false;
      }
      var superseded := current;
      current := snapshot;
      published := published + 1;
      if superseded != null {
        pool.ReturnToPool(superseded);
      }
      ok := true;
    }

    method Acquire(pool: SnapshotPool, ghost s: M.System) returns (view: SimulationSnapshot?)
      requires Is(pool, s)
      modifies pool`slots
      ensures view == current && Is(pool, M.ConsumerAcquire(s))
    {
      if current == null {
        return null;
      }
      pool.AddRef(current);
      view := current;
    }

    method Release(pool: SnapshotPool, snapshot: SimulationSnapshot?, ghost s: M.System)
      requires Is(pool, s)
      modifies pool`slots, pool`inUse
      ensures Is(pool, if snapshot == null then s else M.ConsumerRelease(s, IndexIn(pool.snapshots, snapshot)))
    {
      if snapshot == null {
        return;
      }
      pool.ReturnToPool(snapshot);
    }
  }

  class SnapshotManager {
    const pool: SnapshotPool
    const builder: SnapshotBuilder
    const queue: SnapshotQueue
    var tick: nat
    var built: nat
    var publishedCount: nat
    /** The model state these objects are in, with the history of holds and publications. */
    ghost var model: M.System

    ghost predicate Valid()
      reads this, pool, pool.snapshots, builder, queue
    {
      && builder.Is(pool, model) && queue.Is(pool, model)
      && model.tick == tick && model.built == built && model.publishedCount == publishedCount
    }

    constructor (config: M.Config)
      ensures Valid() && model == M.Initial(config, 0) && builder.config == config
    {
      pool := new SnapshotPool();
      builder := new SnapshotBuilder(config);
      queue := new SnapshotQueue();
      tick, built, publishedCount, model := 0, 0, 0, M.Initial(config, 0);
    }

    /** Reserve the buffers, before the first tick. */
    method Initialize(capacity: nat)
      requires Valid() && model == M.Initial(builder.config, 0)
      modifies pool, this`model
      ensures Valid() && model == M.Initial(builder.config, capacity)
    {
      pool.Reserve(capacity);
      model := M.Initial(builder.config, capacity);
    }

    /** Seal the build and hand it to the queue. */
    method Finish()
      requires Valid() && builder.current != null && builder.current.metadata.state == Building
      requires model.building.value < |model.slots|
      modifies this, pool`slots, pool`inUse, builder`current, builder.current, queue
      ensures Valid() && model == M.Finish(old(model))
    {
      var snapshot := Seal();
      Hand(snapshot);
    }

    method Seal() returns (snapshot: SimulationSnapshot)
      requires Valid() && builder.current != null && builder.current.metadata.state == Building
      requires model.building.value < |model.slots|
      modifies this`built, this`model, pool`slots, pool`inUse, builder`current, builder.current
      ensures Valid() && model == M.Seal(old(model))
      ensures snapshot in pool.snapshots && IndexIn(pool.snapshots, snapshot) == old(model).building.value
      ensures snapshot.metadata.state == Finalized
    {
      snapshot := builder.Finalize(pool, model);
      built := built + 1;
      model := M.Seal(model);
    }

    /** Publish a sealed snapshot and record the publication. */
    method Hand(snapshot: SimulationSnapshot)
      requires Valid() && snapshot in pool.snapshots && snapshot.metadata.state != Building
      modifies this`publishedCount, this`model, pool`slots, pool`inUse, queue
      ensures Valid() && model == M.HandOver(old(model), IndexIn(pool.snapshots, snapshot))
    {
      ghost var handed := M.HandOver(model, IndexIn(pool.snapshots, snapshot));
      assert pool.Slots()[IndexIn(pool.snapshots, snapshot)].content == snapshot.Value();
      var ok := queue.Publish(pool, snapshot, model);
      if !ok {
        return;
      }
      publishedCount := publishedCount + 1;
      model := handed;
    }

    method Tick(input: M.Capture)
      requires Valid()
      modifies this, pool`slots, pool`inUse, pool.snapshots, builder, queue
      ensures Valid() && model == M.Tick(old(model), input)
    {
      var begun := Begin();
      FillAndFinish(begun, input);
    }

    /** The first half of the tick: count it and take a buffer. */
    method Begin() returns (begun: bool)
      requires Valid()
      modifies this`tick, this`model, pool`slots, pool`inUse, pool.snapshots, builder
      ensures Valid() && begun == (builder.current != null)
      ensures model == M.BeginBuild(M.Next(old(model)))
    {
      tick := tick + 1;
      model := M.Next(model);
      begun := builder.BeginBuild(pool, tick, model);
      model := M.BeginBuild(model);
    }

    /** The second half: capture, seal, publish, unless no buffer was to be had. */
    method FillAndFinish(begun: bool, input: M.Capture)
      requires Valid() && begun == (builder.current != null)
      modifies this, pool`slots, pool`inUse, pool.snapshots, builder, queue
      ensures Valid() && model == M.Continue(old(model), input)
    {
      if !begun {
        return;
      }
      ghost var i := model.building.value;
      ghost var filled := M.Write(model, i, M.Captured(model.slots[i].content, model.config, input).content);
      var captured := builder.Capture(pool, input, model);
      model := if captured then filled else M.Abort(filled);
      if !captured {
        return;
      }
      assert pool.Slots()[i] == filled.slots[i];
      Finish();
    }

    method ConsumerAcquire() returns (view: SimulationSnapshot?)
      requires Valid()
      modifies this`model, pool`slots
      ensures Valid() && view == queue.current && model == M.ConsumerAcquire(old(model))
    {
      view := queue.Acquire(pool, model);
      model := M.ConsumerAcquire(model);
    }

    method ConsumerRelease(view: SimulationSnapshot)
      requires Valid()
      modifies this`model, pool`slots, pool`inUse
      ensures Valid() && model == M.ConsumerRelease(old(model), IndexIn(pool.snapshots, view))
    {
      queue.Release(pool, view, model);
      model := M.ConsumerRelease(model, IndexIn(pool.snapshots, view));
    }
  }
}
