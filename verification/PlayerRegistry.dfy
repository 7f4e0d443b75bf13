/** PlayerRegistry.cpp and PlayerManager.cpp as objects: the sorted vector, its four hash accelerators, the manager. */
module PlayerRegistries {
  import opened Prelude
  import opened Sorted
  import opened PlayerModel
  import opened PlayerTheorems

  function Lookup(index: map<nat, nat>, k: nat): Option<nat> {
    if k in index then Some(index[k]) else None
  }

  /** An accelerator over a key column: looking a live key up is scanning the column for it. */
  ghost predicate Accelerates(keys: seq<nat>, index: map<nat, nat>) {
    && Lookup(index, 0) == None
    && (forall k: nat {:trigger Lookup(index, k)} :: k != 0 ==> Lookup(index, k) == LastIndex(keys, k))
  }

  /** How many keys are live. */
  function LiveCount(keys: seq<nat>): nat {
    if keys == [] then 0 else LiveCount(keys[..|keys| - 1]) + if keys[|keys| - 1] != 0 then 1 else 0
  }

  function Put(index: map<nat, nat>, key: nat, i: nat): map<nat, nat> {
    if key != 0 then index[key := i] else index
  }

  /** With no key shared, the accelerator has one entry per live key. */
  ghost predicate Counted(keys: seq<nat>, index: map<nat, nat>) {
    DistinctLive(keys) ==> |index| == LiveCount(keys)
  }

  /** An accelerator built over the first n keys of a column. */
  ghost predicate BuiltTo(keys: seq<nat>, n: nat, index: map<nat, nat>) {
    n <= |keys| && Accelerates(keys[..n], index) && Counted(keys[..n], index)
  }

  lemma BuiltNext(keys: seq<nat>, i: nat, index: map<nat, nat>)
    requires i < |keys| && BuiltTo(keys, i, index)
    ensures BuiltTo(keys, i + 1, Put(index, keys[i], i))
  {
    assert keys[..i + 1] == keys[..i] + [keys[i]];
    assert keys[..i + 1][..i] == keys[..i];
    DistinctSnoc(keys[..i], keys[i]);
    var next := Put(index, keys[i], i);
    forall k: nat | k != 0 ensures Lookup(next, k) == LastIndex(keys[..i + 1], k) {
      assert Lookup(index, k) == LastIndex(keys[..i], k);
    }
    if keys[i] != 0 {
      assert Lookup(index, keys[i]) == LastIndex(keys[..i], keys[i]);
    }
  }

  lemma BuiltWhole(keys: seq<nat>, index: map<nat, nat>)
    requires BuiltTo(keys, |keys|, index)
    ensures Accelerates(keys, index) && Counted(keys, index)
  {
    assert keys[..|keys|] == keys;
  }

  class PlayerRegistry {
    const capacity: nat
    var nextId: nat
    var records: seq<PlayerRecord>
    var byPlayerId: map<nat, nat>
    var byConnection: map<nat, nat>
    var bySession: map<nat, nat>
    var byEntity: map<nat, nat>

    ghost predicate Valid()
      reads this
    {
      && nextId >= 1 && Ascending(Ids(records)) && 0 !in Ids(records)
      && Accelerates(Ids(records), byPlayerId) && Accelerates(Connections(records), byConnection)
      && Accelerates(SessionMembers(records), bySession) && Accelerates(Entities(records), byEntity)
      && Counted(Ids(records), byPlayerId) && Counted(Connections(records), byConnection)
      && Counted(SessionMembers(records), bySession) && Counted(Entities(records), byEntity)
    }

    constructor (capacity: nat)
      ensures Valid() && records == [] && nextId == 1 && this.capacity == capacity
    {
      this.capacity := capacity;
      nextId, records := 1, [];
      byPlayerId, byConnection, bySession, byEntity := map[], map[], map[], map[];
    }

    method RebuildAccelerators()
      requires nextId >= 1 && Ascending(Ids(records)) && 0 !in Ids(records)
      modifies this`byPlayerId, this`byConnection, this`bySession, this`byEntity
      ensures Valid()
    {
      byPlayerId, byConnection, bySession, byEntity := map[], map[], map[], map[];
      for i := 0 to |records|
        invariant BuiltTo(Ids(records), i, byPlayerId) && BuiltTo(Connections(records), i, byConnection)
        invariant BuiltTo(SessionMembers(records), i, bySession) && BuiltTo(Entities(records), i, byEntity)
      {
        BuiltNext(Ids(records), i, byPlayerId);
        BuiltNext(Connections(records), i, byConnection);
        BuiltNext(SessionMembers(records), i, bySession);
        BuiltNext(Entities(records), i, byEntity);
        assert Ids(records)[i] in Ids(records);
        Index(records[i], i);
      }
      BuiltWhole(Ids(records), byPlayerId);
      BuiltWhole(Connections(records), byConnection);
      BuiltWhole(SessionMembers(records), bySession);
      BuiltWhole(Entities(records), byEntity);
    }

    /** One record into the four accelerators. */
    method Index(r: PlayerRecord, i: nat)
      requires r.id != 0
      modifies this`byPlayerId, this`byConnection, this`bySession, this`byEntity
      ensures byPlayerId == Put(old(byPlayerId), r.id, i) && byConnection == Put(old(byConnection), r.connection, i)
      ensures bySession == Put(old(bySession), r.sessionMember, i) && byEntity == Put(old(byEntity), r.entity, i)
    {
      byPlayerId := byPlayerId[r.id := i];
      if r.connection != 0 {
        byConnection := byConnection[r.connection := i];
      }
      if r.sessionMember != 0 {
        bySession := bySession[r.sessionMember := i];
      }
      if r.entity != 0 {
        byEntity := byEntity[r.entity := i];
      }
    }

    /** Ids are given out ascending and never again. */
    method Allocate() returns (id: nat)
      requires Valid()
      modifies this`nextId
      ensures Valid() && id == old(nextId) && nextId == old(nextId) + 1
    {
      id := nextId;
      nextId := nextId + 1;
    }

    method Insert(record: PlayerRecord) returns (ok: bool)
      requires Valid()
      modifies this`records, this`byPlayerId, this`byConnection, this`bySession, this`byEntity
      ensures Valid()
      ensures var inserted := PlayerModel.Insert(old(records), record, capacity);
        ok == inserted.Some? && records == if ok then inserted.value else old(records)
    {
      if record.id == 0 {
        return false;
      }
      if |records| >= capacity {
        return false;
      }
      var at := LowerBound(Ids(records), record.id);
      LowerBoundDecides(Ids(records), at, record.id);
      if at < |records| && records[at].id == record.id {
        return false;
      }
      PlacedAt(records, at, record);
      records := records[..at] + [record] + records[at..];
      RebuildAccelerators();
      ok := true;
    }

    method Retire(id: nat)
      requires Valid()
      modifies this`records, this`byPlayerId, this`byConnection, this`bySession, this`byEntity
      ensures Valid() && records == PlayerModel.Retire(old(records), id)
    {
      if id == 0 {
        RetireNobody(records, id);
        return;
      }
      var at := LowerBound(Ids(records), id);
      LowerBoundDecides(Ids(records), at, id);
      if at < |records| && records[at].id == id {
        RetiredAt(records, at);
        records := records[..at] + records[at + 1..];
        RebuildAccelerators();
      } else {
        RetireNobody(records, id);
      }
    }

    /** The record bound to a connection: what a scan of the records would find. */
    method FindByConnection(connection: nat) returns (at: Option<nat>)
      requires Valid()
      ensures at == if connection == 0 then None else LastIndex(Connections(records), connection)
    {
      if connection == 0 {
        return None;
      }
      at := Lookup(byConnection, connection);
    }

    method FindByPlayerId(id: nat) returns (at: Option<nat>)
      requires Valid()
      ensures at == if id == 0 then None else LastIndex(Ids(records), id)
    {
      if id == 0 {
        return None;
      }
      at := Lookup(byPlayerId, id);
    }

    method FindBySession(sessionMember: nat) returns (at: Option<nat>)
      requires Valid()
      ensures at == if sessionMember == 0 then None else LastIndex(SessionMembers(records), sessionMember)
    {
      if sessionMember == 0 {
        return None;
      }
      at := Lookup(bySession, sessionMember);
    }

    method FindByEntity(entity: nat) returns (at: Option<nat>)
      requires Valid()
      ensures at == if entity == 0 then None else LastIndex(Entities(records), entity)
    {
      if entity == 0 {
        return None;
      }
      at := Lookup(byEntity, entity);
    }

    /** One column against its accelerator: does every live key lead back to its own position; how many are live. */
    method CheckColumn(keys: seq<nat>, index: map<nat, nat>) returns (consistent: bool, live: nat)
      requires Accelerates(keys, index)
      ensures consistent <==> DistinctLive(keys)
      ensures live == LiveCount(keys)
    {
      consistent, live := true, 0;
      for i := 0 to |keys|
        invariant consistent <==> forall j :: 0 <= j < i && keys[j] != 0 ==> LastIndex(keys, keys[j]) == Some(j)
        invariant live == LiveCount(keys[..i])
      {
        assert keys[..i + 1][..i] == keys[..i];
        if keys[i] != 0 {
          live := live + 1;
          assert Lookup(index, keys[i]) == LastIndex(keys, keys[i]);
          if keys[i] !in index || index[keys[i]] != i {
            consistent := false;
          }
        }
      }
      assert keys[..|keys|] == keys;
      DistinctIffLast(keys);
    }

    /** Healthy exactly when no connection, session key or entity belongs to two players, within capacity. */
    method ValidateConsistency() returns (healthy: bool)
      requires Valid()
      ensures healthy <==> |records| <= capacity && Bijective(records)
    {
      AllLive(Ids(records));
      var sorted, noZero := ScanOrder(Ids(records));
      var idsAgree, ids := CheckColumn(Ids(records), byPlayerId);
      var connectionsAgree, connections := CheckColumn(Connections(records), byConnection);
      var sessionsAgree, sessions := CheckColumn(SessionMembers(records), bySession);
      var entitiesAgree, entities := CheckColumn(Entities(records), byEntity);
      var acceleratorsConsistent := idsAgree && connectionsAgree && sessionsAgree && entitiesAgree
                                    && |byPlayerId| == |records|;
      var mappingBijective := |byConnection| == connections && |bySession| == sessions && |byEntity| == entities;
      healthy := |records| <= capacity && sorted && noZero && acceleratorsConsistent && mappingBijective;
    }
  }

  lemma {:induction false} DistinctIffLast(keys: seq<nat>)
    ensures DistinctLive(keys) <==> forall j :: 0 <= j < |keys| && keys[j] != 0 ==> LastIndex(keys, keys[j]) == Some(j)
  {
    forall j | 0 <= j < |keys| && keys[j] != 0
      ensures DistinctLive(keys) ==> LastIndex(keys, keys[j]) == Some(j)
    {
      var k := LastIndex(keys, keys[j]);
      assert k.Some? && keys[k.value] == keys[j];
    }
    if forall j :: 0 <= j < |keys| && keys[j] != 0 ==> LastIndex(keys, keys[j]) == Some(j) {
      forall i, j | 0 <= i < j < |keys| && keys[i] != 0 ensures keys[i] != keys[j] {
        assert LastIndex(keys, keys[i]) == Some(i);
      }
    }
  }

  /** A column without zeros, ascending: all keys live and distinct. */
  lemma {:induction false} AllLive(keys: seq<nat>)
    requires Ascending(keys) && 0 !in keys
    ensures LiveCount(keys) == |keys| && DistinctLive(keys)
  {
    if keys != [] {
      var n := |keys| - 1;
      assert keys[n] in keys && forall i :: 0 <= i < n ==> keys[..n][i] == keys[i] && keys[i] in keys;
      AllLive(keys[..n]);
    }
  }

  lemma {:induction false} PlacedAt(records: seq<PlayerRecord>, at: nat, r: PlayerRecord)
    requires Ascending(Ids(records)) && at <= |records| && 0 !in Ids(records) && r.id != 0
    requires forall i :: 0 <= i < at ==> Ids(records)[i] < r.id
    requires forall i :: at <= i < |records| ==> r.id < Ids(records)[i]
    ensures Placed(records, r) == records[..at] + [r] + records[at..]
    ensures Ascending(Ids(Placed(records, r))) && 0 !in Ids(Placed(records, r)) && r.id !in Ids(records)
  {
    var below, above := records[..at], records[at..];
    forall i | 0 <= i < |records| ensures if i < at then records[i].id < r.id else r.id < records[i].id {
      assert Ids(records)[i] == records[i].id;
    }
    assert below + above == records;
    PlacedBetween(below, above, r);
    PlacedIds(records, at, r);
  }

  lemma PlacedIds(records: seq<PlayerRecord>, at: nat, r: PlayerRecord)
    requires Ascending(Ids(records)) && at <= |records| && 0 !in Ids(records) && r.id != 0
    requires forall i :: 0 <= i < at ==> Ids(records)[i] < r.id
    requires forall i :: at <= i < |records| ==> r.id < Ids(records)[i]
    ensures var out := records[..at] + [r] + records[at..];
      Ascending(Ids(out)) && 0 !in Ids(out) && r.id !in Ids(records)
  {
    var out := records[..at] + [r] + records[at..];
    assert Ids(out) == Ids(records)[..at] + [r.id] + Ids(records)[at..];
    InsertKeepsAscending(Ids(records), at, r.id);
    forall i | 0 <= i < |out| ensures Ids(out)[i] != 0 {
      assert i < at ==> Ids(out)[i] == Ids(records)[i];
      assert i > at ==> Ids(out)[i] == Ids(records)[i - 1];
    }
  }

  lemma RetireNobody(records: seq<PlayerRecord>, id: nat)
    requires id == 0 || id !in Ids(records)
    ensures Retire(records, id) == records
  {
  }

  lemma RetiredAt(records: seq<PlayerRecord>, at: nat)
    requires Ascending(Ids(records)) && at < |records| && records[at].id != 0 && 0 !in Ids(records)
    ensures Retire(records, records[at].id) == records[..at] + records[at + 1..]
    ensures Ascending(Ids(records[..at] + records[at + 1..])) && 0 !in Ids(records[..at] + records[at + 1..])
  {
    var ids := Ids(records);
    var k := LastIndex(ids, records[at].id);
    assert ids[at] == records[at].id;
    assert k.Some? && ids[k.value] == ids[at];
    var out := records[..at] + records[at + 1..];
    assert Ids(out) == ids[..at] + ids[at + 1..];
    EraseKeepsAscending(ids, at);
    forall j | 0 <= j < |out| ensures Ids(out)[j] != 0 {
      assert ids[if j < at then j else j + 1] in ids;
    }
  }

  /** Ids are unique, so the first match of a scan is the last. */
  lemma ScanFinds(records: seq<PlayerRecord>, i: nat)
    requires Ascending(Ids(records)) && i < |records|
    ensures LastIndex(Ids(records), records[i].id) == Some(i)
  {
    var k := LastIndex(Ids(records), records[i].id);
    assert Ids(records)[i] == records[i].id;
  }

  class PlayerManager {
    const config: Config
    const registry: PlayerRegistry
    var deaths: nat
    var respawns: nat
    var lastJoinTick: nat
    ghost var spawns: nat
    ghost var despawns: nat

    ghost predicate Valid()
      reads this, registry
    {
      registry.Valid() && registry.capacity == config.capacity
    }

    ghost function Abs(): Players
      reads this, registry
    {
      Players(config, registry.records, registry.nextId, deaths, respawns, lastJoinTick, spawns, despawns)
    }

    constructor (config: Config)
      ensures Valid() && Abs() == Initial(config) && fresh(registry)
    {
      this.config := config;
      registry := new PlayerRegistry(config.capacity);
      deaths, respawns, lastJoinTick, spawns, despawns := 0, 0, 0, 0, 0;
    }

    /** A linear scan over the records; ids are unique. */
    method GetRecord(id: nat) returns (record: Option<PlayerRecord>)
      requires Valid()
      ensures record == match LastIndex(Ids(registry.records), id)
                        case None => None
                        case Some(i) => Some(registry.records[i])
    {
      for i := 0 to |registry.records|
        invariant forall j :: 0 <= j < i ==> registry.records[j].id != id
      {
        if registry.records[i].id == id {
          ScanFinds(registry.records, i);
          return Some(registry.records[i]);
        }
      }
      assert id !in Ids(registry.records);
      return None;
    }

    method UpdateRecord(record: PlayerRecord)
      requires Valid()
      modifies registry
      ensures Valid() && Abs() == PlayerModel.UpdateRecord(old(Abs()), record)
    {
      registry.Retire(record.id);
      var inserted := registry.Insert(record);
    }

    /** Entity first; if the record cannot be stored, the entity is rolled back. */
    method RequestJoin(connection: nat, spawn: Option<nat>, tick: nat) returns (outcome: JoinOutcome)
      requires Valid()
      modifies this, registry
      ensures Valid() && Joined(Abs(), outcome) == PlayerModel.RequestJoin(old(Abs()), connection, spawn, tick)
    {
      if connection == 0 {
        return RejectedInvalid;
      }
      var bound := registry.FindByConnection(connection);
      if bound.Some? {
        return RejectedDuplicate;
      }
      if |registry.records| >= config.maxPlayers {
        return RejectedCapacity;
      }
      ghost var p := Abs();
      var id := registry.Allocate();
      assert Abs() == Allocated(p);
      if spawn.None? {
        return RejectedSpawnFailed;
      }
      outcome := Admit(id, connection, spawn.value, tick);
    }

    /** Complete the join of a spawned entity. */
    method Admit(id: nat, connection: nat, entity: nat, tick: nat) returns (outcome: JoinOutcome)
      requires Valid()
      modifies this`lastJoinTick, this`spawns, this`despawns, registry
      ensures Valid()
      ensures Joined(Abs(), outcome) == PlayerModel.Admit(old(Abs()), NewRecord(id, connection, entity, tick), tick)
    {
      var record := PlayerRecord(id, connection, connection, entity, Joining, Connected, PlayerPosition(id, tick),
                                 tick, 0, 0);
      var next := ApplyJoin(record.lifecycle);
      if next.None? {
        return RejectedInvalid;
      }
      outcome := Store(record.(lifecycle := next.value), tick);
    }

    method Store(record: PlayerRecord, tick: nat) returns (outcome: JoinOutcome)
      requires Valid()
      modifies this`lastJoinTick, this`spawns, this`despawns, registry
      ensures Valid() && Joined(Abs(), outcome) == PlayerModel.Admit(old(Abs()), record, tick)
    {
      hide PlayerRegistry.Valid;
      ghost var p := Abs();
      var inserted := Put(record, p);
      Count(inserted, tick);
      outcome := if inserted then Accepted else RejectedCapacity;
    }

    method Put(record: PlayerRecord, ghost p: Players) returns (inserted: bool)
      requires Valid() && p == Abs()
      modifies registry
      ensures Valid() && inserted == PlayerModel.Insert(p.records, record, p.config.capacity).Some?
      ensures Abs() == if inserted then p.(records := PlayerModel.Insert(p.records, record, p.config.capacity).value)
                       else p
    {
      inserted := registry.Insert(record);
    }

    /** The gateway did spawn; without a record for it, the entity is despawned again. */
    method Count(stored: bool, tick: nat)
      modifies this`lastJoinTick, this`spawns, this`despawns
      ensures Abs() == if stored then old(Abs()).(spawns := old(spawns) + 1, lastJoinTick := tick)
                       else RolledBack(old(Abs()))
    {
      spawns := spawns + 1;
      if stored {
        lastJoinTick := tick;
      } else {
        despawns := despawns + 1;
      }
    }

    method SuspendOnLeave(connection: nat, token: nat)
      requires Valid()
      modifies registry
      ensures Valid() && Abs() == PlayerModel.SuspendOnLeave(old(Abs()), connection, token)
    {
      var bound := registry.FindByConnection(connection);
      if bound.None? {
        return;
      }
      var record := registry.records[bound.value];
      var next := ApplySuspend(record.lifecycle);
      if next.None? {
        return;
      }
      UpdateRecord(Suspension(record, token));
    }

    method NotifyDeath(id: nat, tick: nat) returns (outcome: JoinOutcome)
      requires Valid()
      modifies this, registry
      ensures Valid() && Joined(Abs(), outcome) == PlayerModel.NotifyDeath(old(Abs()), id, tick)
    {
      var record := GetRecord(id);
      if record.None? {
        return RejectedInvalid;
      }
      var next := ApplyDeath(record.value.lifecycle);
      if next.None? {
        return RejectedInvalid;
      }
      hide PlayerRegistry.Valid, PlayerModel.UpdateRecord;
      ghost var p := Abs();
      ghost var goal := PlayerModel.NotifyDeath(p, id, tick);
      var dead := Death(record.value, tick + config.respawnDelayTicks);
      DeathSteps(p, LastIndex(Ids(registry.records), id).value, tick);
      Bury(dead, p, goal.players);
      return Accepted;
    }

    method Bury(dead: PlayerRecord, ghost p: Players, ghost goal: Players)
      requires Valid() && p == Abs() && goal == CountDeath(PlayerModel.UpdateRecord(p, dead))
      modifies this`deaths, registry
      ensures Valid() && Abs() == goal
    {
      UpdateRecord(dead);
      deaths := deaths + 1;
    }

    /** A respawn asked for too early changes nothing. */
    method RequestRespawn(id: nat, tick: nat) returns (outcome: SpawnOutcome)
      requires Valid()
      modifies this, registry
      ensures Valid() && Respawned(Abs(), outcome) == PlayerModel.RequestRespawn(old(Abs()), id, tick)
    {
      var record := GetRecord(id);
      if record.None? {
        return RespawnRejected;
      }
      var next := ApplyRespawn(record.value, tick, config.respawnDelayTicks);
      if next.None? {
        return RespawnRejected;
      }
      if next.value != Active {
        return RespawnRejected;
      }
      ghost var p := Abs();
      UpdateRecord(Revival(record.value, tick));
      respawns := respawns + 1;
      assert Abs() == CountRespawn(PlayerModel.UpdateRecord(p, Revival(record.value, tick)));
      return Spawned;
    }
  }
}
