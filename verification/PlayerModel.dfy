/** PlayerLifecycle.cpp, and PlayerManager.cpp over the sorted records of PlayerRegistry.cpp, on values. */
module PlayerModel {
  import opened Prelude

  datatype Lifecycle = Joining | Active | Dead | AwaitingRespawn | Suspended | Removed

  datatype ConnectionState = Connected | ConnectionSuspended | Reclaimed

  /** The default spawn position is the origin; only player and tick vary. */
  datatype PlayerPosition = PlayerPosition(player: nat, lastUpdateTick: nat)

  datatype PlayerRecord = PlayerRecord(
    id: nat, connection: nat, sessionMember: nat, entity: nat, lifecycle: Lifecycle, connectionState: ConnectionState,
    lastPosition: PlayerPosition, joinTick: nat, respawnEligibleTick: nat, reconnectToken: nat)

  datatype Config = Config(capacity: nat, maxPlayers: nat, respawnDelayTicks: nat)

  /** `spawns` and `despawns` count the calls the gateway answered with an entity, and the rollbacks. */
  datatype Players = Players(
    config: Config, records: seq<PlayerRecord>, nextId: nat, deaths: nat, respawns: nat, lastJoinTick: nat,
    spawns: nat, despawns: nat)

  datatype JoinOutcome = Accepted | RejectedCapacity | RejectedDuplicate | RejectedInvalid | RejectedSpawnFailed

  datatype SpawnOutcome = Spawned | RespawnRejected

  // -------------------------------------------------------------------------- the lifecycle

  function ApplyJoin(l: Lifecycle): Option<Lifecycle> {
    if l == Joining then Some(Active) else None
  }

  function ApplyDeath(l: Lifecycle): Option<Lifecycle> {
    if l == Active then Some(Dead) else None
  }

  /** From Dead or AwaitingRespawn; Active from the scheduled tick on, which is derived if none is set. */
  function ApplyRespawn(r: PlayerRecord, tick: nat, delay: nat): Option<Lifecycle> {
    if r.lifecycle != Dead && r.lifecycle != AwaitingRespawn then None
    else
      var eligible := if r.respawnEligibleTick != 0 then r.respawnEligibleTick else tick + delay;
      Some(if tick >= eligible then Active else AwaitingRespawn)
  }

  function ApplySuspend(l: Lifecycle): Option<Lifecycle> {
    if l == Active || l == Dead || l == AwaitingRespawn then Some(Suspended) else None
  }

  // --------------------------------------------------------------------------- the registry

  function Ids(records: seq<PlayerRecord>): (k: seq<nat>)
    ensures |k| == |records| && forall i :: 0 <= i < |records| ==> k[i] == records[i].id
  {
    seq(|records|, i requires 0 <= i < |records| => records[i].id)
  }

  function Connections(records: seq<PlayerRecord>): (k: seq<nat>)
    ensures |k| == |records| && forall i :: 0 <= i < |records| ==> k[i] == records[i].connection
  {
    seq(|records|, i requires 0 <= i < |records| => records[i].connection)
  }

  function SessionMembers(records: seq<PlayerRecord>): (k: seq<nat>)
    ensures |k| == |records| && forall i :: 0 <= i < |records| ==> k[i] == records[i].sessionMember
  {
    seq(|records|, i requires 0 <= i < |records| => records[i].sessionMember)
  }

  function Entities(records: seq<PlayerRecord>): (k: seq<nat>)
    ensures |k| == |records| && forall i :: 0 <= i < |records| ==> k[i] == records[i].entity
  {
    seq(|records|, i requires 0 <= i < |records| => records[i].entity)
  }

  /** A linear scan for a key, the last match counting. */
  function LastIndex(keys: seq<nat>, k: nat): (r: Option<nat>)
    ensures r.Some? ==> r.value < |keys| && keys[r.value] == k && forall i :: r.value < i < |keys| ==> keys[i] != k
    ensures r.None? ==> k !in keys
  {
    if keys == [] then None
    else if keys[|keys| - 1] == k then Some(|keys| - 1)
    else LastIndex(keys[..|keys| - 1], k)
  }

  /** Insertion before the first larger id. */
  function Placed(records: seq<PlayerRecord>, r: PlayerRecord): seq<PlayerRecord> {
    if records == [] || records[|records| - 1].id < r.id then records + [r]
    else Placed(records[..|records| - 1], r) + [records[|records| - 1]]
  }

  function Insert(records: seq<PlayerRecord>, r: PlayerRecord, capacity: nat): Option<seq<PlayerRecord>> {
    if r.id == 0 || |records| >= capacity || r.id in Ids(records) then None else Some(Placed(records, r))
  }

  function Retire(records: seq<PlayerRecord>, id: nat): seq<PlayerRecord> {
    match LastIndex(Ids(records), id)
    case None => records
    case Some(i) => if id == 0 then records else records[..i] + records[i + 1..]
  }

  // ---------------------------------------------------------------------------- the manager

  /** Retire, then insert; a failed insert would lose the record. */
  function UpdateRecord(p: Players, r: PlayerRecord): Players {
    var rest := Retire(p.records, r.id);
    match Insert(rest, r, p.config.capacity)
    case Some(records) => p.(records := records)
    case None => p.(records := rest)
  }

  datatype Joined = Joined(players: Players, outcome: JoinOutcome)

  function NewRecord(id: nat, connection: nat, entity: nat, tick: nat): PlayerRecord {
    PlayerRecord(id, connection, connection, entity, Active, Connected, PlayerPosition(id, tick), tick, 0, 0)
  }

  /** `spawn` is the gateway's answer, were it asked: an entity, or a failure. */
  function RequestJoin(p: Players, connection: nat, spawn: Option<nat>, tick: nat): Joined {
    if connection == 0 then Joined(p, RejectedInvalid)
    else if LastIndex(Connections(p.records), connection).Some? then Joined(p, RejectedDuplicate)
    else if |p.records| >= p.config.maxPlayers then Joined(p, RejectedCapacity)
    else
      match spawn
      case None => Joined(Allocated(p), RejectedSpawnFailed)
      case Some(entity) => Admit(Allocated(p), NewRecord(p.nextId, connection, entity, tick), tick)
  }

  function Allocated(p: Players): Players {
    p.(nextId := p.nextId + 1)
  }

  /** The entity is there; if its record cannot be stored the entity is rolled back. */
  function Admit(p: Players, r: PlayerRecord, tick: nat): Joined {
    match Insert(p.records, r, p.config.capacity)
    case None => Joined(RolledBack(p), RejectedCapacity)
    case Some(records) => Joined(Stored(p, records, tick), Accepted)
  }

  function RolledBack(p: Players): Players {
    p.(spawns := p.spawns + 1, despawns := p.despawns + 1)
  }

  function Stored(p: Players, records: seq<PlayerRecord>, tick: nat): Players {
    p.(records := records, spawns := p.spawns + 1, lastJoinTick := tick)
  }

  function Suspension(r: PlayerRecord, token: nat): PlayerRecord {
    r.(lifecycle := Suspended, connectionState := ConnectionSuspended, reconnectToken := token, connection := 0)
  }

  /** A disconnect always retains the record and its entity. */
  function SuspendOnLeave(p: Players, connection: nat, token: nat): Players {
    if connection == 0 then p
    else
      match LastIndex(Connections(p.records), connection)
      case None => p
      case Some(i) =>
        var r := p.records[i];
        if ApplySuspend(r.lifecycle).None? then p else UpdateRecord(p, Suspension(r, token))
  }

  function NotifyDeath(p: Players, id: nat, tick: nat): Joined {
    match LastIndex(Ids(p.records), id)
    case None => Joined(p, RejectedInvalid)
    case Some(i) =>
      var r := p.records[i];
      if ApplyDeath(r.lifecycle).None? then Joined(p, RejectedInvalid)
      else Joined(CountDeath(UpdateRecord(p, Death(r, tick + p.config.respawnDelayTicks))), Accepted)
  }

  function Death(r: PlayerRecord, eligibleTick: nat): PlayerRecord {
    r.(lifecycle := Dead, respawnEligibleTick := eligibleTick)
  }

  function CountDeath(p: Players): Players {
    p.(deaths := p.deaths + 1)
  }

  function Revival(r: PlayerRecord, tick: nat): PlayerRecord {
    r.(lifecycle := Active, lastPosition := PlayerPosition(r.id, tick), respawnEligibleTick := 0)
  }

  function CountRespawn(p: Players): Players {
    p.(respawns := p.respawns + 1)
  }

  datatype Respawned = Respawned(players: Players, outcome: SpawnOutcome)

  /** The entity survives death: a respawn re-activates and repositions, it does not spawn. */
  function RequestRespawn(p: Players, id: nat, tick: nat): Respawned {
    match LastIndex(Ids(p.records), id)
    case None => Respawned(p, RespawnRejected)
    case Some(i) =>
      var r := p.records[i];
      if ApplyRespawn(r, tick, p.config.respawnDelayTicks) != Some(Active) then Respawned(p, RespawnRejected)
      else Respawned(CountRespawn(UpdateRecord(p, Revival(r, tick))), Spawned)
  }

  datatype Event =
    | JoinEvent(connection: nat, spawn: Option<nat>, tick: nat)
    | LeaveEvent(connection: nat, token: nat)
    | DeathEvent(id: nat, tick: nat)
    | RespawnEvent(id: nat, tick: nat)

  function Step(p: Players, e: Event): Players {
    match e
    case JoinEvent(connection, spawn, tick) => RequestJoin(p, connection, spawn, tick).players
    case LeaveEvent(connection, token) => SuspendOnLeave(p, connection, token)
    case DeathEvent(id, tick) => NotifyDeath(p, id, tick).players
    case RespawnEvent(id, tick) => RequestRespawn(p, id, tick).players
  }

  function Initial(config: Config): Players {
    Players(config, [], 1, 0, 0, 0, 0, 0)
  }

  function Run(config: Config, events: seq<Event>): Players {
    if events == [] then Initial(config)
    else Step(Run(config, events[..|events| - 1]), events[|events| - 1])
  }
}
