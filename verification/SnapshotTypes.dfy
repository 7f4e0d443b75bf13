/** Snapshot value types and the Building/Finalized gate of SimulationSnapshot.cpp as functions. */
module SnapshotTypes {
  import opened Prelude

  /** Three floats by their bit patterns. */
  datatype Vec3 = Vec3(x: u32, y: u32, z: u32)

  datatype EntitySnapshot = EntitySnapshot(
    id: u32, position: Vec3, velocity: Vec3, state: u32, flags: u32, inventoryRef: u32, runtimeState: u64)

  datatype PlayerSnapshot = PlayerSnapshot(
    id: u32, entity: u32, connectionState: u8, position: Vec3, simulationState: u32, authorityFlags: u32)

  datatype EnvironmentSnapshot = EnvironmentSnapshot(
    simulationTick: u64, weatherId: u32, timeOfDaySeconds: u32, emissionState: u32, lighting: u32,
    environmentVersion: u32)

  datatype SnapshotState = Building | Finalized | Published | Retired

  datatype Metadata = Metadata(
    id: nat, simulationTick: u64, version: u32, entityCount: u32, playerCount: u32,
    timestampWallClock: u64, state: SnapshotState)

  /** The contents of one buffer. */
  datatype Snapshot = Snapshot(
    metadata: Metadata, entities: seq<EntitySnapshot>, players: seq<PlayerSnapshot>,
    environment: EnvironmentSnapshot)

  const EMPTY_ENVIRONMENT := EnvironmentSnapshot(0, 0, 0, 0, 0, 0)

  const FRESH_SNAPSHOT := Snapshot(Metadata(0, 0, 0, 0, 0, 0, Building), [], [], EMPTY_ENVIRONMENT)

  ghost predicate AscendingEntities(es: seq<EntitySnapshot>) {
    && (forall i :: 0 <= i < |es| ==> es[i].id != 0)
    && (forall i, j :: 0 <= i < j < |es| ==> es[i].id < es[j].id)
  }

  ghost predicate AscendingPlayers(ps: seq<PlayerSnapshot>) {
    && (forall i :: 0 <= i < |ps| ==> ps[i].id != 0)
    && (forall i, j :: 0 <= i < j < |ps| ==> ps[i].id < ps[j].id)
  }

  // ------------------------------------------------------------- SimulationSnapshot

  function Begun(id: nat, tick: u64, version: u32): Snapshot {
    Snapshot(Metadata(id, tick, version, 0, 0, 0, Building), [], [], EMPTY_ENVIRONMENT)
  }

  /** AddEntity succeeds on a building buffer for a non-zero id above the last one. */
  predicate CanAddEntity(s: Snapshot, e: EntitySnapshot) {
    && s.metadata.state == Building && e.id != 0
    && (s.entities != [] ==> s.entities[|s.entities| - 1].id < e.id)
  }

  predicate CanAddPlayer(s: Snapshot, p: PlayerSnapshot) {
    && s.metadata.state == Building && p.id != 0
    && (s.players != [] ==> s.players[|s.players| - 1].id < p.id)
  }

  function Sealed(s: Snapshot): Snapshot {
    s.(metadata := s.metadata.(
         entityCount := Low32(|s.entities|), playerCount := Low32(|s.players|), state := Finalized))
  }

  /** Ascending content, and counts that match it once it is sealed. */
  ghost predicate WellFormed(s: Snapshot) {
    && AscendingEntities(s.entities)
    && AscendingPlayers(s.players)
    && (s.metadata.state != Building ==>
          s.metadata.entityCount == Low32(|s.entities|) && s.metadata.playerCount == Low32(|s.players|))
  }
}
