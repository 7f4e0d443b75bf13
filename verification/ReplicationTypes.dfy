/** Replication value types and the frozen classification table of ReplicationClassifier.h. */
module ReplicationTypes {
  import opened Prelude
  import opened SnapshotTypes

  /** What a client is told of an entity: the tracked fields and their version. */
  datatype EntityState = EntityState(id: u32, position: Vec3, velocity: Vec3, stateFlags: u32, version: u32)

  datatype ChangeSet = ChangeSet(added: seq<EntityState>, changed: seq<EntityState>, removed: seq<u32>)

  /** In wire order: the position in the list is the value on the wire. */
  datatype Kind =
    | NoKind | Player | Combat | Damage | EntitySpawn | EntityRemove | NearbyNpc | Inventory | Animation
    | AmbientObject | WeatherUpdate | DistantEntity | Position | Rotation | Velocity | Camera | QuestUpdate
    | PlayerJoin | PlayerLeave

  datatype Reliability = Unreliable | Reliable

  datatype Priority = Low | Medium | High

  datatype Record = Record(kind: Kind, entity: EntityState, reliability: Reliability, priority: Priority)

  predicate IsReliable(k: Kind) {
    k in {EntitySpawn, EntityRemove, Inventory, QuestUpdate, PlayerJoin, PlayerLeave, Combat, Damage}
  }

  function ClassifyReliability(k: Kind): Reliability {
    if IsReliable(k) then Reliable else Unreliable
  }

  function ClassifyPriority(k: Kind): Priority {
    match k
    case Player | Combat | Damage | EntitySpawn | EntityRemove | PlayerJoin | PlayerLeave => High
    case NearbyNpc | Inventory | Animation | Position | Rotation | Velocity | QuestUpdate => Medium
    case AmbientObject | WeatherUpdate | DistantEntity | Camera | NoKind => Low
  }

  function KindCode(k: Kind): u8 {
    match k
    case NoKind => 0 case Player => 1 case Combat => 2 case Damage => 3 case EntitySpawn => 4
    case EntityRemove => 5 case NearbyNpc => 6 case Inventory => 7 case Animation => 8
    case AmbientObject => 9 case WeatherUpdate => 10 case DistantEntity => 11 case Position => 12
    case Rotation => 13 case Velocity => 14 case Camera => 15 case QuestUpdate => 16
    case PlayerJoin => 17 case PlayerLeave => 18
  }

  function PriorityCode(p: Priority): u8 {
    match p case Low => 0 case Medium => 1 case High => 2
  }

  function ReliabilityCode(r: Reliability): u8 {
    match r case Unreliable => 0 case Reliable => 1
  }

  function MakeRecord(kind: Kind, entity: EntityState): Record {
    Record(kind, entity, ClassifyReliability(kind), ClassifyPriority(kind))
  }

  ghost predicate AscendingStates(s: seq<EntityState>) {
    forall i, j :: 0 <= i < j < |s| ==> s[i].id < s[j].id
  }

  ghost predicate AscendingIds(s: seq<u32>) {
    forall i, j :: 0 <= i < j < |s| ==> s[i] < s[j]
  }
}
