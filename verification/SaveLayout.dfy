/** Where every part of a save lies, and how: what is loaded, for all bytes that load. */
module SaveLayout {
  import opened Prelude
  import opened Wire
  import opened SnapshotTypes
  import opened SaveModel
  import opened SaveTheorems

  // ----------------------------------------------------------------------- the records

  /** The bytes of each kind of record, whoever writes them. */
  function WorldLayout(r: WorldRecord): seq<u8> {
    LE(r.simulationTick, 8) + LE(r.worldTimeSeconds, 8) + Words(r.weatherId, r.globalStateFlags, r.zoneConfigId)
  }

  function EntityLayout(r: EntityRecord): seq<u8> {
    (LE(r.id, 4) + Words(r.position.x, r.position.y, r.position.z) + Words(r.velocity.x, r.velocity.y, r.velocity.z))
    + (Words(r.stateFlags, r.runtimeFlags, r.inventoryRef) + LE(r.owner, 4) + LE(r.runtimeState, 8))
    + LE(r.relationship, 4)
  }

  function PlayerLayout(r: PlayerRecord): seq<u8> {
    (LE(r.id, 4) + LE(r.entity, 4) + Words(r.position.x, r.position.y, r.position.z))
    + Words(r.statistics, r.questProgress, r.factionId) + [r.connectionState]
  }

  function AlifeLayout(r: AlifeRecord): seq<u8> {
    Words(r.smartTerrainId, r.taskManagerState, r.simulationState)
    + Words(r.offlineObject, r.npcSchedule, r.factionPlannerState) + LE(r.storyLinkId, 4)
  }

  function SchedulerLayout(r: SchedulerRecord): seq<u8> {
    LE(r.simulationTick, 8) + Words(r.pendingUpdates, r.queueDepth, r.deferredTasks) + LE(r.executionOrder, 8)
  }

  lemma WorldReads(d: seq<u8>, at: nat, r: WorldRecord)
    requires Occurs(d, at, WorldLayout(r))
    ensures at + 28 <= |d| && WorldAt(d, at) == r
  {
    hide Words;
    OccursSplit3(d, at, LE(r.simulationTick, 8), LE(r.worldTimeSeconds, 8),
                 Words(r.weatherId, r.globalStateFlags, r.zoneConfigId));
    LongOccurs(d, at, r.simulationTick);
    LongOccurs(d, at + 8, r.worldTimeSeconds);
    WordsOccur(d, at + 16, r.weatherId, r.globalStateFlags, r.zoneConfigId);
  }

  lemma EntityReads(d: seq<u8>, at: nat, r: EntityRecord)
    requires Occurs(d, at, EntityLayout(r))
    ensures at + 56 <= |d| && EntityAt(d, at) == r
  {
    hide Words;
    var position := Words(r.position.x, r.position.y, r.position.z);
    var velocity := Words(r.velocity.x, r.velocity.y, r.velocity.z);
    var state := Words(r.stateFlags, r.runtimeFlags, r.inventoryRef);
    OccursSplit3(d, at, LE(r.id, 4) + position + velocity, state + LE(r.owner, 4) + LE(r.runtimeState, 8),
                 LE(r.relationship, 4));
    OccursSplit3(d, at, LE(r.id, 4), position, velocity);
    OccursSplit3(d, at + 28, state, LE(r.owner, 4), LE(r.runtimeState, 8));
    WordOccurs(d, at, r.id);
    WordsOccur(d, at + 4, r.position.x, r.position.y, r.position.z);
    WordsOccur(d, at + 16, r.velocity.x, r.velocity.y, r.velocity.z);
    WordsOccur(d, at + 28, r.stateFlags, r.runtimeFlags, r.inventoryRef);
    WordOccurs(d, at + 40, r.owner);
    LongOccurs(d, at + 44, r.runtimeState);
    WordOccurs(d, at + 52, r.relationship);
  }

  lemma PlayerReads(d: seq<u8>, at: nat, r: PlayerRecord)
    requires Occurs(d, at, PlayerLayout(r))
    ensures at + 33 <= |d| && PlayerAt(d, at) == r
  {
    hide Words;
    var position := Words(r.position.x, r.position.y, r.position.z);
    var state := Words(r.statistics, r.questProgress, r.factionId);
    OccursSplit3(d, at, LE(r.id, 4) + LE(r.entity, 4) + position, state, [r.connectionState]);
    OccursSplit3(d, at, LE(r.id, 4), LE(r.entity, 4), position);
    WordOccurs(d, at, r.id);
    WordOccurs(d, at + 4, r.entity);
    WordsOccur(d, at + 8, r.position.x, r.position.y, r.position.z);
    WordsOccur(d, at + 20, r.statistics, r.questProgress, r.factionId);
    assert d[at + 32] == d[at + 32..at + 33][0];
  }

  lemma AlifeReads(d: seq<u8>, at: nat, r: AlifeRecord)
    requires Occurs(d, at, AlifeLayout(r))
    ensures at + 28 <= |d| && AlifeAt(d, at) == r
  {
    hide Words;
    var a := Words(r.smartTerrainId, r.taskManagerState, r.simulationState);
    var b := Words(r.offlineObject, r.npcSchedule, r.factionPlannerState);
    OccursSplit3(d, at, a, b, LE(r.storyLinkId, 4));
    WordsOccur(d, at, r.smartTerrainId, r.taskManagerState, r.simulationState);
    WordsOccur(d, at + 12, r.offlineObject, r.npcSchedule, r.factionPlannerState);
    WordOccurs(d, at + 24, r.storyLinkId);
  }

  lemma SchedulerReads(d: seq<u8>, at: nat, r: SchedulerRecord)
    requires Occurs(d, at, SchedulerLayout(r))
    ensures at + 28 <= |d| && SchedulerAt(d, at) == r
  {
    hide Words;
    OccursSplit3(d, at, LE(r.simulationTick, 8), Words(r.pendingUpdates, r.queueDepth, r.deferredTasks),
                 LE(r.executionOrder, 8));
    LongOccurs(d, at, r.simulationTick);
    WordsOccur(d, at + 8, r.pendingUpdates, r.queueDepth, r.deferredTasks);
    LongOccurs(d, at + 20, r.executionOrder);
  }

  /**
   * A record of any values is read back as it was laid out, also the fields the writer has no source for and
   * leaves at zero.
   */
  lemma RecordsRead(d: seq<u8>, at: nat, w: WorldRecord, e: EntityRecord, p: PlayerRecord, a: AlifeRecord,
                    s: SchedulerRecord)
    ensures Occurs(d, at, WorldLayout(w)) ==> at + 28 <= |d| && WorldAt(d, at) == w
    ensures Occurs(d, at, EntityLayout(e)) ==> at + 56 <= |d| && EntityAt(d, at) == e
    ensures Occurs(d, at, PlayerLayout(p)) ==> at + 33 <= |d| && PlayerAt(d, at) == p
    ensures Occurs(d, at, AlifeLayout(a)) ==> at + 28 <= |d| && AlifeAt(d, at) == a
    ensures Occurs(d, at, SchedulerLayout(s)) ==> at + 28 <= |d| && SchedulerAt(d, at) == s
  {
    hide Occurs, WorldLayout, EntityLayout, PlayerLayout, AlifeLayout, SchedulerLayout;
    hide WorldAt, EntityAt, PlayerAt, AlifeAt, SchedulerAt;
    if Occurs(d, at, WorldLayout(w)) {
      WorldReads(d, at, w);
    }
    if Occurs(d, at, EntityLayout(e)) {
      EntityReads(d, at, e);
    }
    if Occurs(d, at, PlayerLayout(p)) {
      PlayerReads(d, at, p);
    }
    if Occurs(d, at, AlifeLayout(a)) {
      AlifeReads(d, at, a);
    }
    if Occurs(d, at, SchedulerLayout(s)) {
      SchedulerReads(d, at, s);
    }
  }

  // ------------------------------------------------------------------------- the lists

  /** Records of one size, one after the other. */
  lemma {:induction false} EntitiesLie(d: seq<u8>, at: nat, n: nat, i: nat)
    requires at + 56 * n <= |d| && i < n
    ensures EntitiesAt(d, at, n)[i] == EntityAt(d, at + 56 * i)
  {
    hide EntityAt;
    if i < n - 1 {
      EntitiesLie(d, at, n - 1, i);
    }
  }

  lemma {:induction false} PlayersLie(d: seq<u8>, at: nat, n: nat, i: nat)
    requires at + 33 * n <= |d| && i < n
    ensures PlayersAt(d, at, n)[i] == PlayerAt(d, at + 33 * i)
  {
    hide PlayerAt;
    if i < n - 1 {
      PlayersLie(d, at, n - 1, i);
    }
  }

  lemma {:induction false} AlifesLie(d: seq<u8>, at: nat, n: nat, i: nat)
    requires at + 28 * n <= |d| && i < n
    ensures AlifesAt(d, at, n)[i] == AlifeAt(d, at + 28 * i)
  {
    hide AlifeAt;
    if i < n - 1 {
      AlifesLie(d, at, n - 1, i);
    }
  }

  // ------------------------------------------------------------------------- the sections

  /** Where the eight sections lie, by the counts they state. */
  datatype Places = Places(players: nat, alife: nat, scheduler: nat, metadata: nat)

  /** The counted sections push what follows them along. */
  ghost predicate Lies(d: seq<u8>, p: Places) {
    && 78 <= p.players && p.players + 10 <= p.alife && p.alife + 10 <= p.scheduler && p.scheduler + 40 <= p.metadata
    && p.metadata + 54 <= |d|
    && p.players == 78 + 56 * Word(d, 74)
    && p.alife == p.players + 10 + 33 * Word(d, p.players + 6)
    && p.scheduler == p.alife + 10 + 28 * Word(d, p.alife + 6)
    && p.metadata == p.scheduler + 40 + Word(d, p.scheduler + 36)
  }

  ghost predicate FixedFrom(d: seq<u8>, p: Places, save: LoadedSave)
    requires Lies(d, p)
  {
    && save.world == WorldAt(d, 14) && save.environment == EnvironmentAt(d, 48)
    && save.scheduler == SchedulerAt(d, p.scheduler + 6) && save.metadata == MetadataAt(d, p.metadata + 6)
  }

  ghost predicate ListsFrom(d: seq<u8>, p: Places, save: LoadedSave)
    requires Lies(d, p)
  {
    && |save.entities| == Word(d, 74) && |save.players| == Word(d, p.players + 6)
    && |save.alife| == Word(d, p.alife + 6)
    && (forall i :: 0 <= i < |save.entities| ==> save.entities[i] == EntityAt(d, 78 + 56 * i))
    && (forall i :: 0 <= i < |save.players| ==> save.players[i] == PlayerAt(d, p.players + 10 + 33 * i))
    && (forall i :: 0 <= i < |save.alife| ==> save.alife[i] == AlifeAt(d, p.alife + 10 + 28 * i))
  }

  lemma Peel(d: seq<u8>, ids: seq<u16>, id: u16, rest: seq<u16>, c: Cursor) returns (next: Cursor)
    requires ids == [id] + rest && ParseSections(d, ids, c).Parsed?
    ensures ReadSection(d, id, c) == Some(next) && ParseSections(d, rest, next) == ParseSections(d, ids, c)
  {
    hide ReadSection;
    next := ReadSection(d, id, c).value;
    assert ids[1..] == rest;
  }

  /** World, environment, registry, players. */
  lemma FrontReads(d: seq<u8>, rest: seq<u16>, c: Cursor) returns (next: Cursor, players: nat)
    requires c.at == 8 && ParseSections(d, [WORLD, ENVIRONMENT, REGISTRY, PLAYERS] + rest, c).Parsed?
    ensures 78 <= |d| && players == 78 + 56 * Word(d, 74) && players + 10 <= |d|
    ensures next.at == players + 10 + 33 * Word(d, players + 6) <= |d|
    ensures next.save == c.save.(
      world := WorldAt(d, 14), environment := EnvironmentAt(d, 48), entities := EntitiesAt(d, 78, Word(d, 74)),
      players := PlayersAt(d, players + 10, Word(d, players + 6)))
    ensures ParseSections(d, [WORLD, ENVIRONMENT, REGISTRY, PLAYERS] + rest, c) == ParseSections(d, rest, next)
  {
    hide ParseSections, WorldAt, EnvironmentAt, EntitiesAt, PlayersAt, Word, Field;
    var c1 := Peel(d, [WORLD, ENVIRONMENT, REGISTRY, PLAYERS] + rest, WORLD,
                   [ENVIRONMENT, REGISTRY, PLAYERS] + rest, c);
    var c2 := Peel(d, [ENVIRONMENT, REGISTRY, PLAYERS] + rest, ENVIRONMENT, [REGISTRY, PLAYERS] + rest, c1);
    var c3 := Peel(d, [REGISTRY, PLAYERS] + rest, REGISTRY, [PLAYERS] + rest, c2);
    next := Peel(d, [PLAYERS] + rest, PLAYERS, rest, c3);
    players := c3.at;
  }

  /** A-Life, scheduler, story, metadata. */
  lemma BackReads(d: seq<u8>, c: Cursor) returns (next: Cursor, scheduler: nat, metadata: nat)
    requires ParseSections(d, [ALIFE, SCHEDULER, STORY, METADATA], c).Parsed?
    ensures c.at + 10 <= |d| && scheduler == c.at + 10 + 28 * Word(d, c.at + 6) && scheduler + 40 <= |d|
    ensures metadata == scheduler + 40 + Word(d, scheduler + 36) && metadata + 46 == next.at <= |d|
    ensures next.save == c.save.(
      alife := AlifesAt(d, c.at + 10, Word(d, c.at + 6)), scheduler := SchedulerAt(d, scheduler + 6),
      metadata := MetadataAt(d, metadata + 6))
    ensures ParseSections(d, [ALIFE, SCHEDULER, STORY, METADATA], c) == ParseSections(d, [], next)
  {
    hide ParseSections, AlifesAt, SchedulerAt, MetadataAt, Word, Field;
    var c1 := Peel(d, [ALIFE, SCHEDULER, STORY, METADATA], ALIFE, [SCHEDULER, STORY, METADATA], c);
    var c2 := Peel(d, [SCHEDULER, STORY, METADATA], SCHEDULER, [STORY, METADATA], c1);
    var c3 := Peel(d, [STORY, METADATA], STORY, [METADATA], c2);
    next := Peel(d, [METADATA], METADATA, [], c3);
    scheduler, metadata := c1.at, c3.at;
  }

  lemma {:induction false} ListsLie(d: seq<u8>, p: Places, save: LoadedSave)
    requires Lies(d, p)
    requires save.entities == EntitiesAt(d, 78, Word(d, 74))
    requires save.players == PlayersAt(d, p.players + 10, Word(d, p.players + 6))
    requires save.alife == AlifesAt(d, p.alife + 10, Word(d, p.alife + 6))
    ensures ListsFrom(d, p, save)
  {
    hide EntityAt, PlayerAt, AlifeAt, EntitiesAt, PlayersAt, AlifesAt, Word;
    forall i | 0 <= i < |save.entities| ensures save.entities[i] == EntityAt(d, 78 + 56 * i) {
      EntitiesLie(d, 78, Word(d, 74), i);
    }
    forall i | 0 <= i < |save.players| ensures save.players[i] == PlayerAt(d, p.players + 10 + 33 * i) {
      PlayersLie(d, p.players + 10, Word(d, p.players + 6), i);
    }
    forall i | 0 <= i < |save.alife| ensures save.alife[i] == AlifeAt(d, p.alife + 10 + 28 * i) {
      AlifesLie(d, p.alife + 10, Word(d, p.alife + 6), i);
    }
  }

  /** Whatever bytes load, this is what they load as: every part from its place, every record of every list. */
  lemma LoadedIs(d: seq<u8>) returns (p: Places)
    requires Parse(d).Parsed?
    ensures Lies(d, p) && FixedFrom(d, p, Parse(d).save) && ListsFrom(d, p, Parse(d).save)
  {
    hide ParseSections, WorldAt, EnvironmentAt, SchedulerAt, MetadataAt, EntitiesAt, PlayersAt, AlifesAt, Word, Lies;
    var back := [ALIFE, SCHEDULER, STORY, METADATA];
    assert ORDER == [WORLD, ENVIRONMENT, REGISTRY, PLAYERS] + back;
    var c, players := FrontReads(d, back, Cursor(8, NO_SAVE));
    var e, scheduler, metadata := BackReads(d, c);
    p := Places(players, c.at, scheduler, metadata);
    TrailerLast(d, e);
    PlacesLie(d, p);
    ListsLie(d, p, e.save);
  }

  lemma {:induction false} TrailerLast(d: seq<u8>, c: Cursor)
    requires ParseSections(d, [], c).Parsed?
    ensures c.at + 8 <= |d| && ParseSections(d, [], c) == Parsed(c.save)
  {
  }

  lemma PlacesLie(d: seq<u8>, p: Places)
    requires 78 <= p.players && p.players + 10 <= p.alife && p.alife + 10 <= p.scheduler
    requires p.scheduler + 40 <= p.metadata && p.metadata + 54 <= |d|
    requires p.players == 78 + 56 * Word(d, 74)
    requires p.alife == p.players + 10 + 33 * Word(d, p.players + 6)
    requires p.scheduler == p.alife + 10 + 28 * Word(d, p.alife + 6)
    requires p.metadata == p.scheduler + 40 + Word(d, p.scheduler + 36)
    ensures Lies(d, p)
  {
    hide Word;
  }
}
