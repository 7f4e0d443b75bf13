/** The save format: records, section layouts, and parsing as a function of the bytes. */
module SaveModel {
  import opened Prelude
  import opened Wire
  import opened SnapshotTypes

  datatype SaveMetadata = SaveMetadata(
    saveId: u64, simulationTick: u64, playerCount: u32, entityCount: u32, worldVersion: u32, buildVersion: u32,
    checksum: u64, timestampWallClock: u64)

  datatype WorldRecord = WorldRecord(
    simulationTick: u64, worldTimeSeconds: u64, weatherId: u32, globalStateFlags: u32, zoneConfigId: u32)

  datatype EnvironmentRecord = EnvironmentRecord(
    weatherId: u32, timeOfDaySeconds: u32, emissionState: u32, lighting: u32, environmentVersion: u32)

  datatype EntityRecord = EntityRecord(
    id: u32, position: Vec3, velocity: Vec3, stateFlags: u32, runtimeFlags: u32, inventoryRef: u32, owner: u32,
    runtimeState: u64, relationship: u32)

  datatype PlayerRecord = PlayerRecord(
    id: u32, entity: u32, position: Vec3, statistics: u32, questProgress: u32, factionId: u32, connectionState: u8)

  datatype AlifeRecord = AlifeRecord(
    smartTerrainId: u32, taskManagerState: u32, simulationState: u32, offlineObject: u32, npcSchedule: u32,
    factionPlannerState: u32, storyLinkId: u32)

  datatype SchedulerRecord = SchedulerRecord(
    simulationTick: u64, pendingUpdates: u32, queueDepth: u32, deferredTasks: u32, executionOrder: u64)

  datatype LoadedSave = LoadedSave(
    metadata: SaveMetadata, world: WorldRecord, environment: EnvironmentRecord, entities: seq<EntityRecord>,
    players: seq<PlayerRecord>, alife: seq<AlifeRecord>, scheduler: SchedulerRecord)

  datatype Outcome = Ok | CorruptedSave | VersionMismatch | ChecksumFailure | IntegrityFailure | MissingData

  datatype ParseResult = Parsed(save: LoadedSave) | Failed(outcome: Outcome)

  const MAGIC: u32 := 0x53504D53
  const FORMAT_VERSION: u32 := 1

  const WORLD: u16 := 1
  const ENVIRONMENT: u16 := 2
  const REGISTRY: u16 := 3
  const PLAYERS: u16 := 4
  const ALIFE: u16 := 5
  const SCHEDULER: u16 := 6
  const STORY: u16 := 7
  const METADATA: u16 := 8

  const SECTION_BYTES: nat := 6
  const WORLD_BYTES: nat := 28
  const ENVIRONMENT_BYTES: nat := 20
  const ENTITY_BYTES: nat := 56
  const PLAYER_BYTES: nat := 33
  const ALIFE_BYTES: nat := 28
  const SCHEDULER_BYTES: nat := 28
  const METADATA_BYTES: nat := 40

  /** FNV-1a over 64 bits: one byte, and a byte string. */
  function MixByte(h: u64, b: nat): u64 {
    Low64(Xor(h, b) * 1099511628211)
  }

  function Fnv64(bytes: seq<u8>): u64 {
    if bytes == [] then 1469598103934665603 else MixByte(Fnv64(bytes[..|bytes| - 1]), bytes[|bytes| - 1])
  }

  // ---------------------------------------------------------------- what the writer emits

  function Vec3Bytes(v: Vec3): (b: seq<u8>)
    ensures |b| == 12
  {
    Words(v.x, v.y, v.z)
  }

  function WorldBytes(s: Snapshot): (b: seq<u8>)
    ensures |b| == WORLD_BYTES
  {
    LE(s.metadata.simulationTick, 8) + LE(s.environment.timeOfDaySeconds, 8) + Words(s.environment.weatherId, 0, 0)
  }

  function EnvironmentBytes(e: EnvironmentSnapshot): (b: seq<u8>)
    ensures |b| == ENVIRONMENT_BYTES
  {
    Words(e.weatherId, e.timeOfDaySeconds, e.emissionState) + LE(e.lighting, 4) + LE(e.environmentVersion, 4)
  }

  /** Identity and motion, then state; owner and relationship have no source and are zero. */
  function EntityBytes(e: EntitySnapshot): (b: seq<u8>)
    ensures |b| == ENTITY_BYTES
  {
    (LE(e.id, 4) + Vec3Bytes(e.position) + Vec3Bytes(e.velocity))
    + (Words(e.state, e.flags, e.inventoryRef) + LE(0, 4) + LE(e.runtimeState, 8) + LE(0, 4))
  }

  function EntitiesBytes(es: seq<EntitySnapshot>): (b: seq<u8>)
    ensures |b| == ENTITY_BYTES * |es|
  {
    if es == [] then [] else EntitiesBytes(es[..|es| - 1]) + EntityBytes(es[|es| - 1])
  }

  function PlayerBytes(p: PlayerSnapshot): (b: seq<u8>)
    ensures |b| == PLAYER_BYTES
  {
    (LE(p.id, 4) + LE(p.entity, 4) + Vec3Bytes(p.position))
    + (Words(p.simulationState, 0, p.authorityFlags) + LE(p.connectionState, 1))
  }

  function PlayersBytes(ps: seq<PlayerSnapshot>): (b: seq<u8>)
    ensures |b| == PLAYER_BYTES * |ps|
  {
    if ps == [] then [] else PlayersBytes(ps[..|ps| - 1]) + PlayerBytes(ps[|ps| - 1])
  }

  function SchedulerBytes(s: Snapshot): (b: seq<u8>)
    ensures |b| == SCHEDULER_BYTES
  {
    LE(s.metadata.simulationTick, 8) + Words(0, 0, 0) + LE(0, 8)
  }

  /** The wall clock is not written. */
  function MetadataBytes(m: SaveMetadata): (b: seq<u8>)
    ensures |b| == METADATA_BYTES
  {
    (LE(m.saveId, 8) + LE(m.simulationTick, 8))
    + (LE(m.playerCount, 4) + Words(m.entityCount, m.worldVersion, m.buildVersion) + LE(m.checksum, 8))
  }

  /** A section: id, payload length, payload. */
  function Framed(id: u16, payload: seq<u8>): (b: seq<u8>)
    ensures |b| == SECTION_BYTES + |payload|
  {
    LE(id, 2) + LE(Low32(|payload|), 4) + payload
  }

  function HeaderBytes(): (b: seq<u8>)
    ensures |b| == 8
  {
    LE(MAGIC, 4) + LE(FORMAT_VERSION, 4)
  }

  function RegistryBytes(s: Snapshot): seq<u8> {
    LE(Low32(|s.entities|), 4) + EntitiesBytes(s.entities)
  }

  function PlayersSectionBytes(s: Snapshot): seq<u8> {
    LE(Low32(|s.players|), 4) + PlayersBytes(s.players)
  }

  /** The eight sections in file order. */
  function Sections(s: Snapshot, m: SaveMetadata): seq<(u16, seq<u8>)> {
    [(WORLD, WorldBytes(s)), (ENVIRONMENT, EnvironmentBytes(s.environment)), (REGISTRY, RegistryBytes(s)),
     (PLAYERS, PlayersSectionBytes(s)), (ALIFE, LE(0, 4)), (SCHEDULER, SchedulerBytes(s)), (STORY, []),
     (METADATA, MetadataBytes(m))]
  }

  function FramedAll(sections: seq<(u16, seq<u8>)>): seq<u8> {
    if sections == [] then [] else Framed(sections[0].0, sections[0].1) + FramedAll(sections[1..])
  }

  function Body(s: Snapshot, m: SaveMetadata): seq<u8> {
    HeaderBytes() + FramedAll(Sections(s, m))
  }

  function Serialized(s: Snapshot, m: SaveMetadata): seq<u8> {
    Body(s, m) + LE(Fnv64(Body(s, m)), 8)
  }

  // --------------------------------------------------------------- what the reader decodes

  function Long(d: seq<u8>, at: nat): u64
    requires at + 8 <= |d|
  {
    Widths();
    FromLEBound(d[at..at + 8]);
    Field(d, at, 8)
  }

  function Vec3At(d: seq<u8>, at: nat): Vec3
    requires at + 12 <= |d|
  {
    Vec3(Word(d, at), Word(d, at + 4), Word(d, at + 8))
  }

  function WorldAt(d: seq<u8>, at: nat): WorldRecord
    requires at + WORLD_BYTES <= |d|
  {
    WorldRecord(Long(d, at), Long(d, at + 8), Word(d, at + 16), Word(d, at + 20), Word(d, at + 24))
  }

  function EnvironmentAt(d: seq<u8>, at: nat): EnvironmentRecord
    requires at + ENVIRONMENT_BYTES <= |d|
  {
    EnvironmentRecord(Word(d, at), Word(d, at + 4), Word(d, at + 8), Word(d, at + 12), Word(d, at + 16))
  }

  function EntityAt(d: seq<u8>, at: nat): EntityRecord
    requires at + ENTITY_BYTES <= |d|
  {
    EntityRecord(Word(d, at), Vec3At(d, at + 4), Vec3At(d, at + 16), Word(d, at + 28), Word(d, at + 32),
                 Word(d, at + 36), Word(d, at + 40), Long(d, at + 44), Word(d, at + 52))
  }

  function PlayerAt(d: seq<u8>, at: nat): PlayerRecord
    requires at + PLAYER_BYTES <= |d|
  {
    PlayerRecord(Word(d, at), Word(d, at + 4), Vec3At(d, at + 8), Word(d, at + 20), Word(d, at + 24),
                 Word(d, at + 28), d[at + 32])
  }

  function AlifeAt(d: seq<u8>, at: nat): AlifeRecord
    requires at + ALIFE_BYTES <= |d|
  {
    AlifeRecord(Word(d, at), Word(d, at + 4), Word(d, at + 8), Word(d, at + 12), Word(d, at + 16),
                Word(d, at + 20), Word(d, at + 24))
  }

  function SchedulerAt(d: seq<u8>, at: nat): SchedulerRecord
    requires at + SCHEDULER_BYTES <= |d|
  {
    SchedulerRecord(Long(d, at), Word(d, at + 8), Word(d, at + 12), Word(d, at + 16), Long(d, at + 20))
  }

  function MetadataAt(d: seq<u8>, at: nat): SaveMetadata
    requires at + METADATA_BYTES <= |d|
  {
    SaveMetadata(Long(d, at), Long(d, at + 8), Word(d, at + 16), Word(d, at + 20), Word(d, at + 24),
                 Word(d, at + 28), Long(d, at + 32), 0)
  }

  function EntitiesAt(d: seq<u8>, at: nat, n: nat): (r: seq<EntityRecord>)
    requires at + ENTITY_BYTES * n <= |d|
    ensures |r| == n
  {
    if n == 0 then [] else EntitiesAt(d, at, n - 1) + [EntityAt(d, at + ENTITY_BYTES * (n - 1))]
  }

  function PlayersAt(d: seq<u8>, at: nat, n: nat): (r: seq<PlayerRecord>)
    requires at + PLAYER_BYTES * n <= |d|
    ensures |r| == n
  {
    if n == 0 then [] else PlayersAt(d, at, n - 1) + [PlayerAt(d, at + PLAYER_BYTES * (n - 1))]
  }

  function AlifesAt(d: seq<u8>, at: nat, n: nat): (r: seq<AlifeRecord>)
    requires at + ALIFE_BYTES * n <= |d|
    ensures |r| == n
  {
    if n == 0 then [] else AlifesAt(d, at, n - 1) + [AlifeAt(d, at + ALIFE_BYTES * (n - 1))]
  }

  const NO_SAVE := LoadedSave(
    SaveMetadata(0, 0, 0, 0, 0, 0, 0, 0), WorldRecord(0, 0, 0, 0, 0), EnvironmentRecord(0, 0, 0, 0, 0), [], [], [],
    SchedulerRecord(0, 0, 0, 0, 0))

  /** A section header with the expected id; the length it states is not checked. */
  predicate SectionAt(d: seq<u8>, at: nat, id: u16) {
    at + SECTION_BYTES <= |d| && Field(d, at, 2) == id
  }

  /** A counted section: the header, the count, and all of its records. */
  predicate CountedAt(d: seq<u8>, at: nat, id: u16, size: nat) {
    SectionAt(d, at, id) && at + 10 <= |d| && at + 10 + size * Word(d, at + 6) <= |d|
  }

  /** How far the reader has come: its position and what it has decoded. */
  datatype Cursor = Cursor(at: nat, save: LoadedSave)

  function ReadWorld(d: seq<u8>, c: Cursor): Option<Cursor> {
    if !SectionAt(d, c.at, WORLD) || c.at + 6 + WORLD_BYTES > |d| then None
    else Some(Cursor(c.at + 6 + WORLD_BYTES, c.save.(world := WorldAt(d, c.at + 6))))
  }

  function ReadEnvironment(d: seq<u8>, c: Cursor): Option<Cursor> {
    if !SectionAt(d, c.at, ENVIRONMENT) || c.at + 6 + ENVIRONMENT_BYTES > |d| then None
    else Some(Cursor(c.at + 6 + ENVIRONMENT_BYTES, c.save.(environment := EnvironmentAt(d, c.at + 6))))
  }

  function ReadRegistry(d: seq<u8>, c: Cursor): Option<Cursor> {
    if !CountedAt(d, c.at, REGISTRY, ENTITY_BYTES) then None
    else
      var n := Word(d, c.at + 6);
      Some(Cursor(c.at + 10 + ENTITY_BYTES * n, c.save.(entities := EntitiesAt(d, c.at + 10, n))))
  }

  function ReadPlayers(d: seq<u8>, c: Cursor): Option<Cursor> {
    if !CountedAt(d, c.at, PLAYERS, PLAYER_BYTES) then None
    else
      var n := Word(d, c.at + 6);
      Some(Cursor(c.at + 10 + PLAYER_BYTES * n, c.save.(players := PlayersAt(d, c.at + 10, n))))
  }

  function ReadAlife(d: seq<u8>, c: Cursor): Option<Cursor> {
    if !CountedAt(d, c.at, ALIFE, ALIFE_BYTES) then None
    else
      var n := Word(d, c.at + 6);
      Some(Cursor(c.at + 10 + ALIFE_BYTES * n, c.save.(alife := AlifesAt(d, c.at + 10, n))))
  }

  function ReadScheduler(d: seq<u8>, c: Cursor): Option<Cursor> {
    if !SectionAt(d, c.at, SCHEDULER) || c.at + 6 + SCHEDULER_BYTES > |d| then None
    else Some(Cursor(c.at + 6 + SCHEDULER_BYTES, c.save.(scheduler := SchedulerAt(d, c.at + 6))))
  }

  /** The story section is skipped by its stated length. */
  function ReadStory(d: seq<u8>, c: Cursor): Option<Cursor> {
    if !SectionAt(d, c.at, STORY) || c.at + 6 + Word(d, c.at + 2) > |d| then None
    else Some(Cursor(c.at + 6 + Word(d, c.at + 2), c.save))
  }

  function ReadMetadata(d: seq<u8>, c: Cursor): Option<Cursor> {
    if !SectionAt(d, c.at, METADATA) || c.at + 6 + METADATA_BYTES > |d| then None
    else Some(Cursor(c.at + 6 + METADATA_BYTES, c.save.(metadata := MetadataAt(d, c.at + 6))))
  }

  function ReadSection(d: seq<u8>, id: u16, c: Cursor): Option<Cursor> {
    if id == WORLD then ReadWorld(d, c)
    else if id == ENVIRONMENT then ReadEnvironment(d, c)
    else if id == REGISTRY then ReadRegistry(d, c)
    else if id == PLAYERS then ReadPlayers(d, c)
    else if id == ALIFE then ReadAlife(d, c)
    else if id == SCHEDULER then ReadScheduler(d, c)
    else if id == STORY then ReadStory(d, c)
    else ReadMetadata(d, c)
  }

  /** The trailer: the checksum of every byte before it. */
  function ParseTrailer(d: seq<u8>, c: Cursor): ParseResult {
    if c.at + 8 > |d| then Failed(CorruptedSave)
    else if Fnv64(d[..c.at]) != Long(d, c.at) then Failed(ChecksumFailure)
    else Parsed(c.save)
  }

  /** The sections in the given order, then the trailer. */
  function ParseSections(d: seq<u8>, ids: seq<u16>, c: Cursor): ParseResult {
    if ids == [] then ParseTrailer(d, c)
    else
      match ReadSection(d, ids[0], c)
      case None => Failed(CorruptedSave)
      case Some(c') => ParseSections(d, ids[1..], c')
  }

  const ORDER: seq<u16> := [WORLD, ENVIRONMENT, REGISTRY, PLAYERS, ALIFE, SCHEDULER, STORY, METADATA]

  function Parse(d: seq<u8>): ParseResult {
    if |d| < 8 || Word(d, 0) != MAGIC then Failed(CorruptedSave)
    else if Word(d, 4) != FORMAT_VERSION then Failed(VersionMismatch)
    else ParseSections(d, ORDER, Cursor(8, NO_SAVE))
  }

  // ------------------------------------------------------------------- what is got back

  function RestoredEntity(e: EntitySnapshot): EntityRecord {
    EntityRecord(e.id, e.position, e.velocity, e.state, e.flags, e.inventoryRef, 0, e.runtimeState, 0)
  }

  function RestoredPlayer(p: PlayerSnapshot): PlayerRecord {
    PlayerRecord(p.id, p.entity, p.position, p.simulationState, 0, p.authorityFlags, p.connectionState)
  }

  function RestoredEntities(es: seq<EntitySnapshot>): (r: seq<EntityRecord>)
    ensures |r| == |es| && forall i :: 0 <= i < |es| ==> r[i] == RestoredEntity(es[i])
  {
    if es == [] then [] else RestoredEntities(es[..|es| - 1]) + [RestoredEntity(es[|es| - 1])]
  }

  function RestoredPlayers(ps: seq<PlayerSnapshot>): (r: seq<PlayerRecord>)
    ensures |r| == |ps| && forall i :: 0 <= i < |ps| ==> r[i] == RestoredPlayer(ps[i])
  {
    if ps == [] then [] else RestoredPlayers(ps[..|ps| - 1]) + [RestoredPlayer(ps[|ps| - 1])]
  }

  /** Every field the snapshot has a source for; zero for those it has not; no wall clock. */
  function Restored(s: Snapshot, m: SaveMetadata): LoadedSave {
    LoadedSave(
      m.(timestampWallClock := 0),
      WorldRecord(s.metadata.simulationTick, s.environment.timeOfDaySeconds, s.environment.weatherId, 0, 0),
      EnvironmentRecord(s.environment.weatherId, s.environment.timeOfDaySeconds, s.environment.emissionState,
                        s.environment.lighting, s.environment.environmentVersion),
      RestoredEntities(s.entities),
      RestoredPlayers(s.players),
      [],
      SchedulerRecord(s.metadata.simulationTick, 0, 0, 0, 0))
  }
}
