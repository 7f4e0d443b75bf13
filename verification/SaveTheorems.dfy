/** What is saved is what is loaded. */
module SaveTheorems {
  import opened Prelude
  import opened Wire
  import opened SnapshotTypes
  import opened SaveModel

  // ----------------------------------------------------------------------- reading in place

  ghost predicate Occurs(d: seq<u8>, at: nat, piece: seq<u8>) {
    at + |piece| <= |d| && d[at..at + |piece|] == piece
  }

  lemma OccursSplit(d: seq<u8>, at: nat, a: seq<u8>, b: seq<u8>)
    requires Occurs(d, at, a + b)
    ensures Occurs(d, at, a) && Occurs(d, at + |a|, b)
  {
    var w := d[at..at + |a + b|];
    SliceOfSlice(d, at, at + |a + b|, 0, |a|);
    SliceOfSlice(d, at, at + |a + b|, |a|, |a| + |b|);
    assert w[0..|a|] == a && w[|a|..|a| + |b|] == b;
  }

  lemma OccursWithin(d: seq<u8>, at: nat, piece: seq<u8>)
    requires Occurs(d, at, piece)
    ensures at + |piece| <= |d|
  {
  }

  lemma OccursParts(d: seq<u8>, at: nat, whole: seq<u8>, a: seq<u8>, b: seq<u8>, end: nat)
    requires whole == a + b && end == at + |a| && Occurs(d, at, whole)
    ensures Occurs(d, at, a) && Occurs(d, end, b)
  {
    OccursSplit(d, at, a, b);
  }

  lemma OccursSplit3(d: seq<u8>, at: nat, a: seq<u8>, b: seq<u8>, c: seq<u8>)
    requires Occurs(d, at, a + b + c)
    ensures Occurs(d, at, a) && Occurs(d, at + |a|, b) && Occurs(d, at + |a| + |b|, c)
  {
    OccursSplit(d, at, a + b, c);
    OccursSplit(d, at, a, b);
  }

  lemma {:induction false} WordOccurs(d: seq<u8>, at: nat, x: u32)
    requires Occurs(d, at, LE(x, 4))
    ensures Word(d, at) == x
  {
    WordReadsBack(d, at, x);
  }

  lemma {:induction false} LongOccurs(d: seq<u8>, at: nat, x: u64)
    requires Occurs(d, at, LE(x, 8))
    ensures Long(d, at) == x
  {
    Widths();
    FieldReadsBack(d, at, 8, x);
  }

  lemma WordsOccur(d: seq<u8>, at: nat, x: u32, y: u32, z: u32)
    requires Occurs(d, at, Words(x, y, z))
    ensures Word(d, at) == x && Word(d, at + 4) == y && Word(d, at + 8) == z
  {
    WordsReadBack(d, at, x, y, z);
  }

  // ------------------------------------------------------------------------------- records

  lemma WorldReadsBack(d: seq<u8>, at: nat, s: Snapshot)
    requires Occurs(d, at, WorldBytes(s))
    ensures WorldAt(d, at) == Restored(s, NO_SAVE.metadata).world
  {
    var e := s.environment;
    OccursSplit3(d, at, LE(s.metadata.simulationTick, 8), LE(e.timeOfDaySeconds, 8), Words(e.weatherId, 0, 0));
    LongOccurs(d, at, s.metadata.simulationTick);
    LongOccurs(d, at + 8, e.timeOfDaySeconds);
    WordsOccur(d, at + 16, e.weatherId, 0, 0);
  }

  lemma EnvironmentReadsBack(d: seq<u8>, at: nat, e: EnvironmentSnapshot)
    requires Occurs(d, at, EnvironmentBytes(e))
    ensures EnvironmentAt(d, at)
         == EnvironmentRecord(e.weatherId, e.timeOfDaySeconds, e.emissionState, e.lighting, e.environmentVersion)
  {
    OccursSplit3(d, at, Words(e.weatherId, e.timeOfDaySeconds, e.emissionState), LE(e.lighting, 4),
                 LE(e.environmentVersion, 4));
    WordsOccur(d, at, e.weatherId, e.timeOfDaySeconds, e.emissionState);
    WordOccurs(d, at + 12, e.lighting);
    WordOccurs(d, at + 16, e.environmentVersion);
  }

  lemma EntityReadsBack(d: seq<u8>, at: nat, e: EntitySnapshot)
    requires Occurs(d, at, EntityBytes(e))
    ensures EntityAt(d, at) == RestoredEntity(e)
  {
    var motion := LE(e.id, 4) + Vec3Bytes(e.position) + Vec3Bytes(e.velocity);
    var state := Words(e.state, e.flags, e.inventoryRef) + LE(0, 4) + LE(e.runtimeState, 8);
    assert EntityBytes(e) == motion + (state + LE(0, 4));
    OccursSplit(d, at, motion, state + LE(0, 4));
    OccursSplit3(d, at, LE(e.id, 4), Vec3Bytes(e.position), Vec3Bytes(e.velocity));
    OccursSplit(d, at + 28, state, LE(0, 4));
    OccursSplit3(d, at + 28, Words(e.state, e.flags, e.inventoryRef), LE(0, 4), LE(e.runtimeState, 8));
    WordOccurs(d, at, e.id);
    WordsOccur(d, at + 4, e.position.x, e.position.y, e.position.z);
    WordsOccur(d, at + 16, e.velocity.x, e.velocity.y, e.velocity.z);
    WordsOccur(d, at + 28, e.state, e.flags, e.inventoryRef);
    WordOccurs(d, at + 40, 0);
    LongOccurs(d, at + 44, e.runtimeState);
    WordOccurs(d, at + 52, 0);
  }

  lemma PlayerReadsBack(d: seq<u8>, at: nat, p: PlayerSnapshot)
    requires Occurs(d, at, PlayerBytes(p))
    ensures PlayerAt(d, at) == RestoredPlayer(p)
  {
    var where := LE(p.id, 4) + LE(p.entity, 4) + Vec3Bytes(p.position);
    var state := Words(p.simulationState, 0, p.authorityFlags) + LE(p.connectionState, 1);
    OccursSplit(d, at, where, state);
    OccursSplit3(d, at, LE(p.id, 4), LE(p.entity, 4), Vec3Bytes(p.position));
    OccursSplit(d, at + 20, Words(p.simulationState, 0, p.authorityFlags), LE(p.connectionState, 1));
    WordOccurs(d, at, p.id);
    WordOccurs(d, at + 4, p.entity);
    WordsOccur(d, at + 8, p.position.x, p.position.y, p.position.z);
    WordsOccur(d, at + 20, p.simulationState, 0, p.authorityFlags);
    assert d[at + 32] == d[at + 32..at + 33][0];
  }

  lemma SchedulerReadsBack(d: seq<u8>, at: nat, s: Snapshot)
    requires Occurs(d, at, SchedulerBytes(s))
    ensures SchedulerAt(d, at) == SchedulerRecord(s.metadata.simulationTick, 0, 0, 0, 0)
  {
    OccursSplit3(d, at, LE(s.metadata.simulationTick, 8), Words(0, 0, 0), LE(0, 8));
    LongOccurs(d, at, s.metadata.simulationTick);
    WordsOccur(d, at + 8, 0, 0, 0);
    LongOccurs(d, at + 20, 0);
  }

  lemma MetadataReadsBack(d: seq<u8>, at: nat, m: SaveMetadata)
    requires Occurs(d, at, MetadataBytes(m))
    ensures MetadataAt(d, at) == m.(timestampWallClock := 0)
  {
    var ids := LE(m.saveId, 8) + LE(m.simulationTick, 8);
    var counts := LE(m.playerCount, 4) + Words(m.entityCount, m.worldVersion, m.buildVersion) + LE(m.checksum, 8);
    OccursSplit(d, at, ids, counts);
    OccursSplit(d, at, LE(m.saveId, 8), LE(m.simulationTick, 8));
    OccursSplit3(d, at + 16, LE(m.playerCount, 4), Words(m.entityCount, m.worldVersion, m.buildVersion),
                 LE(m.checksum, 8));
    LongOccurs(d, at, m.saveId);
    LongOccurs(d, at + 8, m.simulationTick);
    WordOccurs(d, at + 16, m.playerCount);
    WordsOccur(d, at + 20, m.entityCount, m.worldVersion, m.buildVersion);
    LongOccurs(d, at + 32, m.checksum);
  }

  lemma EntitiesAtLast(d: seq<u8>, at: nat, n: nat, end: nat)
    requires end == at + ENTITY_BYTES * n && end + ENTITY_BYTES <= |d|
    ensures EntitiesAt(d, at, n + 1) == EntitiesAt(d, at, n) + [EntityAt(d, end)]
  {
    hide EntityAt;
  }

  lemma {:induction false} RestoredEntitiesLast(es: seq<EntitySnapshot>, n: nat)
    requires |es| == n + 1
    ensures RestoredEntities(es) == RestoredEntities(es[..n]) + [RestoredEntity(es[n])]
  {
  }

  lemma EntitiesStep(d: seq<u8>, at: nat, es: seq<EntitySnapshot>, n: nat, end: nat)
    requires |es| == n + 1 && end == at + ENTITY_BYTES * n && end + ENTITY_BYTES <= |d|
    requires EntitiesAt(d, at, n) == RestoredEntities(es[..n]) && EntityAt(d, end) == RestoredEntity(es[n])
    ensures EntitiesAt(d, at, n + 1) == RestoredEntities(es)
  {
    EntitiesAtLast(d, at, n, end);
    RestoredEntitiesLast(es, n);
  }

  lemma {:induction false} EntitiesPart(d: seq<u8>, at: nat, es: seq<EntitySnapshot>, n: nat, end: nat)
    requires |es| == n + 1 && end == at + ENTITY_BYTES * n && Occurs(d, at, EntitiesBytes(es))
    ensures end + ENTITY_BYTES <= |d| && Occurs(d, at, EntitiesBytes(es[..n]))
    ensures EntityAt(d, end) == RestoredEntity(es[n])
  {
    hide EntityBytes, EntityAt, Occurs;
    assert EntitiesBytes(es) == EntitiesBytes(es[..n]) + EntityBytes(es[n]);
    OccursParts(d, at, EntitiesBytes(es), EntitiesBytes(es[..n]), EntityBytes(es[n]), end);
    EntityReadsBack(d, end, es[n]);
  }

  lemma {:induction false} NoEntities(d: seq<u8>, at: nat)
    requires Occurs(d, at, EntitiesBytes([]))
    ensures EntitiesAt(d, at, 0) == RestoredEntities([])
  {
  }

  lemma {:induction false} EntitiesReadBack(d: seq<u8>, at: nat, es: seq<EntitySnapshot>)
    requires Occurs(d, at, EntitiesBytes(es))
    ensures EntitiesAt(d, at, |es|) == RestoredEntities(es)
  {
    if es == [] {
      NoEntities(d, at);
    } else {
      hide EntitiesBytes, EntitiesAt, EntityAt, RestoredEntities, Occurs;
      var n := |es| - 1;
      EntitiesPart(d, at, es, n, at + ENTITY_BYTES * n);
      EntitiesReadBack(d, at, es[..n]);
      EntitiesStep(d, at, es, n, at + ENTITY_BYTES * n);
    }
  }

  lemma PlayersAtLast(d: seq<u8>, at: nat, n: nat, end: nat)
    requires end == at + PLAYER_BYTES * n && end + PLAYER_BYTES <= |d|
    ensures PlayersAt(d, at, n + 1) == PlayersAt(d, at, n) + [PlayerAt(d, end)]
  {
    hide PlayerAt;
  }

  lemma {:induction false} RestoredPlayersLast(ps: seq<PlayerSnapshot>, n: nat)
    requires |ps| == n + 1
    ensures RestoredPlayers(ps) == RestoredPlayers(ps[..n]) + [RestoredPlayer(ps[n])]
  {
  }

  lemma PlayersStep(d: seq<u8>, at: nat, ps: seq<PlayerSnapshot>, n: nat, end: nat)
    requires |ps| == n + 1 && end == at + PLAYER_BYTES * n && end + PLAYER_BYTES <= |d|
    requires PlayersAt(d, at, n) == RestoredPlayers(ps[..n]) && PlayerAt(d, end) == RestoredPlayer(ps[n])
    ensures PlayersAt(d, at, n + 1) == RestoredPlayers(ps)
  {
    PlayersAtLast(d, at, n, end);
    RestoredPlayersLast(ps, n);
  }

  lemma {:induction false} PlayersPart(d: seq<u8>, at: nat, ps: seq<PlayerSnapshot>, n: nat, end: nat)
    requires |ps| == n + 1 && end == at + PLAYER_BYTES * n && Occurs(d, at, PlayersBytes(ps))
    ensures end + PLAYER_BYTES <= |d| && Occurs(d, at, PlayersBytes(ps[..n]))
    ensures PlayerAt(d, end) == RestoredPlayer(ps[n])
  {
    hide PlayerBytes, PlayerAt, Occurs;
    assert PlayersBytes(ps) == PlayersBytes(ps[..n]) + PlayerBytes(ps[n]);
    OccursParts(d, at, PlayersBytes(ps), PlayersBytes(ps[..n]), PlayerBytes(ps[n]), end);
    PlayerReadsBack(d, end, ps[n]);
  }

  lemma {:induction false} NoPlayers(d: seq<u8>, at: nat)
    requires Occurs(d, at, PlayersBytes([]))
    ensures PlayersAt(d, at, 0) == RestoredPlayers([])
  {
  }

  lemma {:induction false} PlayersReadBack(d: seq<u8>, at: nat, ps: seq<PlayerSnapshot>)
    requires Occurs(d, at, PlayersBytes(ps))
    ensures PlayersAt(d, at, |ps|) == RestoredPlayers(ps)
  {
    if ps == [] {
      NoPlayers(d, at);
    } else {
      hide PlayersBytes, PlayersAt, PlayerAt, RestoredPlayers, Occurs;
      var n := |ps| - 1;
      PlayersPart(d, at, ps, n, at + PLAYER_BYTES * n);
      PlayersReadBack(d, at, ps[..n]);
      PlayersStep(d, at, ps, n, at + PLAYER_BYTES * n);
    }
  }

  // ------------------------------------------------------------------------------ sections

  /** From here to the end: these sections, then the checksum of everything before it. */
  ghost predicate Rest(d: seq<u8>, at: nat, sections: seq<(u16, seq<u8>)>) {
    && Occurs(d, at, FramedAll(sections))
    && var end := at + |FramedAll(sections)|; Occurs(d, end, LE(Fnv64(d[..end]), 8))
  }

  lemma FramedReadsBack(d: seq<u8>, at: nat, id: u16, payload: seq<u8>)
    requires Occurs(d, at, Framed(id, payload))
    ensures SectionAt(d, at, id) && Word(d, at + 2) == Low32(|payload|) && Occurs(d, at + 6, payload)
  {
    Widths();
    OccursSplit3(d, at, LE(id, 2), LE(Low32(|payload|), 4), payload);
    FieldReadsBack(d, at, 2, id);
    WordOccurs(d, at + 2, Low32(|payload|));
  }

  lemma {:induction false} RestSplit(d: seq<u8>, at: nat, front: seq<u8>, sections: seq<(u16, seq<u8>)>,
                                     rest: seq<(u16, seq<u8>)>)
    requires Rest(d, at, sections) && FramedAll(sections) == front + FramedAll(rest)
    ensures Occurs(d, at, front) && Rest(d, at + |front|, rest)
  {
    hide Occurs, FramedAll, LE, Fnv64;
    OccursSplit(d, at, front, FramedAll(rest));
  }

  /** The first of the remaining sections, and the remaining sections behind it. */
  lemma RestNext(
    d: seq<u8>, at: nat, id: u16, payload: seq<u8>, sections: seq<(u16, seq<u8>)>, end: nat,
    rest: seq<(u16, seq<u8>)>)
    requires sections != [] && sections[0] == (id, payload) && rest == sections[1..] && end == at + 6 + |payload|
    requires Rest(d, at, sections)
    ensures SectionAt(d, at, id) && Word(d, at + 2) == Low32(|payload|) && Occurs(d, at + 6, payload)
    ensures Rest(d, end, rest)
  {
    hide Rest, Occurs, Framed, SectionAt, Word;
    RestSplit(d, at, Framed(id, payload), sections, rest);
    FramedReadsBack(d, at, id, payload);
  }

  /** The payload the writer emits for a section, and the save with that section's part filled in. */
  function PayloadOf(s: Snapshot, m: SaveMetadata, id: u16): seq<u8> {
    if id == WORLD then WorldBytes(s)
    else if id == ENVIRONMENT then EnvironmentBytes(s.environment)
    else if id == REGISTRY then RegistryBytes(s)
    else if id == PLAYERS then PlayersSectionBytes(s)
    else if id == ALIFE then LE(0, 4)
    else if id == SCHEDULER then SchedulerBytes(s)
    else if id == STORY then []
    else MetadataBytes(m)
  }

  function With(save: LoadedSave, r: LoadedSave, id: u16): LoadedSave {
    if id == WORLD then save.(world := r.world)
    else if id == ENVIRONMENT then save.(environment := r.environment)
    else if id == REGISTRY then save.(entities := r.entities)
    else if id == PLAYERS then save.(players := r.players)
    else if id == ALIFE then save.(alife := r.alife)
    else if id == SCHEDULER then save.(scheduler := r.scheduler)
    else if id == STORY then save
    else save.(metadata := r.metadata)
  }

  /** A count and the records behind it. */
  lemma CountReads(d: seq<u8>, at: nat, n: nat, records: seq<u8>)
    requires n < 0x1_0000_0000 && Occurs(d, at, LE(Low32(n), 4) + records)
    ensures at + 4 + |records| <= |d| && Word(d, at) == n && Occurs(d, at + 4, records)
  {
    hide Occurs, LE, Word;
    OccursSplit(d, at, LE(Low32(n), 4), records);
    OccursWithin(d, at + 4, records);
    WordOccurs(d, at, n);
  }

  lemma RegistryHolds(d: seq<u8>, c: Cursor, n: nat, records: seq<EntityRecord>)
    requires SectionAt(d, c.at, REGISTRY) && c.at + 10 + ENTITY_BYTES * n <= |d| && Word(d, c.at + 6) == n
    requires EntitiesAt(d, c.at + 10, n) == records
    ensures ReadRegistry(d, c) == Some(Cursor(c.at + 10 + ENTITY_BYTES * n, c.save.(entities := records)))
  {
  }

  lemma RegistryReads(d: seq<u8>, s: Snapshot, c: Cursor)
    requires |s.entities| < 0x1_0000_0000 && SectionAt(d, c.at, REGISTRY) && Occurs(d, c.at + 6, RegistryBytes(s))
    ensures ReadRegistry(d, c)
         == Some(Cursor(c.at + 10 + ENTITY_BYTES * |s.entities|, c.save.(entities := RestoredEntities(s.entities))))
  {
    hide EntitiesBytes, EntitiesAt, RestoredEntities, Occurs, Word;
    CountReads(d, c.at + 6, |s.entities|, EntitiesBytes(s.entities));
    EntitiesReadBack(d, c.at + 10, s.entities);
    RegistryHolds(d, c, |s.entities|, RestoredEntities(s.entities));
  }

  lemma PlayersRead(d: seq<u8>, s: Snapshot, c: Cursor)
    requires |s.players| < 0x1_0000_0000 && SectionAt(d, c.at, PLAYERS) && Occurs(d, c.at + 6, PlayersSectionBytes(s))
    ensures ReadPlayers(d, c)
         == Some(Cursor(c.at + 10 + PLAYER_BYTES * |s.players|, c.save.(players := RestoredPlayers(s.players))))
  {
    hide PlayersBytes, PlayersAt, RestoredPlayers, Occurs, Word;
    CountReads(d, c.at + 6, |s.players|, PlayersBytes(s.players));
    PlayersReadBack(d, c.at + 10, s.players);
  }

  lemma FixedSectionReads(d: seq<u8>, s: Snapshot, m: SaveMetadata, id: u16, c: Cursor)
    requires id in {WORLD, ENVIRONMENT, SCHEDULER, METADATA}
    requires SectionAt(d, c.at, id) && Occurs(d, c.at + 6, PayloadOf(s, m, id))
    ensures ReadSection(d, id, c)
         == Some(Cursor(c.at + 6 + |PayloadOf(s, m, id)|, With(c.save, Restored(s, m), id)))
  {
    if id == WORLD {
      WorldReadsBack(d, c.at + 6, s);
    } else if id == ENVIRONMENT {
      EnvironmentReadsBack(d, c.at + 6, s.environment);
    } else if id == SCHEDULER {
      SchedulerReadsBack(d, c.at + 6, s);
    } else {
      MetadataReadsBack(d, c.at + 6, m);
    }
  }

  /** The two sections the writer leaves empty: no A-Life records, no story bytes. */
  lemma EmptySectionReads(d: seq<u8>, s: Snapshot, m: SaveMetadata, id: u16, c: Cursor)
    requires id in {ALIFE, STORY} && SectionAt(d, c.at, id) && Word(d, c.at + 2) == Low32(|PayloadOf(s, m, id)|)
    requires Occurs(d, c.at + 6, PayloadOf(s, m, id))
    ensures ReadSection(d, id, c)
         == Some(Cursor(c.at + 6 + |PayloadOf(s, m, id)|, With(c.save, Restored(s, m), id)))
  {
    if id == ALIFE {
      WordOccurs(d, c.at + 6, 0);
    }
  }

  lemma CountedSectionReads(d: seq<u8>, s: Snapshot, m: SaveMetadata, id: u16, c: Cursor)
    requires |s.entities| < 0x1_0000_0000 && |s.players| < 0x1_0000_0000 && id in {REGISTRY, PLAYERS}
    requires SectionAt(d, c.at, id) && Occurs(d, c.at + 6, PayloadOf(s, m, id))
    ensures ReadSection(d, id, c)
         == Some(Cursor(c.at + 6 + |PayloadOf(s, m, id)|, With(c.save, Restored(s, m), id)))
  {
    hide EntitiesBytes, PlayersBytes, ReadRegistry, ReadPlayers, RestoredEntities, RestoredPlayers, Occurs;
    if id == REGISTRY {
      RegistryReads(d, s, c);
    } else {
      PlayersRead(d, s, c);
    }
  }

  /** Each section reads back as its part of the save, and the reader stands behind it. */
  lemma SectionReads(d: seq<u8>, s: Snapshot, m: SaveMetadata, id: u16, c: Cursor)
    requires |s.entities| < 0x1_0000_0000 && |s.players| < 0x1_0000_0000 && id in ORDER
    requires SectionAt(d, c.at, id) && Word(d, c.at + 2) == Low32(|PayloadOf(s, m, id)|)
    requires Occurs(d, c.at + 6, PayloadOf(s, m, id))
    ensures ReadSection(d, id, c)
         == Some(Cursor(c.at + 6 + |PayloadOf(s, m, id)|, With(c.save, Restored(s, m), id)))
  {
    if id in {REGISTRY, PLAYERS} {
      CountedSectionReads(d, s, m, id, c);
    } else if id in {ALIFE, STORY} {
      EmptySectionReads(d, s, m, id, c);
    } else {
      FixedSectionReads(d, s, m, id, c);
    }
  }

  /** The sections have the given ids, each with the payload the writer emits for it. */
  ghost predicate Written(sections: seq<(u16, seq<u8>)>, s: Snapshot, m: SaveMetadata, ids: seq<u16>) {
    |sections| == |ids| && forall i :: 0 <= i < |ids| ==> sections[i] == (ids[i], PayloadOf(s, m, ids[i]))
  }

  function WithAll(save: LoadedSave, r: LoadedSave, ids: seq<u16>): LoadedSave
    decreases ids
  {
    if ids == [] then save else WithAll(With(save, r, ids[0]), r, ids[1..])
  }

  lemma {:induction false} ParseStep(d: seq<u8>, ids: seq<u16>, c: Cursor, next: Cursor)
    requires ids != [] && ReadSection(d, ids[0], c) == Some(next)
    ensures ParseSections(d, ids, c) == ParseSections(d, ids[1..], next)
  {
  }

  lemma {:induction false} WithStep(save: LoadedSave, r: LoadedSave, ids: seq<u16>)
    requires ids != []
    ensures WithAll(save, r, ids) == WithAll(With(save, r, ids[0]), r, ids[1..])
  {
  }

  /** One section of the rest: where the reader then stands, and with what. */
  lemma {:induction false} SectionStep(d: seq<u8>, s: Snapshot, m: SaveMetadata, ids: seq<u16>, c: Cursor, next: Cursor)
    requires |s.entities| < 0x1_0000_0000 && |s.players| < 0x1_0000_0000 && ids != [] && ids[0] in ORDER
    requires SectionAt(d, c.at, ids[0]) && Word(d, c.at + 2) == Low32(|PayloadOf(s, m, ids[0])|)
    requires Occurs(d, c.at + 6, PayloadOf(s, m, ids[0]))
    requires next == Cursor(c.at + 6 + |PayloadOf(s, m, ids[0])|, With(c.save, Restored(s, m), ids[0]))
    ensures ParseSections(d, ids, c) == ParseSections(d, ids[1..], next)
  {
    hide ReadSection, ParseSections, PayloadOf, With, Restored, Occurs, Word, SectionAt;
    SectionReads(d, s, m, ids[0], c);
    ParseStep(d, ids, c, next);
  }

  lemma {:induction false} TrailerReads(d: seq<u8>, c: Cursor)
    requires Rest(d, c.at, [])
    ensures ParseSections(d, [], c) == Parsed(c.save)
  {
    LongOccurs(d, c.at, Fnv64(d[..c.at]));
  }

  /** Section after section, and then the checksum agrees. */
  lemma {:induction false} SectionsRead(
    d: seq<u8>, s: Snapshot, m: SaveMetadata, sections: seq<(u16, seq<u8>)>, ids: seq<u16>, c: Cursor)
    requires |s.entities| < 0x1_0000_0000 && |s.players| < 0x1_0000_0000 && forall id :: id in ids ==> id in ORDER
    requires Rest(d, c.at, sections) && Written(sections, s, m, ids)
    ensures ParseSections(d, ids, c) == Parsed(WithAll(c.save, Restored(s, m), ids))
    decreases ids
  {
    if ids == [] {
      TrailerReads(d, c);
    } else {
      var next := Cursor(c.at + 6 + |PayloadOf(s, m, ids[0])|, With(c.save, Restored(s, m), ids[0]));
      var rest := sections[1..];
      RestNext(d, c.at, ids[0], PayloadOf(s, m, ids[0]), sections, next.at, rest);
      SectionStep(d, s, m, ids, c, next);
      WithStep(c.save, Restored(s, m), ids);
      SectionsRead(d, s, m, rest, ids[1..], next);
    }
  }

  /** A save is its header, its sections, and the checksum of all of that. */
  lemma SaveSplits(s: Snapshot, m: SaveMetadata)
    ensures var d := Serialized(s, m); Occurs(d, 0, HeaderBytes()) && Rest(d, 8, Sections(s, m))
  {
    var d := Serialized(s, m);
    var body := Body(s, m);
    assert d[..|body|] == body;
    assert Occurs(d, 0, body);
    OccursSplit(d, 0, HeaderBytes(), FramedAll(Sections(s, m)));
  }

  lemma HeaderReads(d: seq<u8>)
    requires Occurs(d, 0, HeaderBytes())
    ensures |d| >= 8 && Word(d, 0) == MAGIC && Word(d, 4) == FORMAT_VERSION
  {
    OccursSplit(d, 0, LE(MAGIC, 4), LE(FORMAT_VERSION, 4));
    WordOccurs(d, 0, MAGIC);
    WordOccurs(d, 4, FORMAT_VERSION);
  }

  lemma {:induction false} OrderIsWhole(s: Snapshot, m: SaveMetadata, r: LoadedSave)
    ensures Written(Sections(s, m), s, m, ORDER)
    ensures WithAll(NO_SAVE, r, ORDER) == r
  {
    hide WorldBytes, EnvironmentBytes, RegistryBytes, PlayersSectionBytes, SchedulerBytes, MetadataBytes;
    var o1, o2, o3, o4 := ORDER[1..], ORDER[2..], ORDER[3..], ORDER[4..];
    var o5, o6, o7, o8 := ORDER[5..], ORDER[6..], ORDER[7..], ORDER[8..];
    assert o1[1..] == o2 && o2[1..] == o3 && o3[1..] == o4 && o4[1..] == o5 && o5[1..] == o6 && o6[1..] == o7
        && o7[1..] == o8 && o8 == [];
    var w2 := NO_SAVE.(world := r.world, environment := r.environment);
    var w4 := w2.(entities := r.entities, players := r.players);
    var w6 := w4.(alife := r.alife, scheduler := r.scheduler);
    assert WithAll(NO_SAVE, r, ORDER) == WithAll(w2, r, o2);
    assert WithAll(w2, r, o2) == WithAll(w4, r, o4);
    assert WithAll(w4, r, o4) == WithAll(w6, r, o6);
    assert WithAll(w6, r, o7) == w6.(metadata := r.metadata);
    assert WithAll(w6, r, o6) == w6.(metadata := r.metadata);
  }

  /** Every save of fewer than 2^32 entities and players parses to everything that was written. */
  lemma SaveRoundTrip(s: Snapshot, m: SaveMetadata)
    requires |s.entities| < 0x1_0000_0000 && |s.players| < 0x1_0000_0000
    ensures Parse(Serialized(s, m)) == Parsed(Restored(s, m))
  {
    SaveSplits(s, m);
    HeaderReads(Serialized(s, m));
    OrderIsWhole(s, m, Restored(s, m));
    SectionsRead(Serialized(s, m), s, m, Sections(s, m), ORDER, Cursor(8, NO_SAVE));
  }
}
