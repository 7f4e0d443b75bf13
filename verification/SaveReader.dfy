/** SaveReader.cpp: one pass of the cursor, section after section, stopping at the first thing wrong. */
module SaveReaders {
  import opened Prelude
  import opened Wire
  import opened SnapshotTypes
  import opened SaveModel
  import opened SaveCursors
  import opened SaveWriters

  method GetU8(r: ByteReader) returns (v: Option<u8>)
    requires r.Valid()
    modifies r
    ensures r.Valid() && r.error == v.None?
    ensures v == if old(r.error) || old(r.pos) + 1 > |r.data| then None else Some(r.data[old(r.pos)])
    ensures v.Some? ==> r.pos == old(r.pos) + 1
  {
    var ok := r.Take(1);
    if !ok {
      return None;
    }
    v := Some(r.data[r.pos - 1]);
  }

  method GetU32(r: ByteReader) returns (v: Option<u32>)
    requires r.Valid()
    modifies r
    ensures r.Valid() && r.error == v.None?
    ensures v == if old(r.error) || old(r.pos) + 4 > |r.data| then None else Some(Word(r.data, old(r.pos)))
    ensures v.Some? ==> r.pos == old(r.pos) + 4
  {
    var got := r.Get(4);
    if got.None? {
      return None;
    }
    Widths();
    FromLEBound(r.data[old(r.pos)..old(r.pos) + 4]);
    v := Some(got.value);
  }

  method GetU64(r: ByteReader) returns (v: Option<u64>)
    requires r.Valid()
    modifies r
    ensures r.Valid() && r.error == v.None?
    ensures v == if old(r.error) || old(r.pos) + 8 > |r.data| then None else Some(Long(r.data, old(r.pos)))
    ensures v.Some? ==> r.pos == old(r.pos) + 8
  {
    var got := r.Get(8);
    if got.None? {
      return None;
    }
    Widths();
    FromLEBound(r.data[old(r.pos)..old(r.pos) + 8]);
    v := Some(got.value);
  }

  /** Three words, or an error. */
  method GetVec3(r: ByteReader) returns (v: Option<Vec3>)
    requires r.Valid()
    modifies r
    ensures r.Valid() && r.error == v.None?
    ensures v == if old(r.error) || old(r.pos) + 12 > |r.data| then None else Some(Vec3At(r.data, old(r.pos)))
    ensures v.Some? ==> r.pos == old(r.pos) + 12
  {
    var x := GetU32(r);
    if x.None? {
      return None;
    }
    var y := GetU32(r);
    if y.None? {
      return None;
    }
    var z := GetU32(r);
    if z.None? {
      return None;
    }
    v := Some(Vec3(x.value, y.value, z.value));
  }

  method DecodeWorld(r: ByteReader) returns (v: Option<WorldRecord>)
    requires r.Valid() && !r.error
    modifies r
    ensures r.Valid() && r.error == v.None?
    ensures v == if old(r.pos) + WORLD_BYTES > |r.data| then None else Some(WorldAt(r.data, old(r.pos)))
    ensures v.Some? ==> r.pos == old(r.pos) + WORLD_BYTES
  {
    var tick := GetU64(r);
    var time := GetU64(r);
    var weather := GetU32(r);
    var flags := GetU32(r);
    var zone := GetU32(r);
    if zone.None? {
      return None;
    }
    v := Some(WorldRecord(tick.value, time.value, weather.value, flags.value, zone.value));
  }

  method DecodeEnvironment(r: ByteReader) returns (v: Option<EnvironmentRecord>)
    requires r.Valid() && !r.error
    modifies r
    ensures r.Valid() && r.error == v.None?
    ensures v == if old(r.pos) + ENVIRONMENT_BYTES > |r.data| then None else Some(EnvironmentAt(r.data, old(r.pos)))
    ensures v.Some? ==> r.pos == old(r.pos) + ENVIRONMENT_BYTES
  {
    var weather := GetU32(r);
    var time := GetU32(r);
    var emission := GetU32(r);
    var lighting := GetU32(r);
    var version := GetU32(r);
    if version.None? {
      return None;
    }
    v := Some(EnvironmentRecord(weather.value, time.value, emission.value, lighting.value, version.value));
  }

  method DecodeEntity(r: ByteReader) returns (v: Option<EntityRecord>)
    requires r.Valid() && !r.error
    modifies r
    ensures r.Valid() && r.error == v.None?
    ensures v == if old(r.pos) + ENTITY_BYTES > |r.data| then None else Some(EntityAt(r.data, old(r.pos)))
    ensures v.Some? ==> r.pos == old(r.pos) + ENTITY_BYTES
  {
    var id := GetU32(r);
    var position := GetVec3(r);
    var velocity := GetVec3(r);
    var stateFlags := GetU32(r);
    var runtimeFlags := GetU32(r);
    var inventory := GetU32(r);
    var owner := GetU32(r);
    var runtimeState := GetU64(r);
    var relationship := GetU32(r);
    if relationship.None? {
      return None;
    }
    v := Some(EntityRecord(id.value, position.value, velocity.value, stateFlags.value, runtimeFlags.value,
                           inventory.value, owner.value, runtimeState.value, relationship.value));
  }

  method DecodePlayer(r: ByteReader) returns (v: Option<PlayerRecord>)
    requires r.Valid() && !r.error
    modifies r
    ensures r.Valid() && r.error == v.None?
    ensures v == if old(r.pos) + PLAYER_BYTES > |r.data| then None else Some(PlayerAt(r.data, old(r.pos)))
    ensures v.Some? ==> r.pos == old(r.pos) + PLAYER_BYTES
  {
    var id := GetU32(r);
    var entity := GetU32(r);
    var position := GetVec3(r);
    var statistics := GetU32(r);
    var quest := GetU32(r);
    var faction := GetU32(r);
    var connection := GetU8(r);
    if connection.None? {
      return None;
    }
    v := Some(PlayerRecord(id.value, entity.value, position.value, statistics.value, quest.value, faction.value,
                           connection.value));
  }

  method DecodeAlife(r: ByteReader) returns (v: Option<AlifeRecord>)
    requires r.Valid() && !r.error
    modifies r
    ensures r.Valid() && r.error == v.None?
    ensures v == if old(r.pos) + ALIFE_BYTES > |r.data| then None else Some(AlifeAt(r.data, old(r.pos)))
    ensures v.Some? ==> r.pos == old(r.pos) + ALIFE_BYTES
  {
    var terrain := GetU32(r);
    var tasks := GetU32(r);
    var state := GetU32(r);
    var offline := GetU32(r);
    var schedule := GetU32(r);
    var planner := GetU32(r);
    var story := GetU32(r);
    if story.None? {
      return None;
    }
    v := Some(AlifeRecord(terrain.value, tasks.value, state.value, offline.value, schedule.value, planner.value,
                          story.value));
  }

  method DecodeScheduler(r: ByteReader) returns (v: Option<SchedulerRecord>)
    requires r.Valid() && !r.error
    modifies r
    ensures r.Valid() && r.error == v.None?
    ensures v == if old(r.pos) + SCHEDULER_BYTES > |r.data| then None else Some(SchedulerAt(r.data, old(r.pos)))
    ensures v.Some? ==> r.pos == old(r.pos) + SCHEDULER_BYTES
  {
    var tick := GetU64(r);
    var pending := GetU32(r);
    var depth := GetU32(r);
    var deferred := GetU32(r);
    var order := GetU64(r);
    if order.None? {
      return None;
    }
    v := Some(SchedulerRecord(tick.value, pending.value, depth.value, deferred.value, order.value));
  }

  method DecodeMetadata(r: ByteReader) returns (v: Option<SaveMetadata>)
    requires r.Valid() && !r.error
    modifies r
    ensures r.Valid() && r.error == v.None?
    ensures v == if old(r.pos) + METADATA_BYTES > |r.data| then None else Some(MetadataAt(r.data, old(r.pos)))
    ensures v.Some? ==> r.pos == old(r.pos) + METADATA_BYTES
  {
    var saveId := GetU64(r);
    var tick := GetU64(r);
    var players := GetU32(r);
    var entities := GetU32(r);
    var world := GetU32(r);
    var build := GetU32(r);
    var checksum := GetU64(r);
    if checksum.None? {
      return None;
    }
    v := Some(SaveMetadata(saveId.value, tick.value, players.value, entities.value, world.value, build.value,
                           checksum.value, 0));
  }

  // ------------------------------------------------------------------------------ sections

  /** The stated length, if the next section is the expected one. */
  method ExpectSection(r: ByteReader, expected: u16) returns (length: Option<u32>)
    requires r.Valid() && !r.error
    modifies r
    ensures r.Valid()
    ensures length == if SectionAt(r.data, old(r.pos), expected) then Some(Word(r.data, old(r.pos) + 2)) else None
    ensures length.Some? ==> !r.error && r.pos == old(r.pos) + SECTION_BYTES
  {
    var id := r.Get(2);
    length := GetU32(r);
    if length.Some? && id != Some(expected as nat) {
      length := None;
    }
  }

  /** What a stage leaves behind: nothing, or the model's cursor in reader and save. */
  ghost predicate Reached(r: ByteReader, c: Option<Cursor>, save: Option<LoadedSave>)
    reads r
  {
    if c.None? then save.None?
    else save == Some(c.value.save) && r.Valid() && !r.error && r.pos == c.value.at
  }

  method StageWorld(r: ByteReader, save: LoadedSave) returns (next: Option<LoadedSave>)
    requires r.Valid() && !r.error
    modifies r
    ensures Reached(r, ReadWorld(r.data, Cursor(old(r.pos), save)), next)
  {
    var length := ExpectSection(r, WORLD);
    if length.None? {
      return None;
    }
    var world := DecodeWorld(r);
    if world.None? {
      return None;
    }
    next := Some(save.(world := world.value));
  }

  method StageEnvironment(r: ByteReader, save: LoadedSave) returns (next: Option<LoadedSave>)
    requires r.Valid() && !r.error
    modifies r
    ensures Reached(r, ReadEnvironment(r.data, Cursor(old(r.pos), save)), next)
  {
    var length := ExpectSection(r, ENVIRONMENT);
    if length.None? {
      return None;
    }
    var environment := DecodeEnvironment(r);
    if environment.None? {
      return None;
    }
    next := Some(save.(environment := environment.value));
  }

  /** A section header followed by a record count. */
  method ExpectCount(r: ByteReader, expected: u16) returns (count: Option<u32>)
    requires r.Valid() && !r.error
    modifies r
    ensures r.Valid()
    ensures count == if SectionAt(r.data, old(r.pos), expected) && old(r.pos) + 10 <= |r.data|
                     then Some(Word(r.data, old(r.pos) + 6)) else None
    ensures count.Some? ==> !r.error && r.pos == old(r.pos) + 10
  {
    var length := ExpectSection(r, expected);
    if length.None? {
      return None;
    }
    count := GetU32(r);
  }

  method DecodeEntities(r: ByteReader, count: u32) returns (v: Option<seq<EntityRecord>>)
    requires r.Valid() && !r.error
    modifies r
    ensures r.Valid()
    ensures v == if old(r.pos) + ENTITY_BYTES * count > |r.data| then None
                 else Some(EntitiesAt(r.data, old(r.pos), count))
    ensures v.Some? ==> !r.error && r.pos == old(r.pos) + ENTITY_BYTES * count
  {
    var records := [];
    ghost var from := r.pos;
    for i := 0 to count
      invariant r.Valid() && !r.error && r.pos == from + ENTITY_BYTES * i
      invariant records == EntitiesAt(r.data, from, i)
    {
      var e := DecodeEntity(r);
      if e.None? {
        return None;
      }
      records := records + [e.value];
    }
    v := Some(records);
  }

  method StageRegistry(r: ByteReader, save: LoadedSave) returns (next: Option<LoadedSave>)
    requires r.Valid() && !r.error
    modifies r
    ensures Reached(r, ReadRegistry(r.data, Cursor(old(r.pos), save)), next)
  {
    var count := ExpectCount(r, REGISTRY);
    if count.None? {
      return None;
    }
    var records := DecodeEntities(r, count.value);
    if records.None? {
      return None;
    }
    next := Some(save.(entities := records.value));
  }

  method DecodePlayers(r: ByteReader, count: u32) returns (v: Option<seq<PlayerRecord>>)
    requires r.Valid() && !r.error
    modifies r
    ensures r.Valid()
    ensures v == if old(r.pos) + PLAYER_BYTES * count > |r.data| then None
                 else Some(PlayersAt(r.data, old(r.pos), count))
    ensures v.Some? ==> !r.error && r.pos == old(r.pos) + PLAYER_BYTES * count
  {
    var records := [];
    ghost var from := r.pos;
    for i := 0 to count
      invariant r.Valid() && !r.error && r.pos == from + PLAYER_BYTES * i
      invariant records == PlayersAt(r.data, from, i)
    {
      var p := DecodePlayer(r);
      if p.None? {
        return None;
      }
      records := records + [p.value];
    }
    v := Some(records);
  }

  method StagePlayers(r: ByteReader, save: LoadedSave) returns (next: Option<LoadedSave>)
    requires r.Valid() && !r.error
    modifies r
    ensures Reached(r, ReadPlayers(r.data, Cursor(old(r.pos), save)), next)
  {
    var count := ExpectCount(r, PLAYERS);
    if count.None? {
      return None;
    }
    var records := DecodePlayers(r, count.value);
    if records.None? {
      return None;
    }
    next := Some(save.(players := records.value));
  }

  method DecodeAlifes(r: ByteReader, count: u32) returns (v: Option<seq<AlifeRecord>>)
    requires r.Valid() && !r.error
    modifies r
    ensures r.Valid()
    ensures v == if old(r.pos) + ALIFE_BYTES * count > |r.data| then None else Some(AlifesAt(r.data, old(r.pos), count))
    ensures v.Some? ==> !r.error && r.pos == old(r.pos) + ALIFE_BYTES * count
  {
    var records := [];
    ghost var from := r.pos;
    for i := 0 to count
      invariant r.Valid() && !r.error && r.pos == from + ALIFE_BYTES * i
      invariant records == AlifesAt(r.data, from, i)
    {
      var a := DecodeAlife(r);
      if a.None? {
        return None;
      }
      records := records + [a.value];
    }
    v := Some(records);
  }

  method StageAlife(r: ByteReader, save: LoadedSave) returns (next: Option<LoadedSave>)
    requires r.Valid() && !r.error
    modifies r
    ensures Reached(r, ReadAlife(r.data, Cursor(old(r.pos), save)), next)
  {
    var count := ExpectCount(r, ALIFE);
    if count.None? {
      return None;
    }
    var records := DecodeAlifes(r, count.value);
    if records.None? {
      return None;
    }
    next := Some(save.(alife := records.value));
  }

  method StageScheduler(r: ByteReader, save: LoadedSave) returns (next: Option<LoadedSave>)
    requires r.Valid() && !r.error
    modifies r
    ensures Reached(r, ReadScheduler(r.data, Cursor(old(r.pos), save)), next)
  {
    var length := ExpectSection(r, SCHEDULER);
    if length.None? {
      return None;
    }
    var scheduler := DecodeScheduler(r);
    if scheduler.None? {
      return None;
    }
    next := Some(save.(scheduler := scheduler.value));
  }

  method StageStory(r: ByteReader, save: LoadedSave) returns (next: Option<LoadedSave>)
    requires r.Valid() && !r.error
    modifies r
    ensures Reached(r, ReadStory(r.data, Cursor(old(r.pos), save)), next)
  {
    var length := ExpectSection(r, STORY);
    if length.None? {
      return None;
    }
    var ok := r.Take(length.value);
    next := if ok then Some(save) else None;
  }

  method StageMetadata(r: ByteReader, save: LoadedSave) returns (next: Option<LoadedSave>)
    requires r.Valid() && !r.error
    modifies r
    ensures Reached(r, ReadMetadata(r.data, Cursor(old(r.pos), save)), next)
  {
    var length := ExpectSection(r, METADATA);
    if length.None? {
      return None;
    }
    var metadata := DecodeMetadata(r);
    if metadata.None? {
      return None;
    }
    next := Some(save.(metadata := metadata.value));
  }

  /** The checksum over everything read so far against the stored one. */
  method CheckTrailer(r: ByteReader, save: LoadedSave) returns (result: ParseResult)
    requires r.Valid() && !r.error
    modifies r
    ensures result == ParseTrailer(r.data, Cursor(old(r.pos), save))
  {
    var bodyLength := r.pos;
    var stored := GetU64(r);
    if stored.None? {
      return Failed(CorruptedSave);
    }
    var checksum := Checksum(r.data[..bodyLength]);
    if checksum != stored.value {
      return Failed(ChecksumFailure);
    }
    result := Parsed(save);
  }

  // --------------------------------------------------------------------------------- parse

  /** What is still to be parsed after section k is all there is to the result. */
  lemma {:induction false} StageStep(d: seq<u8>, k: nat, c: Cursor, next: Option<Cursor>, goal: ParseResult)
    requires k < |ORDER| && next == ReadSection(d, ORDER[k], c) && goal == ParseSections(d, ORDER[k..], c)
    ensures next.None? ==> goal == Failed(CorruptedSave)
    ensures next.Some? ==> goal == ParseSections(d, ORDER[k + 1..], next.value)
  {
    assert ORDER[k..][1..] == ORDER[k + 1..];
  }

  method ReadHeader(r: ByteReader) returns (outcome: Outcome)
    requires r.Valid() && !r.error && r.pos == 0
    modifies r
    ensures r.Valid()
    ensures outcome == if |r.data| < 8 || Word(r.data, 0) != MAGIC then CorruptedSave
                       else if Word(r.data, 4) != FORMAT_VERSION then VersionMismatch else Ok
    ensures outcome == Ok ==> !r.error && r.pos == 8
  {
    var magic := GetU32(r);
    var version := GetU32(r);
    if version.None? {
      return CorruptedSave;
    }
    if magic.value != MAGIC {
      return CorruptedSave;
    }
    if version.value != FORMAT_VERSION {
      return VersionMismatch;
    }
    outcome := Ok;
  }

  /** World to players. */
  method ParseFirst(r: ByteReader, ghost goal: ParseResult) returns (save: Option<LoadedSave>)
    requires r.Valid() && !r.error && goal == ParseSections(r.data, ORDER[0..], Cursor(r.pos, NO_SAVE))
    modifies r
    ensures save.None? ==> goal == Failed(CorruptedSave)
    ensures save.Some? ==>
      r.Valid() && !r.error && goal == ParseSections(r.data, ORDER[4..], Cursor(r.pos, save.value))
  {
    ghost var c := Cursor(r.pos, NO_SAVE);
    save := StageWorld(r, NO_SAVE);
    StageStep(r.data, 0, c, ReadWorld(r.data, c), goal);
    if save.None? {
      return;
    }
    c := Cursor(r.pos, save.value);
    save := StageEnvironment(r, save.value);
    StageStep(r.data, 1, c, ReadEnvironment(r.data, c), goal);
    if save.None? {
      return;
    }
    c := Cursor(r.pos, save.value);
    save := StageRegistry(r, save.value);
    StageStep(r.data, 2, c, ReadRegistry(r.data, c), goal);
    if save.None? {
      return;
    }
    c := Cursor(r.pos, save.value);
    save := StagePlayers(r, save.value);
    StageStep(r.data, 3, c, ReadPlayers(r.data, c), goal);
  }

  /** A-Life and the scheduler. */
  method ParseMiddle(r: ByteReader, first: LoadedSave, ghost goal: ParseResult) returns (save: Option<LoadedSave>)
    requires r.Valid() && !r.error && goal == ParseSections(r.data, ORDER[4..], Cursor(r.pos, first))
    modifies r
    ensures save.None? ==> goal == Failed(CorruptedSave)
    ensures save.Some? ==>
      r.Valid() && !r.error && goal == ParseSections(r.data, ORDER[6..], Cursor(r.pos, save.value))
  {
    ghost var c := Cursor(r.pos, first);
    save := StageAlife(r, first);
    StageStep(r.data, 4, c, ReadAlife(r.data, c), goal);
    if save.None? {
      return;
    }
    c := Cursor(r.pos, save.value);
    save := StageScheduler(r, save.value);
    StageStep(r.data, 5, c, ReadScheduler(r.data, c), goal);
  }

  /** Story and metadata. */
  method ParseLast(r: ByteReader, middle: LoadedSave, ghost goal: ParseResult) returns (save: Option<LoadedSave>)
    requires r.Valid() && !r.error && goal == ParseSections(r.data, ORDER[6..], Cursor(r.pos, middle))
    modifies r
    ensures save.None? ==> goal == Failed(CorruptedSave)
    ensures save.Some? ==> r.Valid() && !r.error && goal == ParseTrailer(r.data, Cursor(r.pos, save.value))
  {
    ghost var c := Cursor(r.pos, middle);
    save := StageStory(r, middle);
    StageStep(r.data, 6, c, ReadStory(r.data, c), goal);
    if save.None? {
      return;
    }
    c := Cursor(r.pos, save.value);
    save := StageMetadata(r, save.value);
    StageStep(r.data, 7, c, ReadMetadata(r.data, c), goal);
    assert ORDER[8..] == [];
  }

  method Parse(data: seq<u8>) returns (result: ParseResult)
    ensures result == SaveModel.Parse(data)
  {
    ghost var goal := SaveModel.Parse(data);
    var r := new ByteReader(data);
    var header := ReadHeader(r);
    if header != Ok {
      return Failed(header);
    }
    assert ORDER[0..] == ORDER;
    var first := ParseFirst(r, goal);
    if first.None? {
      return Failed(CorruptedSave);
    }
    var middle := ParseMiddle(r, first.value, goal);
    if middle.None? {
      return Failed(CorruptedSave);
    }
    var save := ParseLast(r, middle.value, goal);
    if save.None? {
      return Failed(CorruptedSave);
    }
    result := CheckTrailer(r, save.value);
  }
}
