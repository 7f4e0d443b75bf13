/** SaveWriter.cpp and the framing of SaveFormat.h, on a growing byte writer. */
module SaveWriters {
  import opened Prelude
  import opened Wire
  import opened SnapshotTypes
  import opened SaveModel
  import opened SaveCursors

  method PutWords(w: ByteWriter, a: u32, b: u32, c: u32)
    modifies w
    ensures w.bytes == old(w.bytes) + Words(a, b, c)
  {
    w.PutU32(a);
    w.PutU32(b);
    w.PutU32(c);
    Joined(old(w.bytes), LE(a, 4), LE(b, 4));
    Joined(old(w.bytes), LE(a, 4) + LE(b, 4), LE(c, 4));
  }

  method PutVec3(w: ByteWriter, v: Vec3)
    modifies w
    ensures w.bytes == old(w.bytes) + Vec3Bytes(v)
  {
    PutWords(w, v.x, v.y, v.z);
  }

  method EncodeWorld(view: Snapshot) returns (payload: seq<u8>)
    ensures payload == WorldBytes(view)
  {
    var w := new ByteWriter();
    w.PutU64(view.metadata.simulationTick);
    w.PutU64(view.environment.timeOfDaySeconds);
    PutWords(w, view.environment.weatherId, 0, 0);
    payload := w.bytes;
  }

  method EncodeEnvironment(env: EnvironmentSnapshot) returns (payload: seq<u8>)
    ensures payload == EnvironmentBytes(env)
  {
    var w := new ByteWriter();
    PutWords(w, env.weatherId, env.timeOfDaySeconds, env.emissionState);
    w.PutU32(env.lighting);
    w.PutU32(env.environmentVersion);
    payload := w.bytes;
  }

  method PutMotion(w: ByteWriter, e: EntitySnapshot)
    modifies w
    ensures w.bytes == old(w.bytes) + (LE(e.id, 4) + Vec3Bytes(e.position) + Vec3Bytes(e.velocity))
  {
    w.PutU32(e.id);
    PutVec3(w, e.position);
    PutVec3(w, e.velocity);
    Joined(old(w.bytes), LE(e.id, 4), Vec3Bytes(e.position));
    Joined(old(w.bytes), LE(e.id, 4) + Vec3Bytes(e.position), Vec3Bytes(e.velocity));
  }

  method PutState(w: ByteWriter, e: EntitySnapshot)
    modifies w
    ensures w.bytes
         == old(w.bytes) + (Words(e.state, e.flags, e.inventoryRef) + LE(0, 4) + LE(e.runtimeState, 8) + LE(0, 4))
  {
    ghost var s, words := old(w.bytes), Words(e.state, e.flags, e.inventoryRef);
    PutWords(w, e.state, e.flags, e.inventoryRef);
    w.PutU32(0);
    w.PutU64(e.runtimeState);
    w.PutU32(0);
    Joined(s, words, LE(0, 4));
    Joined(s, words + LE(0, 4), LE(e.runtimeState, 8));
    Joined(s, words + LE(0, 4) + LE(e.runtimeState, 8), LE(0, 4));
  }

  method EncodeRegistry(view: Snapshot) returns (payload: seq<u8>)
    ensures payload == RegistryBytes(view)
  {
    var w := new ByteWriter();
    w.PutU32(Low32(|view.entities|));
    ghost var count := LE(Low32(|view.entities|), 4);
    for i := 0 to |view.entities|
      invariant w.bytes == count + EntitiesBytes(view.entities[..i])
    {
      var e := view.entities[i];
      ghost var before := w.bytes;
      PutMotion(w, e);
      ghost var motion := LE(e.id, 4) + Vec3Bytes(e.position) + Vec3Bytes(e.velocity);
      ghost var state := Words(e.state, e.flags, e.inventoryRef) + LE(0, 4) + LE(e.runtimeState, 8) + LE(0, 4);
      PutState(w, e);
      Joined(before, motion, state);
      Joined(count, EntitiesBytes(view.entities[..i]), EntityBytes(e));
      assert view.entities[..i + 1][..i] == view.entities[..i];
    }
    assert view.entities[..|view.entities|] == view.entities;
    payload := w.bytes;
  }

  method PutPlayer(w: ByteWriter, p: PlayerSnapshot)
    modifies w
    ensures w.bytes == old(w.bytes) + PlayerBytes(p)
  {
    ghost var s, where := old(w.bytes), LE(p.id, 4) + LE(p.entity, 4) + Vec3Bytes(p.position);
    ghost var words := Words(p.simulationState, 0, p.authorityFlags);
    w.PutU32(p.id);
    w.PutU32(p.entity);
    PutVec3(w, p.position);
    Joined(s, LE(p.id, 4), LE(p.entity, 4));
    Joined(s, LE(p.id, 4) + LE(p.entity, 4), Vec3Bytes(p.position));
    PutWords(w, p.simulationState, 0, p.authorityFlags);
    w.PutU8(p.connectionState);
    Joined(s + where, words, LE(p.connectionState, 1));
    Joined(s, where, words + LE(p.connectionState, 1));
  }

  method EncodePlayers(view: Snapshot) returns (payload: seq<u8>)
    ensures payload == PlayersSectionBytes(view)
  {
    var w := new ByteWriter();
    w.PutU32(Low32(|view.players|));
    ghost var count := LE(Low32(|view.players|), 4);
    for i := 0 to |view.players|
      invariant w.bytes == count + PlayersBytes(view.players[..i])
    {
      PutPlayer(w, view.players[i]);
      Joined(count, PlayersBytes(view.players[..i]), PlayerBytes(view.players[i]));
      assert view.players[..i + 1][..i] == view.players[..i];
    }
    assert view.players[..|view.players|] == view.players;
    payload := w.bytes;
  }

  method EncodeAlife() returns (payload: seq<u8>)
    ensures payload == LE(0, 4)
  {
    var w := new ByteWriter();
    w.PutU32(0);
    payload := w.bytes;
  }

  method EncodeScheduler(view: Snapshot) returns (payload: seq<u8>)
    ensures payload == SchedulerBytes(view)
  {
    var w := new ByteWriter();
    w.PutU64(view.metadata.simulationTick);
    PutWords(w, 0, 0, 0);
    w.PutU64(0);
    payload := w.bytes;
  }

  method EncodeMetadata(m: SaveMetadata) returns (payload: seq<u8>)
    ensures payload == MetadataBytes(m)
  {
    var w := new ByteWriter();
    hide LE, Words;
    ghost var ids := LE(m.saveId, 8) + LE(m.simulationTick, 8);
    ghost var words := Words(m.entityCount, m.worldVersion, m.buildVersion);
    w.PutU64(m.saveId);
    w.PutU64(m.simulationTick);
    w.PutU32(m.playerCount);
    PutWords(w, m.entityCount, m.worldVersion, m.buildVersion);
    w.PutU64(m.checksum);
    Joined(ids, LE(m.playerCount, 4), words);
    Joined(ids, LE(m.playerCount, 4) + words, LE(m.checksum, 8));
    payload := w.bytes;
  }

  method WriteHeader(w: ByteWriter)
    modifies w
    ensures w.bytes == old(w.bytes) + HeaderBytes()
  {
    w.PutU32(MAGIC);
    w.PutU32(FORMAT_VERSION);
    Joined(old(w.bytes), LE(MAGIC, 4), LE(FORMAT_VERSION, 4));
  }

  method WriteSection(w: ByteWriter, id: u16, payload: seq<u8>)
    modifies w
    ensures w.bytes == old(w.bytes) + Framed(id, payload)
  {
    w.PutU16(id);
    w.PutU32(Low32(|payload|));
    w.PutBytes(payload);
    Joined(old(w.bytes), LE(id, 2), LE(Low32(|payload|), 4));
    Joined(old(w.bytes), LE(id, 2) + LE(Low32(|payload|), 4), payload);
  }

  method Checksum(data: seq<u8>) returns (h: u64)
    ensures h == Fnv64(data)
  {
    h := 1469598103934665603;
    for i := 0 to |data|
      invariant h == Fnv64(data[..i])
    {
      assert data[..i + 1][..i] == data[..i];
      h := MixByte(h, data[i]);
    }
    assert data[..|data|] == data;
  }

  /** What is written, and what of the sections is still to be framed, make up the body. */
  ghost predicate Framing(written: seq<u8>, all: seq<(u16, seq<u8>)>, k: nat, body: seq<u8>)
    requires k <= |all|
  {
    written + FramedAll(all[k..]) == body
  }

  lemma FrameNext(written: seq<u8>, all: seq<(u16, seq<u8>)>, k: nat, body: seq<u8>)
    requires k < |all| && Framing(written, all, k, body)
    ensures Framing(written + Framed(all[k].0, all[k].1), all, k + 1, body)
  {
    assert all[k..][1..] == all[k + 1..];
    Joined(written, Framed(all[k].0, all[k].1), FramedAll(all[k + 1..]));
  }

  /** Section k goes out. */
  method Frame(w: ByteWriter, id: u16, payload: seq<u8>, ghost body: seq<u8>, ghost all: seq<(u16, seq<u8>)>,
               ghost k: nat)
    requires k < |all| && all[k] == (id, payload) && Framing(w.bytes, all, k, body)
    modifies w
    ensures Framing(w.bytes, all, k + 1, body)
  {
    FrameNext(w.bytes, all, k, body);
    WriteSection(w, id, payload);
  }

  /** The header and the eight sections, in two halves. */
  method SerializeBody(view: Snapshot, metadata: SaveMetadata) returns (out: ByteWriter)
    ensures fresh(out) && out.bytes == Body(view, metadata)
  {
    ghost var body, all := Body(view, metadata), Sections(view, metadata);
    out := new ByteWriter();
    WriteHeader(out);
    assert out.bytes == HeaderBytes() && all[0..] == all;
    FrameFirst(out, view, body, all);
    FrameLast(out, view, metadata, body, all);
    assert all[8..] == [];
  }

  method FrameFirst(out: ByteWriter, view: Snapshot, ghost body: seq<u8>, ghost all: seq<(u16, seq<u8>)>)
    requires |all| == 8
    requires all[0] == (WORLD, WorldBytes(view)) && all[1] == (ENVIRONMENT, EnvironmentBytes(view.environment))
    requires all[2] == (REGISTRY, RegistryBytes(view)) && all[3] == (PLAYERS, PlayersSectionBytes(view))
    requires Framing(out.bytes, all, 0, body)
    modifies out
    ensures Framing(out.bytes, all, 4, body)
  {
    var world := EncodeWorld(view);
    Frame(out, WORLD, world, body, all, 0);
    var environment := EncodeEnvironment(view.environment);
    Frame(out, ENVIRONMENT, environment, body, all, 1);
    var registry := EncodeRegistry(view);
    Frame(out, REGISTRY, registry, body, all, 2);
    var players := EncodePlayers(view);
    Frame(out, PLAYERS, players, body, all, 3);
  }

  method FrameLast(out: ByteWriter, view: Snapshot, metadata: SaveMetadata, ghost body: seq<u8>,
                   ghost all: seq<(u16, seq<u8>)>)
    requires |all| == 8 && all[4] == (ALIFE, LE(0, 4)) && all[5] == (SCHEDULER, SchedulerBytes(view))
    requires all[6] == (STORY, []) && all[7] == (METADATA, MetadataBytes(metadata))
    requires Framing(out.bytes, all, 4, body)
    modifies out
    ensures Framing(out.bytes, all, 8, body)
  {
    var alife := EncodeAlife();
    Frame(out, ALIFE, alife, body, all, 4);
    var scheduler := EncodeScheduler(view);
    Frame(out, SCHEDULER, scheduler, body, all, 5);
    Frame(out, STORY, [], body, all, 6);
    var meta := EncodeMetadata(metadata);
    Frame(out, METADATA, meta, body, all, 7);
  }

  method Serialize(view: Snapshot, metadata: SaveMetadata) returns (bytes: seq<u8>)
    ensures bytes == Serialized(view, metadata)
  {
    var out := SerializeBody(view, metadata);
    var checksum := Checksum(out.bytes);
    out.PutU64(checksum);
    bytes := out.bytes;
  }
}
