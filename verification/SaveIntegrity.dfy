/** SaveMetadataBuilder.cpp and SaveIntegrityValidator.cpp, and what they promise each other. */
module SaveIntegrity {
  import opened Prelude
  import opened Wire
  import opened SnapshotTypes
  import opened SaveModel
  import opened SaveTheorems

  // -------------------------------------------------------------------------- the metadata

  /** The snapshot's values in fixed order; wall clock, ids and counts of the header are not among them. */
  function EntityWords(e: EntitySnapshot): seq<u64> {
    [e.id, e.position.x, e.position.y, e.position.z, e.velocity.x, e.velocity.y, e.velocity.z, e.state, e.flags,
     e.inventoryRef, e.runtimeState]
  }

  function PlayerWords(p: PlayerSnapshot): seq<u64> {
    [p.id, p.entity, p.connectionState, p.position.x, p.position.y, p.position.z, p.simulationState, p.authorityFlags]
  }

  function AllEntityWords(es: seq<EntitySnapshot>): seq<u64> {
    if es == [] then [] else AllEntityWords(es[..|es| - 1]) + EntityWords(es[|es| - 1])
  }

  function AllPlayerWords(ps: seq<PlayerSnapshot>): seq<u64> {
    if ps == [] then [] else AllPlayerWords(ps[..|ps| - 1]) + PlayerWords(ps[|ps| - 1])
  }

  function HeaderWords(s: Snapshot): seq<u64> {
    [s.metadata.simulationTick, Low64(|s.entities|), Low64(|s.players|), s.environment.environmentVersion,
     s.metadata.version]
  }

  function EnvironmentWords(e: EnvironmentSnapshot): seq<u64> {
    [e.weatherId, e.timeOfDaySeconds, e.emissionState, e.lighting, e.environmentVersion]
  }

  function ContentWords(s: Snapshot): seq<u64> {
    HeaderWords(s) + AllEntityWords(s.entities) + AllPlayerWords(s.players) + EnvironmentWords(s.environment)
  }

  function WordBytes(words: seq<u64>): seq<u8> {
    if words == [] then [] else WordBytes(words[..|words| - 1]) + LE(words[|words| - 1], 8)
  }

  /** The digest of a word list: FNV-1a over its bytes. */
  function Digest(words: seq<u64>): u64 {
    Fnv64(WordBytes(words))
  }

  function MetadataOf(s: Snapshot, saveId: u64): SaveMetadata {
    SaveMetadata(saveId, s.metadata.simulationTick, Low32(|s.players|), Low32(|s.entities|),
                 s.environment.environmentVersion, s.metadata.version, Digest(ContentWords(s)),
                 s.metadata.timestampWallClock)
  }

  /** One value into the running digest, byte by byte. */
  method Mix(h: u64, ghost done: seq<u64>, value: u64) returns (h': u64, ghost done': seq<u64>)
    requires h == Digest(done)
    ensures done' == done + [value] && h' == Digest(done')
  {
    h' := h;
    done' := done + [value];
    var rest: nat := value;
    ghost var bytes: seq<u8> := WordBytes(done);
    for i := 0 to 8
      invariant h' == Fnv64(bytes) && bytes + LE(rest, 8 - i) == WordBytes(done) + LE(value, 8)
    {
      ghost var before := bytes;
      bytes := bytes + [rest % 256];
      Joined(before, [rest % 256], LE(rest / 256, 8 - i - 1));
      SnocSplit(before, rest % 256);
      h' := MixByte(h', rest % 256);
      rest := rest / 256;
    }
    SnocSplit(done, value);
    assert bytes + [] == bytes;
  }

  method MixVec3(h: u64, ghost done: seq<u64>, v: Vec3) returns (h': u64, ghost done': seq<u64>)
    requires h == Digest(done)
    ensures done' == done + [v.x, v.y, v.z] && h' == Digest(done')
  {
    h', done' := Mix(h, done, v.x);
    h', done' := Mix(h', done', v.y);
    h', done' := Mix(h', done', v.z);
  }

  method MixEntity(h: u64, ghost done: seq<u64>, e: EntitySnapshot) returns (h': u64, ghost done': seq<u64>)
    requires h == Digest(done)
    ensures done' == done + EntityWords(e) && h' == Digest(done')
  {
    hide Digest;
    ghost var motion := [e.id, e.position.x, e.position.y, e.position.z, e.velocity.x, e.velocity.y, e.velocity.z];
    ghost var state := [e.state, e.flags, e.inventoryRef, e.runtimeState];
    h', done' := Mix(h, done, e.id);
    h', done' := MixVec3(h', done', e.position);
    h', done' := MixVec3(h', done', e.velocity);
    assert done' == done + motion;
    h', done' := MixState(h', done', e);
    Joined(done, motion, state);
    assert motion + state == EntityWords(e);
  }

  method MixState(h: u64, ghost done: seq<u64>, e: EntitySnapshot) returns (h': u64, ghost done': seq<u64>)
    requires h == Digest(done)
    ensures done' == done + [e.state, e.flags, e.inventoryRef, e.runtimeState] && h' == Digest(done')
  {
    hide Digest;
    h', done' := Mix(h, done, e.state);
    h', done' := Mix(h', done', e.flags);
    h', done' := Mix(h', done', e.inventoryRef);
    h', done' := Mix(h', done', e.runtimeState);
  }

  method MixPlayer(h: u64, ghost done: seq<u64>, p: PlayerSnapshot) returns (h': u64, ghost done': seq<u64>)
    requires h == Digest(done)
    ensures done' == done + PlayerWords(p) && h' == Digest(done')
  {
    h', done' := Mix(h, done, p.id);
    h', done' := Mix(h', done', p.entity);
    h', done' := Mix(h', done', p.connectionState);
    h', done' := MixVec3(h', done', p.position);
    h', done' := Mix(h', done', p.simulationState);
    h', done' := Mix(h', done', p.authorityFlags);
  }

  method MixEnvironment(h: u64, ghost done: seq<u64>, e: EnvironmentSnapshot) returns (h': u64, ghost done': seq<u64>)
    requires h == Digest(done)
    ensures done' == done + EnvironmentWords(e) && h' == Digest(done')
  {
    h', done' := Mix(h, done, e.weatherId);
    h', done' := Mix(h', done', e.timeOfDaySeconds);
    h', done' := Mix(h', done', e.emissionState);
    h', done' := Mix(h', done', e.lighting);
    h', done' := Mix(h', done', e.environmentVersion);
  }

  method MixHeader(view: Snapshot) returns (h: u64)
    ensures h == Digest(HeaderWords(view))
  {
    h := 1469598103934665603;
    ghost var done: seq<u64> := [];
    h, done := Mix(h, done, view.metadata.simulationTick);
    h, done := Mix(h, done, Low64(|view.entities|));
    h, done := Mix(h, done, Low64(|view.players|));
    h, done := Mix(h, done, view.environment.environmentVersion);
    h, done := Mix(h, done, view.metadata.version);
    assert done == HeaderWords(view);
  }

  method ContentChecksum(view: Snapshot) returns (h: u64)
    ensures h == Digest(ContentWords(view))
  {
    h := MixHeader(view);
    ghost var done := HeaderWords(view);
    for i := 0 to |view.entities|
      invariant h == Digest(done) && done == HeaderWords(view) + AllEntityWords(view.entities[..i])
    {
      Joined(HeaderWords(view), AllEntityWords(view.entities[..i]), EntityWords(view.entities[i]));
      assert view.entities[..i + 1][..i] == view.entities[..i];
      h, done := MixEntity(h, done, view.entities[i]);
    }
    assert view.entities[..|view.entities|] == view.entities;
    ghost var before := done;
    for i := 0 to |view.players|
      invariant h == Digest(done) && done == before + AllPlayerWords(view.players[..i])
    {
      Joined(before, AllPlayerWords(view.players[..i]), PlayerWords(view.players[i]));
      assert view.players[..i + 1][..i] == view.players[..i];
      h, done := MixPlayer(h, done, view.players[i]);
    }
    assert view.players[..|view.players|] == view.players;
    h, done := MixEnvironment(h, done, view.environment);
  }

  method Build(view: Snapshot, saveId: u64) returns (m: SaveMetadata)
    ensures m == MetadataOf(view, saveId)
  {
    var checksum := ContentChecksum(view);
    m := SaveMetadata(saveId, view.metadata.simulationTick, Low32(|view.players|), Low32(|view.entities|),
                      view.environment.environmentVersion, view.metadata.version, checksum,
                      view.metadata.timestampWallClock);
  }

  // ------------------------------------------------------------------------- the validator

  ghost predicate CountsAgree(save: LoadedSave) {
    save.metadata.entityCount == |save.entities| && save.metadata.playerCount == |save.players|
  }

  ghost predicate RegistryOrdered(save: LoadedSave) {
    && (forall i :: 0 <= i < |save.entities| ==> save.entities[i].id != 0)
    && (forall i, j :: 0 <= i < j < |save.entities| ==> save.entities[i].id < save.entities[j].id)
  }

  ghost predicate Present(save: LoadedSave, id: u32) {
    id == 0 || exists i :: 0 <= i < |save.entities| && save.entities[i].id == id
  }

  ghost predicate ReferencesClosed(save: LoadedSave) {
    && (forall i :: 0 <= i < |save.entities| ==>
          Present(save, save.entities[i].inventoryRef) && Present(save, save.entities[i].owner))
    && (forall i :: 0 <= i < |save.players| ==> Present(save, save.players[i].entity))
  }

  method ValidateCounts(save: LoadedSave) returns (outcome: Outcome)
    ensures outcome == if CountsAgree(save) then Ok else IntegrityFailure
  {
    if save.metadata.entityCount != |save.entities| || save.metadata.playerCount != |save.players| {
      return IntegrityFailure;
    }
    outcome := Ok;
  }

  /** One pass over neighbours decides the order of all pairs. */
  method ValidateRegistry(save: LoadedSave) returns (outcome: Outcome)
    ensures outcome == if RegistryOrdered(save) then Ok else IntegrityFailure
  {
    var previous: u32 := 0;
    for i := 0 to |save.entities|
      invariant forall j :: 0 <= j < i ==> save.entities[j].id != 0
      invariant forall j, k :: 0 <= j < k < i ==> save.entities[j].id < save.entities[k].id
      invariant i > 0 ==> previous == save.entities[i - 1].id
    {
      var id := save.entities[i].id;
      if id == 0 {
        return IntegrityFailure;
      }
      if i > 0 && id <= previous {
        return IntegrityFailure;
      }
      previous := id;
    }
    outcome := Ok;
  }

  method ValidateReferences(save: LoadedSave) returns (outcome: Outcome)
    ensures outcome == if ReferencesClosed(save) then Ok else MissingData
  {
    var present: set<u32> := {};
    for i := 0 to |save.entities|
      invariant forall id :: id in present <==> exists j :: 0 <= j < i && save.entities[j].id == id
    {
      present := present + {save.entities[i].id};
    }
    for i := 0 to |save.entities|
      invariant forall j :: 0 <= j < i ==>
        Present(save, save.entities[j].inventoryRef) && Present(save, save.entities[j].owner)
    {
      var e := save.entities[i];
      if (e.inventoryRef != 0 && e.inventoryRef !in present) || (e.owner != 0 && e.owner !in present) {
        return MissingData;
      }
    }
    for i := 0 to |save.players|
      invariant forall j :: 0 <= j < i ==> Present(save, save.players[j].entity)
    {
      var id := save.players[i].entity;
      if id != 0 && id !in present {
        return MissingData;
      }
    }
    outcome := Ok;
  }

  // --------------------------------------------------------------------------- round trips

  ghost predicate Captured(s: Snapshot, id: u32) {
    id == 0 || exists i :: 0 <= i < |s.entities| && s.entities[i].id == id
  }

  /** Every entity the snapshot refers to was captured. */
  ghost predicate SelfContained(s: Snapshot) {
    && (forall i :: 0 <= i < |s.entities| ==> Captured(s, s.entities[i].inventoryRef))
    && (forall i :: 0 <= i < |s.players| ==> Captured(s, s.players[i].entity))
  }

  /** The loaded records name the entities and players of the snapshot, in its order. */
  ghost predicate SameRecords(s: Snapshot, save: LoadedSave) {
    && |save.entities| == |s.entities| && |save.players| == |s.players|
    && (forall i :: 0 <= i < |s.entities| ==> save.entities[i] == RestoredEntity(s.entities[i]))
    && (forall i :: 0 <= i < |s.players| ==> save.players[i] == RestoredPlayer(s.players[i]))
  }

  lemma PresentIffCaptured(s: Snapshot, save: LoadedSave, id: u32)
    requires SameRecords(s, save)
    ensures Present(save, id) <==> Captured(s, id)
  {
    if Captured(s, id) && id != 0 {
      var i :| 0 <= i < |s.entities| && s.entities[i].id == id;
      assert save.entities[i].id == id;
    }
    if Present(save, id) && id != 0 {
      var i :| 0 <= i < |save.entities| && save.entities[i].id == id;
      assert s.entities[i].id == id;
    }
  }

  lemma ClosedIffSelfContained(s: Snapshot, save: LoadedSave)
    requires SameRecords(s, save)
    ensures ReferencesClosed(save) <==> SelfContained(s)
  {
    forall id: u32 ensures Present(save, id) <==> Captured(s, id) {
      PresentIffCaptured(s, save, id);
    }
    if SelfContained(s) {
      forall i | 0 <= i < |save.entities|
        ensures Present(save, save.entities[i].inventoryRef) && Present(save, save.entities[i].owner)
      {
        assert Captured(s, s.entities[i].inventoryRef);
      }
    }
    if ReferencesClosed(save) {
      forall i | 0 <= i < |s.entities| ensures Captured(s, s.entities[i].inventoryRef) {
        assert Present(save, save.entities[i].inventoryRef);
      }
      forall i | 0 <= i < |s.players| ensures Captured(s, s.players[i].entity) {
        assert Present(save, save.players[i].entity);
      }
    }
  }

  lemma OrderedRegistry(s: Snapshot, save: LoadedSave)
    requires SameRecords(s, save) && AscendingEntities(s.entities)
    ensures RegistryOrdered(save)
  {
  }

  lemma RestoredValidates(s: Snapshot, saveId: u64, save: LoadedSave)
    requires |s.entities| < 0x1_0000_0000 && |s.players| < 0x1_0000_0000 && AscendingEntities(s.entities)
    requires save == Restored(s, MetadataOf(s, saveId))
    ensures CountsAgree(save) && RegistryOrdered(save) && (ReferencesClosed(save) <==> SelfContained(s))
  {
    hide ReferencesClosed, SelfContained, Digest, ContentWords;
    assert SameRecords(s, save);
    OrderedRegistry(s, save);
    ClosedIffSelfContained(s, save);
  }

  /**
   * A snapshot with ascending entities, saved under the metadata built for it, loads back whole, with
   * agreeing counts and an ordered registry; its references are closed exactly when every entity it
   * refers to was captured.
   */
  lemma SavedSnapshotValidates(s: Snapshot, saveId: u64) returns (save: LoadedSave)
    requires |s.entities| < 0x1_0000_0000 && |s.players| < 0x1_0000_0000 && AscendingEntities(s.entities)
    ensures save == Restored(s, MetadataOf(s, saveId))
    ensures Parse(Serialized(s, MetadataOf(s, saveId))) == Parsed(save)
    ensures CountsAgree(save) && RegistryOrdered(save) && (ReferencesClosed(save) <==> SelfContained(s))
  {
    save := Restored(s, MetadataOf(s, saveId));
    SaveRoundTrip(s, MetadataOf(s, saveId));
    RestoredValidates(s, saveId, save);
  }

  /** A published snapshot with an entity that refers to one not captured: the save loads whole and is refused. */
  lemma DanglingReferenceIsRefused(saveId: u64, tick: u64, version: u32)
    ensures var still := Vec3(0, 0, 0);
      var s := Sealed(Begun(1, tick, version).(entities := [EntitySnapshot(4, still, still, 0, 0, 9, 0)]));
      var save := Restored(s, MetadataOf(s, saveId));
      Parse(Serialized(s, MetadataOf(s, saveId))) == Parsed(save) && !ReferencesClosed(save)
  {
    var still := Vec3(0, 0, 0);
    var s := Sealed(Begun(1, tick, version).(entities := [EntitySnapshot(4, still, still, 0, 0, 9, 0)]));
    var save := SavedSnapshotValidates(s, saveId);
    assert s.entities[0].inventoryRef == 9 && !Captured(s, 9);
  }
}
