/** The layout that ReplicationPacketBuilder.h documents, read back: the inverse of the builder. */
module UpdateReaders {
  import opened Prelude
  import opened Wire
  import opened SnapshotTypes
  import opened ReplicationTypes
  import opened ReplicationPackets

  /** What one record says on the wire. */
  datatype WireRecord = WireRecord(
    kind: Kind, id: u32, version: u32, stateFlags: u32, position: Vec3, priority: Priority)

  datatype Update = Update(client: u64, tick: u64, reliability: Reliability, records: seq<WireRecord>)

  function KindOf(code: u8): Option<Kind> {
    if code == 0 then Some(NoKind) else if code == 1 then Some(Player) else if code == 2 then Some(Combat)
    else if code == 3 then Some(Damage) else if code == 4 then Some(EntitySpawn)
    else if code == 5 then Some(EntityRemove) else if code == 6 then Some(NearbyNpc)
    else if code == 7 then Some(Inventory) else if code == 8 then Some(Animation)
    else if code == 9 then Some(AmbientObject) else if code == 10 then Some(WeatherUpdate)
    else if code == 11 then Some(DistantEntity) else if code == 12 then Some(Position)
    else if code == 13 then Some(Rotation) else if code == 14 then Some(Velocity)
    else if code == 15 then Some(Camera) else if code == 16 then Some(QuestUpdate)
    else if code == 17 then Some(PlayerJoin) else if code == 18 then Some(PlayerLeave) else None
  }

  function PriorityOf(code: u8): Option<Priority> {
    if code == 0 then Some(Low) else if code == 1 then Some(Medium) else if code == 2 then Some(High) else None
  }

  function ReliabilityOf(code: u8): Option<Reliability> {
    if code == 0 then Some(Unreliable) else if code == 1 then Some(Reliable) else None
  }

  function ReadRecord(b: seq<u8>): Option<WireRecord>
    requires |b| == RECORD_BYTES
  {
    match (KindOf(b[0]), PriorityOf(b[25]))
    case (Some(kind), Some(priority)) =>
      Some(WireRecord(kind, Word(b, 1), Word(b, 5), Word(b, 9), Vec3(Word(b, 13), Word(b, 17), Word(b, 21)), priority))
    case _ => None
  }

  function ReadRecords(b: seq<u8>, n: nat): Option<seq<WireRecord>>
    requires |b| == RECORD_BYTES * n
  {
    if n == 0 then Some([])
    else
      var at := RECORD_BYTES * (n - 1);
      match (ReadRecords(b[..at], n - 1), ReadRecord(b[at..]))
      case (Some(init), Some(last)) => Some(init + [last])
      case _ => None
  }

  /** A whole frame, or None if anything about it is off. */
  function ReadUpdate(b: seq<u8>): Option<Update> {
    if |b| < FRAME_BYTES then None
    else
      var count := Field(b, 19, 2);
      var end := |b| - CHECKSUM_BYTES;
      if Field(b, 0, 2) != MSG_REPLICATION_UPDATE || end != HEADER_BYTES + RECORD_BYTES * count
         || Field(b, end, 4) != Fnv32(b[..end])
      then None
      else
        match (ReliabilityOf(b[18]), ReadRecords(b[HEADER_BYTES..end], count))
        case (Some(reliability), Some(records)) => Some(Update(U64At(b, 2), U64At(b, 10), reliability, records))
        case _ => None
  }

  function OnWire(r: Record): WireRecord {
    WireRecord(r.kind, r.entity.id, r.entity.version, r.entity.stateFlags, r.entity.position, r.priority)
  }

  function AllOnWire(rs: seq<Record>): seq<WireRecord> {
    seq(|rs|, i requires 0 <= i < |rs| => OnWire(rs[i]))
  }

  // ------------------------------------------------------------------------- round trips

  lemma CodesRoundTrip(k: Kind, p: Priority, r: Reliability)
    ensures KindOf(KindCode(k)) == Some(k) && PriorityOf(PriorityCode(p)) == Some(p)
    ensures ReliabilityOf(ReliabilityCode(r)) == Some(r)
  {
  }

  lemma RecordRoundTrip(r: Record)
    ensures ReadRecord(RecordBytes(r)) == Some(OnWire(r))
  {
    var b := RecordBytes(r);
    CodesRoundTrip(r.kind, r.priority, r.reliability);
    WordsReadBack(b, 1, r.entity.id, r.entity.version, r.entity.stateFlags);
    WordsReadBack(b, 13, r.entity.position.x, r.entity.position.y, r.entity.position.z);
  }

  lemma {:induction false} RecordsRoundTrip(rs: seq<Record>)
    ensures ReadRecords(RecordsBytes(rs), |rs|) == Some(AllOnWire(rs))
  {
    if rs != [] {
      var n := |rs| - 1;
      var b := RecordsBytes(rs);
      var at := RECORD_BYTES * n;
      assert b[..at] == RecordsBytes(rs[..n]) && b[at..] == RecordBytes(rs[n]);
      RecordsRoundTrip(rs[..n]);
      RecordRoundTrip(rs[n]);
      assert AllOnWire(rs) == AllOnWire(rs[..n]) + [OnWire(rs[n])];
    } else {
      assert AllOnWire(rs) == [];
    }
  }

  lemma HeaderReadsBack(b: seq<u8>, client: u64, tick: u64, reliability: Reliability, count: u16)
    requires |b| >= HEADER_BYTES && b[..HEADER_BYTES] == HeaderBytes(client, tick, reliability, count)
    ensures Field(b, 0, 2) == MSG_REPLICATION_UPDATE && U64At(b, 2) == client && U64At(b, 10) == tick
    ensures ReliabilityOf(b[18]) == Some(reliability) && Field(b, 19, 2) == count
  {
    Widths();
    var h := b[..HEADER_BYTES];
    assert h[18] == b[18] && h[19..] == b[19..21];
    var a := Addressing(client, tick);
    assert h[..18] == a == b[..18];
    assert b[0..2] == a[0..2] && b[2..10] == a[2..10] && b[10..18] == a[10..18];
    CodesRoundTrip(NoKind, Low, reliability);
    FieldReadsBack(b, 0, 2, MSG_REPLICATION_UPDATE);
    U64ReadsBack(b, 2, client);
    U64ReadsBack(b, 10, tick);
    FieldReadsBack(b, 19, 2, count);
  }

  /** The parts of a frame. */
  ghost predicate HasParts(b: seq<u8>, client: u64, tick: u64, reliability: Reliability, rs: seq<Record>) {
    && |rs| <= 0xFFFF && |b| == FRAME_BYTES + RECORD_BYTES * |rs|
    && b[..HEADER_BYTES] == HeaderBytes(client, tick, reliability, |rs|)
    && var end := HEADER_BYTES + RECORD_BYTES * |rs|;
       b[HEADER_BYTES..end] == RecordsBytes(rs) && b[end..end + 4] == LE(Fnv32(b[..end]), 4)
  }

  lemma FrameHasParts(client: u64, tick: u64, reliability: Reliability, rs: seq<Record>)
    requires |rs| <= 0xFFFF
    ensures HasParts(Frame(client, tick, reliability, rs), client, tick, reliability, rs)
  {
    var b := Frame(client, tick, reliability, rs);
    assert b[..|b| - CHECKSUM_BYTES] == Body(client, tick, reliability, rs);
  }

  lemma ChecksumReadsBack(b: seq<u8>, end: nat)
    requires end + 4 <= |b| && b[end..end + 4] == LE(Fnv32(b[..end]), 4)
    ensures Field(b, end, 4) == Fnv32(b[..end])
  {
    Widths();
    FieldReadsBack(b, end, 4, Fnv32(b[..end]));
  }

  lemma PartsReadBack(b: seq<u8>, client: u64, tick: u64, reliability: Reliability, rs: seq<Record>)
    requires HasParts(b, client, tick, reliability, rs)
    ensures ReadUpdate(b) == Some(Update(client, tick, reliability, AllOnWire(rs)))
  {
    hide LE, Fnv32, HeaderBytes, RecordsBytes, ReadRecords, AllOnWire, Field, ReliabilityOf;
    HeaderReadsBack(b, client, tick, reliability, |rs|);
    RecordsRoundTrip(rs);
    ChecksumReadsBack(b, |b| - CHECKSUM_BYTES);
  }

  /** Every frame the builder emits reads back as exactly the records that went in. */
  lemma FrameRoundTrip(client: u64, tick: u64, reliability: Reliability, rs: seq<Record>)
    requires |rs| <= 0xFFFF
    ensures ReadUpdate(Frame(client, tick, reliability, rs)) == Some(Update(client, tick, reliability, AllOnWire(rs)))
  {
    FrameHasParts(client, tick, reliability, rs);
    PartsReadBack(Frame(client, tick, reliability, rs), client, tick, reliability, rs);
  }
}
