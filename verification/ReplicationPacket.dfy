/** ReplicationPacketBuilder.cpp: the update frame, its size arithmetic, and what reading it gives back. */
module ReplicationPackets {
  import opened Prelude
  import opened Wire
  import opened ReplicationTypes
  import opened RecordQueues
  import opened ByteCursors

  const MSG_REPLICATION_UPDATE: u16 := 0x0200
  const HEADER_BYTES: nat := 21
  const RECORD_BYTES: nat := 26
  const CHECKSUM_BYTES: nat := 4
  const FRAME_BYTES: nat := 25

  datatype Packet = Packet(client: u64, reliability: Reliability, recordCount: u16, bytes: seq<u8>)

  datatype BuildResult = Built(packet: Packet) | BudgetTooSmall

  // -------------------------------------------------------------------------- the layout

  /** FNV-1a over 32 bits. */
  function Fnv32(bytes: seq<u8>): u32 {
    if bytes == [] then 2166136261
    else Low32(Xor(Fnv32(bytes[..|bytes| - 1]), bytes[|bytes| - 1]) * 16777619)
  }

  function HeaderBytes(client: u64, tick: u64, reliability: Reliability, count: u16): (b: seq<u8>)
    ensures |b| == HEADER_BYTES
  {
    Addressing(client, tick) + [ReliabilityCode(reliability)] + LE(count, 2)
  }

  function Addressing(client: u64, tick: u64): (b: seq<u8>)
    ensures |b| == 18
  {
    LE(MSG_REPLICATION_UPDATE, 2) + U64Bytes(client) + U64Bytes(tick)
  }

  function RecordBytes(r: Record): (b: seq<u8>)
    ensures |b| == RECORD_BYTES
  {
    [KindCode(r.kind)] + Words(r.entity.id, r.entity.version, r.entity.stateFlags)
    + Words(r.entity.position.x, r.entity.position.y, r.entity.position.z) + [PriorityCode(r.priority)]
  }

  function RecordsBytes(rs: seq<Record>): (b: seq<u8>)
    ensures |b| == RECORD_BYTES * |rs|
  {
    if rs == [] then [] else RecordsBytes(rs[..|rs| - 1]) + RecordBytes(rs[|rs| - 1])
  }

  function Body(client: u64, tick: u64, reliability: Reliability, rs: seq<Record>): seq<u8>
    requires |rs| <= 0xFFFF
  {
    HeaderBytes(client, tick, reliability, |rs|) + RecordsBytes(rs)
  }

  function Frame(client: u64, tick: u64, reliability: Reliability, rs: seq<Record>): (b: seq<u8>)
    requires |rs| <= 0xFFFF
    ensures |b| == FRAME_BYTES + RECORD_BYTES * |rs|
  {
    Body(client, tick, reliability, rs) + LE(Fnv32(Body(client, tick, reliability, rs)), 4)
  }

  /** How many of `size` queued records one packet takes. A budget of 0 is no budget. */
  function Fit(byteBudget: nat, maxRecords: nat, size: nat): (n: nat)
    requires byteBudget == 0 || byteBudget >= FRAME_BYTES
    ensures n <= size && n <= 0xFFFF
  {
    var budgetRecords := if byteBudget == 0 then maxRecords else (byteBudget - FRAME_BYTES) / RECORD_BYTES;
    var fit := if size > budgetRecords then budgetRecords else size;
    var capped := if fit > maxRecords then maxRecords else fit;
    if capped > 0xFFFF then 0xFFFF else capped
  }

  /** A frame of that many records stays within a non-zero budget; one more would not, unless a cap says so. */
  lemma FitIsLargest(byteBudget: nat, maxRecords: nat, size: nat)
    requires byteBudget == 0 || byteBudget >= FRAME_BYTES
    ensures var n := Fit(byteBudget, maxRecords, size);
      && (byteBudget != 0 ==> FRAME_BYTES + RECORD_BYTES * n <= byteBudget)
      && (n < size && n < maxRecords && n < 0xFFFF ==>
            byteBudget != 0 && FRAME_BYTES + RECORD_BYTES * (n + 1) > byteBudget)
  {
  }

  // ------------------------------------------------------------------------- the builder

  method Checksum(data: array<u8>, length: nat) returns (hash: u32)
    requires length <= data.Length
    ensures hash == Fnv32(data[..length])
  {
    hash := 2166136261;
    for i := 0 to length
      invariant hash == Fnv32(data[..i])
    {
      assert data[..i + 1][..i] == data[..i];
      hash := Low32(Xor(hash, data[i]) * 16777619);
    }
  }

  method WriteHeader(w: ByteWriter, client: u64, tick: u64, reliability: Reliability, count: u16) returns (ok: bool)
    requires w.Valid() && w.position == 0
    modifies w`position, w.buffer
    ensures w.Valid() && (ok <==> HEADER_BYTES <= w.buffer.Length)
    ensures ok ==> w.Written() == HeaderBytes(client, tick, reliability, count)
  {
    hide LE, Addressing;
    ok := WriteAddressing(w, client, tick);
    if !ok {
      return;
    }
    ok := w.WriteU8(ReliabilityCode(reliability));
    if !ok {
      return;
    }
    ok := w.WriteU16(count);
  }

  method WriteAddressing(w: ByteWriter, client: u64, tick: u64) returns (ok: bool)
    requires w.Valid()
    modifies w`position, w.buffer
    ensures w.Valid() && (ok <==> old(w.position) + 18 <= w.buffer.Length)
    ensures ok ==> w.Written() == old(w.Written()) + Addressing(client, tick)
  {
    ok := w.WriteU16(MSG_REPLICATION_UPDATE);
    if !ok {
      return;
    }
    ok := w.WriteU64(client);
    if !ok {
      return;
    }
    ok := w.WriteU64(tick);
    Joined(old(w.Written()), LE(MSG_REPLICATION_UPDATE, 2), U64Bytes(client));
    Joined(old(w.Written()), LE(MSG_REPLICATION_UPDATE, 2) + U64Bytes(client), U64Bytes(tick));
  }

  method WriteWords(w: ByteWriter, a: u32, b: u32, c: u32) returns (ok: bool)
    requires w.Valid()
    modifies w`position, w.buffer
    ensures w.Valid() && (ok <==> old(w.position) + 12 <= w.buffer.Length)
    ensures ok ==> w.Written() == old(w.Written()) + Words(a, b, c)
  {
    ok := w.WriteU32(a);
    if !ok {
      return;
    }
    ok := w.WriteU32(b);
    if !ok {
      return;
    }
    ok := w.WriteU32(c);
    Joined(old(w.Written()), LE(a, 4), LE(b, 4));
    Joined(old(w.Written()), LE(a, 4) + LE(b, 4), LE(c, 4));
  }

  method WriteRecord(w: ByteWriter, r: Record) returns (ok: bool)
    requires w.Valid()
    modifies w`position, w.buffer
    ensures w.Valid() && (ok <==> old(w.position) + RECORD_BYTES <= w.buffer.Length)
    ensures ok ==> w.Written() == old(w.Written()) + RecordBytes(r)
  {
    ok := w.WriteU8(KindCode(r.kind));
    if !ok {
      return;
    }
    ok := WriteWords(w, r.entity.id, r.entity.version, r.entity.stateFlags);
    if !ok {
      return;
    }
    ok := WriteWords(w, r.entity.position.x, r.entity.position.y, r.entity.position.z);
    if !ok {
      return;
    }
    ok := w.WriteU8(PriorityCode(r.priority));
    ghost var s, kind := old(w.Written()), [KindCode(r.kind)];
    ghost var fields := Words(r.entity.id, r.entity.version, r.entity.stateFlags);
    ghost var position := Words(r.entity.position.x, r.entity.position.y, r.entity.position.z);
    Joined(s, kind, fields);
    Joined(s, kind + fields, position);
    Joined(s, kind + fields + position, [PriorityCode(r.priority)]);
  }

  class ReplicationPacketBuilder {
    const byteBudget: u32
    const maxRecords: u32

    constructor (byteBudget: u32, maxRecords: u32)
      ensures this.byteBudget == byteBudget && this.maxRecords == maxRecords
    {
      this.byteBudget, this.maxRecords := byteBudget, maxRecords;
    }

    /** One frame of the oldest records that fit; the others stay queued. The writer never runs out of room. */
    method BuildPacket(queue: FixedRecordQueue, reliability: Reliability, client: u64, tick: u64)
      returns (r: BuildResult)
      requires queue.Valid()
      modifies queue`head, queue`count
      ensures queue.Valid()
      ensures if byteBudget != 0 && byteBudget < FRAME_BYTES
              then r == BudgetTooSmall && queue.Contents() == old(queue.Contents())
              else
                var n := Fit(byteBudget, maxRecords, |old(queue.Contents())|);
                && r == Built(Packet(client, reliability, n,
                                     Frame(client, tick, reliability, old(queue.Contents())[..n])))
                && queue.Contents() == old(queue.Contents())[n..]
    {
      var budgetRecords: nat := maxRecords;
      if byteBudget != 0 {
        if byteBudget < FRAME_BYTES {
          return BudgetTooSmall;
        }
        budgetRecords := (byteBudget - FRAME_BYTES) / RECORD_BYTES;
      }
      var fit := queue.count;
      if fit > budgetRecords {
        fit := budgetRecords;
      }
      if fit > maxRecords {
        fit := maxRecords;
      }
      if fit > 0xFFFF {
        fit := 0xFFFF;
      }
      var bytes := WriteFrame(queue, reliability, client, tick, fit);
      r := Built(Packet(client, reliability, fit, bytes));
    }

    method WriteFrame(queue: FixedRecordQueue, reliability: Reliability, client: u64, tick: u64, fit: u16)
      returns (bytes: seq<u8>)
      requires queue.Valid() && fit <= |queue.Contents()|
      modifies queue`head, queue`count
      ensures queue.Valid() && queue.Contents() == old(queue.Contents())[fit..]
      ensures bytes == Frame(client, tick, reliability, old(queue.Contents())[..fit])
    {
      hide HeaderBytes, RecordsBytes, LE, Fnv32;
      var size := FRAME_BYTES + fit * RECORD_BYTES;
      var buffer := new u8[size](_ => 0);
      var writer := new ByteWriter(buffer);
      var ok := WriteHeader(writer, client, tick, reliability, fit);
      ok := WriteRecords(queue, writer, fit);
      var checksum := Checksum(buffer, writer.position);
      ok := writer.WriteU32(checksum);
      bytes := buffer[..];
    }

    /** Oldest first, each whole. */
    method WriteRecords(queue: FixedRecordQueue, w: ByteWriter, fit: u16) returns (ok: bool)
      requires queue.Valid() && fit <= |queue.Contents()|
      requires w.Valid() && w.buffer.Length >= w.position + fit * RECORD_BYTES
      modifies queue`head, queue`count, w`position, w.buffer
      ensures ok && queue.Valid() && queue.Contents() == old(queue.Contents())[fit..]
      ensures w.Valid() && w.Written() == old(w.Written()) + RecordsBytes(old(queue.Contents())[..fit])
    {
      ghost var all, before := queue.Contents(), w.Written();
      ok := true;
      for i := 0 to fit
        invariant ok && w.Valid() && queue.Valid() && queue.Contents() == all[i..]
        invariant w.position == |before| + i * RECORD_BYTES
        invariant w.Written() == before + RecordsBytes(all[..i])
      {
        var record := queue.Dequeue();
        if record.None? {
          break;
        }
        RecordsBytesNext(all, i);
        ok := WriteRecord(w, record.value);
        Joined(before, RecordsBytes(all[..i]), RecordBytes(all[i]));
      }
    }
  }

  lemma RecordsBytesNext(rs: seq<Record>, i: nat)
    requires i < |rs|
    ensures RecordsBytes(rs[..i + 1]) == RecordsBytes(rs[..i]) + RecordBytes(rs[i])
  {
    assert rs[..i + 1][..i] == rs[..i];
  }
}
