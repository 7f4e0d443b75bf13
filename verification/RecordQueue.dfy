/** ReplicationQueues.h and .cpp: the fixed ring buffers, and how a change set is routed into them. */
module RecordQueues {
  import opened Prelude
  import opened SnapshotTypes
  import opened ReplicationTypes

  /** The first cap elements: what a bounded queue keeps of what was offered to it in order. */
  function Clip<T>(s: seq<T>, cap: nat): seq<T> {
    if |s| <= cap then s else s[..cap]
  }

  /** Offering one more element. */
  lemma ClipNext<T>(held: seq<T>, offered: seq<T>, n: nat, cap: nat)
    requires n < |offered|
    ensures var clipped := Clip(held + offered[..n], cap);
      Clip(held + offered[..n + 1], cap) == if |clipped| < cap then clipped + [offered[n]] else clipped
  {
    assert held + offered[..n + 1] == held + offered[..n] + [offered[n]];
  }

  /** Clipping on the way loses nothing that clipping at the end would keep. */
  lemma ClipTwice<T>(clipped: seq<T>, s: seq<T>, more: seq<T>, cap: nat)
    requires clipped == Clip(s, cap)
    ensures Clip(clipped + more, cap) == Clip(s + more, cap)
  {
  }

  // --------------------------------------------------------------------- the ring buffer

  /** Position i counted from the head, wrapping at the end of the storage. */
  function Slot(head: nat, i: nat, size: nat): int {
    if head + i < size then head + i else head + i - size
  }

  lemma SlotIsModulo(head: nat, i: nat, size: nat)
    requires head < size && i <= size
    ensures (head + i) % size == Slot(head, i, size)
  {
    Remainder(head + i, size, if head + i >= size then 1 else 0);
  }

  /** The remainder is what is left after taking the size away as often as it fits. */
  lemma Remainder(x: nat, size: nat, q: nat)
    requires size > 0 && q * size <= x < q * size + size
    ensures x % size == x - q * size
  {
    var d := x / size;
    assert x == d * size + x % size;
    assert (d + 1) * size == d * size + size && (q + 1) * size == q * size + size;
    Times(d + 1, q, size);
    Times(q + 1, d, size);
  }

  lemma Times(a: nat, b: nat, n: nat)
    ensures a <= b ==> a * n <= b * n
  {
  }

  class FixedRecordQueue {
    const buffer: array<Record>
    var head: nat
    var count: nat

    ghost predicate Valid()
      reads this
    {
      count <= buffer.Length && (head < buffer.Length || head == 0)
    }

    /** Oldest first. */
    ghost function Contents(): seq<Record>
      requires Valid()
      reads this, buffer
    {
      seq(count, i requires 0 <= i < count reads this, buffer requires Valid() =>
        buffer[Slot(head, i, buffer.Length)])
    }

    constructor (capacity: nat, blank: Record)
      ensures Valid() && Contents() == [] && buffer.Length == capacity && fresh(buffer)
    {
      buffer := new Record[capacity](_ => blank);
      head, count := 0, 0;
    }

    method Enqueue(record: Record) returns (ok: bool)
      requires Valid()
      modifies this`count, buffer
      ensures Valid() && ok == (|old(Contents())| < buffer.Length)
      ensures Contents() == if ok then old(Contents()) + [record] else old(Contents())
    {
      if count >= buffer.Length {
        return false;
      }
      SlotIsModulo(head, count, buffer.Length);
      var tail := (head + count) % buffer.Length;
      buffer[tail] := record;
      count := count + 1;
      ok := true;
    }

    method Dequeue() returns (front: Option<Record>)
      requires Valid()
      modifies this`head, this`count
      ensures Valid()
      ensures if old(Contents()) == [] then front == None && Contents() == []
              else front == Some(old(Contents())[0]) && Contents() == old(Contents())[1..]
    {
      if count == 0 {
        return None;
      }
      front := Some(buffer[head]);
      SlotIsModulo(head, 1, buffer.Length);
      head := (head + 1) % buffer.Length;
      count := count - 1;
    }

    method Clear()
      modifies this`head, this`count
      ensures Valid() && Contents() == []
    {
      head, count := 0, 0;
    }
  }

  // ----------------------------------------------------------------------------- routing

  const NO_POSITION := Vec3(0, 0, 0)

  /** A removal carries the id only. */
  function RemovalRecord(id: u32): Record {
    MakeRecord(EntityRemove, EntityState(id, NO_POSITION, NO_POSITION, 0, 0))
  }

  function Records(kind: Kind, states: seq<EntityState>): seq<Record> {
    seq(|states|, i requires 0 <= i < |states| => MakeRecord(kind, states[i]))
  }

  function Removals(ids: seq<u32>): seq<Record> {
    seq(|ids|, i requires 0 <= i < |ids| => RemovalRecord(ids[i]))
  }

  /** Removals and spawns travel reliably, in that order; position updates do not. */
  function ReliableRecords(d: ChangeSet): seq<Record> {
    Removals(d.removed) + Records(EntitySpawn, d.added)
  }

  function UnreliableRecords(d: ChangeSet): seq<Record> {
    Records(Position, d.changed)
  }

  class ReplicationQueues {
    const reliable: FixedRecordQueue
    const unreliable: FixedRecordQueue

    ghost predicate Valid()
      reads this, reliable, unreliable
    {
      && reliable.Valid() && unreliable.Valid()
      && reliable != unreliable && reliable.buffer != unreliable.buffer
    }

    constructor (reliableDepth: nat, unreliableDepth: nat)
      ensures Valid() && reliable.Contents() == [] && unreliable.Contents() == []
      ensures reliable.buffer.Length == reliableDepth && unreliable.buffer.Length == unreliableDepth
      ensures fresh(reliable) && fresh(unreliable) && fresh(reliable.buffer) && fresh(unreliable.buffer)
    {
      var blank := MakeRecord(NoKind, EntityState(0, NO_POSITION, NO_POSITION, 0, 0));
      reliable := new FixedRecordQueue(reliableDepth, blank);
      unreliable := new FixedRecordQueue(unreliableDepth, blank);
    }

    /** Route one record by its reliability. */
    method Enqueue(record: Record) returns (ok: bool)
      requires Valid()
      modifies reliable`count, unreliable`count, reliable.buffer, unreliable.buffer
      ensures Valid()
      ensures ok == (if record.reliability == Reliable then |old(reliable.Contents())| < reliable.buffer.Length
                     else |old(unreliable.Contents())| < unreliable.buffer.Length)
      ensures reliable.Contents() == if ok && record.reliability == Reliable
                                     then old(reliable.Contents()) + [record] else old(reliable.Contents())
      ensures unreliable.Contents() == if ok && record.reliability == Unreliable
                                       then old(unreliable.Contents()) + [record] else old(unreliable.Contents())
    {
      if record.reliability == Reliable {
        ok := reliable.Enqueue(record);
      } else {
        ok := unreliable.Enqueue(record);
      }
    }

    method Clear()
      requires Valid()
      modifies reliable`head, reliable`count, unreliable`head, unreliable`count
      ensures Valid() && reliable.Contents() == [] && unreliable.Contents() == []
    {
      reliable.Clear();
      unreliable.Clear();
    }

    /** One loop of EnqueueChangeSet: the removals. */
    method EnqueueRemovals(ids: seq<u32>) returns (ok: bool)
      requires Valid()
      modifies reliable`count, reliable.buffer, unreliable`count, unreliable.buffer
      ensures Valid() && unreliable.Contents() == old(unreliable.Contents())
      ensures reliable.Contents() == Clip(old(reliable.Contents()) + Removals(ids), reliable.buffer.Length)
      ensures ok <==> |old(reliable.Contents())| + |ids| <= reliable.buffer.Length
    {
      ok := true;
      ghost var held, cap := reliable.Contents(), reliable.buffer.Length;
      ghost var offered := Removals(ids);
      for i := 0 to |ids|
        invariant Valid() && unreliable.Contents() == old(unreliable.Contents())
        invariant reliable.Contents() == Clip(held + offered[..i], cap)
        invariant ok <==> |held| + i <= cap
      {
        ClipNext(held, offered, i, cap);
        var enqueued := Enqueue(RemovalRecord(ids[i]));
        if !enqueued {
          ok := false;
        }
      }
      assert offered[..|offered|] == offered;
    }

    /** The other two: spawns into the reliable queue, positions into the unreliable one. */
    method EnqueueStates(kind: Kind, states: seq<EntityState>) returns (ok: bool)
      requires Valid()
      modifies reliable`count, reliable.buffer, unreliable`count, unreliable.buffer
      ensures Valid()
      ensures var to, other := if IsReliable(kind) then reliable else unreliable,
                               if IsReliable(kind) then unreliable else reliable;
        && to.Contents() == Clip(old(to.Contents()) + Records(kind, states), to.buffer.Length)
        && other.Contents() == old(other.Contents())
        && (ok <==> |old(to.Contents())| + |states| <= to.buffer.Length)
    {
      ok := true;
      ghost var to, other := if IsReliable(kind) then reliable else unreliable,
                             if IsReliable(kind) then unreliable else reliable;
      ghost var held, cap := to.Contents(), to.buffer.Length;
      ghost var offered := Records(kind, states);
      for i := 0 to |states|
        invariant Valid() && other.Contents() == old(other.Contents())
        invariant to.Contents() == Clip(held + offered[..i], cap)
        invariant ok <==> |held| + i <= cap
      {
        ClipNext(held, offered, i, cap);
        var enqueued := Enqueue(MakeRecord(kind, states[i]));
        if !enqueued {
          ok := false;
        }
      }
      assert offered[..|offered|] == offered;
    }

    /** Removed, added, changed, in that order; what does not fit is dropped, and reported once. */
    method EnqueueChangeSet(d: ChangeSet) returns (ok: bool)
      requires Valid()
      modifies reliable`count, reliable.buffer, unreliable`count, unreliable.buffer
      ensures Valid()
      ensures reliable.Contents() == Clip(old(reliable.Contents()) + ReliableRecords(d), reliable.buffer.Length)
      ensures unreliable.Contents() == Clip(old(unreliable.Contents()) + UnreliableRecords(d), unreliable.buffer.Length)
      ensures ok <==>
        && |old(reliable.Contents())| + |d.removed| + |d.added| <= reliable.buffer.Length
        && |old(unreliable.Contents())| + |d.changed| <= unreliable.buffer.Length
    {
      hide FixedRecordQueue.Valid, FixedRecordQueue.Contents, MakeRecord, RemovalRecord;
      var removals := EnqueueRemovals(d.removed);
      ClipTwice(reliable.Contents(), old(reliable.Contents()) + Removals(d.removed),
                Records(EntitySpawn, d.added), reliable.buffer.Length);
      var spawns := EnqueueStates(EntitySpawn, d.added);
      assert old(reliable.Contents()) + Removals(d.removed) + Records(EntitySpawn, d.added)
          == old(reliable.Contents()) + ReliableRecords(d);
      var positions := EnqueueStates(Position, d.changed);
      ok := removals && spawns && positions;
    }
  }
}
