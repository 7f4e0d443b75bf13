/** Fragmentation.cpp as an object: the split loop, reassembly into a fresh buffer, expiry in any map order. */
module Fragmentations {
  import opened Prelude
  import opened FragmentModel
  import opened FragmentTheorems

  class Fragmentation {
    const maxFragmentPayload: nat
    const budgetTicks: nat
    var droppedIncomplete: nat
    var pending: map<nat, Reassembly>

    ghost predicate Valid()
      reads this
    {
      maxFragmentPayload > 0 && PartsMatch(pending)
    }

    constructor (maxFragmentPayload: nat, budgetTicks: nat)
      ensures Valid() && pending == map[] && droppedIncomplete == 0 && this.budgetTicks == budgetTicks
      ensures this.maxFragmentPayload == if maxFragmentPayload == 0 then 1 else maxFragmentPayload
    {
      this.maxFragmentPayload := if maxFragmentPayload == 0 then 1 else maxFragmentPayload;
      this.budgetTicks := budgetTicks;
      droppedIncomplete, pending := 0, map[];
    }

    method Split(messageId: u16, payload: seq<u8>) returns (fragments: seq<Fragment>)
      requires Valid()
      ensures fragments == FragmentModel.Split(messageId, payload, maxFragmentPayload)
    {
      hide Piece;
      fragments := [];
      var total := |payload|;
      var count := if total == 0 then 1 else (total + maxFragmentPayload - 1) / maxFragmentPayload;
      for i := 0 to count
        invariant fragments == seq(i, j requires 0 <= j => Piece(messageId, payload, maxFragmentPayload, j))
      {
        var f := CutOne(messageId, payload, i, count);
        fragments := fragments + [f];
      }
    }

    method CutOne(messageId: u16, payload: seq<u8>, i: nat, count: nat) returns (f: Fragment)
      requires Valid() && i < count && count == FragmentCount(|payload|, maxFragmentPayload)
      ensures f == Piece(messageId, payload, maxFragmentPayload, i)
    {
      hide Piece, FragmentCount;
      var total := |payload|;
      var begin := i * maxFragmentPayload;
      var end := if begin + maxFragmentPayload < total then begin + maxFragmentPayload else total;
      PieceIs(messageId, payload, maxFragmentPayload, i, begin, end);
      var bytes := [];
      if end > begin {
        bytes := payload[begin..end];
      }
      f := Fragment(messageId, i % 0x1_0000, count % 0x1_0000, bytes);
    }

    /** Stores the fragment; the last missing one completes the message and frees the entry. */
    method Accept(connection: nat, fragment: Fragment, currentTick: nat) returns (outcome: Outcome)
      requires Valid()
      modifies this`pending
      ensures Valid()
      ensures Accepted(pending, outcome)
           == FragmentModel.Accept(old(pending), Key(connection, fragment.messageId), fragment, currentTick)
    {
      if fragment.count == 0 || fragment.index >= fragment.count {
        return Rejected;
      }
      var key := Key(connection, fragment.messageId);
      if key !in pending {
        pending := pending[key := Reassembly(fragment.count, currentTick, 0, seq(fragment.count, _ => None))];
      } else if pending[key].count != fragment.count {
        return Rejected;
      }
      var r := pending[key];
      if r.parts[fragment.index].None? {
        r := r.(parts := r.parts[fragment.index := Some(fragment.bytes)], have := r.have + 1);
      }
      pending := pending[key := r];
      if r.have == r.count {
        var bytes := Assemble(r.parts);
        pending := pending - {key};
        return Completed(bytes);
      }
      return Incomplete;
    }

    /** Size the message, then copy part after part. */
    method Assemble(parts: seq<Option<seq<u8>>>) returns (bytes: seq<u8>)
      ensures bytes == Concat(parts)
    {
      var total := 0;
      for i := 0 to |parts|
        invariant total == |Concat(parts[..i])|
      {
        assert parts[..i + 1][..i] == parts[..i];
        total := total + if parts[i].Some? then |parts[i].value| else 0;
      }
      assert parts[..|parts|] == parts;
      var buffer := new u8[total](_ => 0);
      var dst := 0;
      for i := 0 to |parts|
        invariant dst == |Concat(parts[..i])| <= total
        invariant buffer[..dst] == Concat(parts[..i])
      {
        assert parts[..i + 1][..i] == parts[..i];
        if parts[i].Some? {
          ConcatGrows(parts, i + 1);
          dst := Copy(buffer, dst, parts[i].value);
        }
      }
      bytes := buffer[..];
    }

    static method Copy(buffer: array<u8>, dst: nat, part: seq<u8>) returns (end: nat)
      requires dst + |part| <= buffer.Length
      modifies buffer
      ensures end == dst + |part| && buffer[..end] == old(buffer[..dst]) + part
    {
      for j := 0 to |part|
        invariant buffer[..dst + j] == old(buffer[..dst]) + part[..j]
      {
        buffer[dst + j] := part[j];
      }
      end := dst + |part|;
    }

    /** Drops every reassembly past its budget, whatever order the map is walked in. */
    method PruneExpired(currentTick: nat) returns (dropped: nat)
      requires Valid()
      modifies this`pending, this`droppedIncomplete
      ensures Valid() && pending == Prune(old(pending), currentTick, budgetTicks)
      ensures dropped == |old(pending)| - |pending| && droppedIncomplete == old(droppedIncomplete) + dropped
    {
      dropped := 0;
      var todo := pending.Keys;
      while todo != {}
        invariant todo <= pending.Keys <= old(pending).Keys
        invariant forall k :: k in pending ==> pending[k] == old(pending)[k]
        invariant forall k :: k in old(pending) && k !in todo ==>
          (k in pending <==> !Expired(old(pending)[k].firstTick, currentTick, budgetTicks))
        invariant |pending| + dropped == |old(pending)| && droppedIncomplete == old(droppedIncomplete) + dropped
        decreases |todo|
      {
        var k :| k in todo;
        todo := todo - {k};
        if Expired(pending[k].firstTick, currentTick, budgetTicks) {
          DropOne(pending, k);
          pending := pending - {k};
          dropped := dropped + 1;
          droppedIncomplete := droppedIncomplete + 1;
        }
      }
    }

    method ValidateConsistency(currentTick: nat) returns (healthy: bool)
      ensures healthy <==> forall k :: k in pending ==> !Expired(pending[k].firstTick, currentTick, budgetTicks)
    {
      var todo := pending.Keys;
      while todo != {}
        invariant todo <= pending.Keys
        invariant forall k :: k in pending && k !in todo ==> !Expired(pending[k].firstTick, currentTick, budgetTicks)
        decreases |todo|
      {
        var k :| k in todo;
        if Expired(pending[k].firstTick, currentTick, budgetTicks) {
          return false;
        }
        todo := todo - {k};
      }
      healthy := true;
    }
  }

  /** The bytes the loop cuts out for piece i. */
  lemma PieceIs(messageId: u16, payload: seq<u8>, max: nat, i: nat, begin: nat, end: nat)
    requires max > 0 && i < FragmentCount(|payload|, max) && begin == i * max
    requires end == if begin + max < |payload| then begin + max else |payload|
    ensures begin <= end
    ensures Piece(messageId, payload, max, i)
         == Fragment(messageId, i % 0x1_0000, FragmentCount(|payload|, max) % 0x1_0000, payload[begin..end])
  {
    var total, n := |payload|, FragmentCount(|payload|, max);
    CountBounds(total, max);
    Scaled(i, n - 1, max);
    assert (i + 1) * max == begin + max;
    assert total == 0 ==> i == 0;
    assert Cut(total, max, i) == begin && Cut(total, max, i + 1) == end;
  }

  lemma DropOne<T>(m: map<nat, T>, k: nat)
    requires k in m
    ensures |m - {k}| == |m| - 1
  {
    assert (m - {k}).Keys == m.Keys - {k};
    assert |m - {k}| == |(m - {k}).Keys| && |m| == |m.Keys|;
  }

  /** The bytes of the first i parts are no more than those of all of them. */
  lemma {:induction false} ConcatGrows(parts: seq<Option<seq<u8>>>, i: nat)
    requires i <= |parts|
    ensures |Concat(parts[..i])| <= |Concat(parts)|
  {
    var n := |parts| - 1;
    if i <= n {
      ConcatGrows(parts[..n], i);
      assert parts[..n][..i] == parts[..i];
    } else {
      assert parts[..i] == parts;
    }
  }
}
