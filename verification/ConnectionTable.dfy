/** ConnectionTable.cpp: a sorted vector of connections with a hash accelerator. */
module ConnectionTables {
  import opened Prelude
  import opened Sorted
  import opened SortedStore
  import opened NetTypes
  import opened HostModel

  function Keys(rows: seq<Connection>): (k: seq<nat>)
    ensures |k| == |rows| && forall i :: 0 <= i < |rows| ==> k[i] == rows[i].id
  {
    seq(|rows|, i requires 0 <= i < |rows| => rows[i].id)
  }

  /** Every id was handed out already. */
  ghost predicate Below(keys: seq<nat>, nextId: nat) {
    0 < nextId && forall k :: k in keys ==> 0 < k < nextId
  }

  lemma BelowAppended(keys: seq<nat>, nextId: nat)
    requires Below(keys, nextId)
    ensures Below(keys + [nextId], nextId + 1)
    ensures forall i :: 0 <= i < |keys| ==> keys[i] < nextId
  {
    assert forall i :: 0 <= i < |keys| ==> keys[i] in keys;
  }

  /** A well-kept table: ascending ids below the next one, exact index. */
  ghost predicate Stored(rows: seq<Connection>, index: map<nat, nat>, nextId: nat) {
    Indexed(Keys(rows), rows, index) && Below(Keys(rows), nextId)
  }

  lemma {:induction false} StoredAppended(rows: seq<Connection>, index: map<nat, nat>, nextId: nat, c: Connection)
    requires Stored(rows, index, nextId) && c.id == nextId
    ensures Stored(rows + [c], index[c.id := |rows|], nextId + 1)
    ensures ToMap(Keys(rows + [c]), rows + [c]) == ToMap(Keys(rows), rows)[c.id := c]
  {
    BelowAppended(Keys(rows), nextId);
    IndexedAppended(Keys(rows), rows, index, c.id, c);
    assert Keys(rows + [c]) == Keys(rows) + [c.id];
  }

  lemma BelowErased(keys: seq<nat>, less: seq<nat>, nextId: nat)
    requires Below(keys, nextId) && Elems(less) <= Elems(keys)
    ensures Below(less, nextId)
  {
    forall k | k in less ensures 0 < k < nextId {
      assert k in Elems(less);
      assert k in keys;
    }
  }

  lemma StoredErased(rows: seq<Connection>, at: nat)
    requires Ascending(Keys(rows)) && at < |rows|
    ensures var r := rows[..at] + rows[at + 1..];
            && Ascending(Keys(r))
            && Elems(Keys(r)) == Elems(Keys(rows)) - {rows[at].id}
            && ToMap(Keys(r), r) == ToMap(Keys(rows), rows) - {rows[at].id}
  {
    var r := rows[..at] + rows[at + 1..];
    assert Keys(r) == Keys(rows)[..at] + Keys(rows)[at + 1..];
    EraseKeepsAscending(Keys(rows), at);
    ToMapErased(Keys(rows), rows, at);
  }

  /** The ids of the expired rows, in row order. */
  ghost function Scan(rows: seq<Connection>, now: nat, limits: Limits): seq<nat> {
    if rows == [] then []
    else
      var n := |rows| - 1;
      Scan(rows[..n], now, limits) + if Expired(rows[n], now, limits) then [rows[n].id] else []
  }

  /** Scanning the rows lists exactly the overdue ids, ascending. */
  lemma {:induction false} ScanIsOverdue(rows: seq<Connection>, now: nat, limits: Limits)
    requires Ascending(Keys(rows))
    ensures Ascending(Scan(rows, now, limits))
    ensures forall x :: x in Scan(rows, now, limits) <==> x in Overdue(ToMap(Keys(rows), rows), now, limits)
  {
    if rows != [] {
      var n := |rows| - 1;
      var init, c := rows[..n], rows[n];
      assert Keys(init) == Keys(rows)[..n];
      ScanIsOverdue(init, now, limits);
      ToMapKeys(Keys(init), init);
      var q := Scan(init, now, limits);
      forall x | x in q ensures x < c.id {
        var i :| 0 <= i < n && Keys(init)[i] == x;
        assert Keys(rows)[i] < Keys(rows)[n];
      }
      assert forall i :: 0 <= i < |q| ==> q[i] in q;
      assert forall x :: x in q + [c.id] <==> x in q || x == c.id;
      assert c.id !in Keys(init);
    }
  }

  lemma {:induction false} ScanLists(rows: seq<Connection>, now: nat, limits: Limits)
    requires Ascending(Keys(rows))
    ensures Scan(rows, now, limits) == Listing(Overdue(ToMap(Keys(rows), rows), now, limits))
  {
    hide Scan, ToMap, Ascending;
    ScanIsOverdue(rows, now, limits);
    assert Elems(Scan(rows, now, limits)) == Overdue(ToMap(Keys(rows), rows), now, limits);
    ListingUnique(Scan(rows, now, limits));
  }

  datatype TableReport = TableReport(
    sortedUnique: bool, acceleratorConsistent: bool, withinCapacity: bool, noZeroId: bool)
  {
    predicate IsHealthy() { sortedUnique && acceleratorConsistent && withinCapacity && noZeroId }
  }

  class ConnectionTable {
    const maxConnections: nat
    var nextId: nat
    var entries: seq<Connection>
    var index: map<nat, nat>

    ghost predicate Valid()
      reads this
    {
      Stored(entries, index, nextId) && |entries| <= maxConnections
    }

    /** The table as a map. */
    ghost function Rows(): map<nat, Connection>
      reads this
    {
      ToMap(Keys(entries), entries)
    }

    constructor (maxConnections: nat)
      ensures Valid() && Rows() == map[] && nextId == 1 && this.maxConnections == maxConnections
    {
      this.maxConnections := maxConnections;
      nextId, entries, index := 1, [], map[];
    }

    method Add(endpoint: u32) returns (added: Option<nat>)
      requires Valid()
      modifies this
      ensures Valid()
      ensures |old(Rows())| >= maxConnections ==>
                added == None && Rows() == old(Rows()) && nextId == old(nextId)
      ensures |old(Rows())| < maxConnections ==>
                && added == Some(old(nextId)) && nextId == old(nextId) + 1
                && Rows() == old(Rows())[old(nextId) :=
                     Connection(old(nextId), endpoint, Disconnected, NoHandshake, 0, 0, 0, 0)]
    {
      assert |Rows()| == |entries| by {
        ToMapListing(Keys(entries), entries);
      }
      if |entries| >= maxConnections {
        return None;
      }
      var c := Connection(nextId, endpoint, Disconnected, NoHandshake, 0, 0, 0, 0);
      StoredAppended(entries, index, nextId, c);
      added := Some(nextId);
      nextId, index, entries := nextId + 1, index[nextId := |entries|], entries + [c];
    }

    /** The position behind the pointer that FindMutable returns; None is the null pointer. */
    method FindMutable(id: nat) returns (slot: Option<nat>)
      requires Valid()
      ensures slot.Some? <==> id in Rows()
      ensures slot.Some? ==> slot.value < |entries| && entries[slot.value].id == id
      ensures slot.Some? ==> entries[slot.value] == Rows()[id]
    {
      IndexFinds(Keys(entries), entries, index, id);
      slot := if id in index then Some(index[id]) else None;
    }

    /** A write through that pointer. */
    method Put(slot: nat, c: Connection)
      requires Valid() && slot < |entries| && c.id == entries[slot].id
      modifies this`entries
      ensures Valid() && Rows() == old(Rows())[c.id := c]
    {
      ToMapPut(Keys(entries), entries, slot, c);
      assert Keys(entries[slot := c]) == Keys(entries);
      entries := entries[slot := c];
    }

    method Remove(id: nat)
      requires Valid()
      modifies this`entries, this`index
      ensures Valid() && Rows() == old(Rows()) - {id}
    {
      IndexFinds(Keys(entries), entries, index, id);
      if id in index {
        var at := index[id];
        StoredErased(entries, at);
        BelowErased(Keys(entries), Keys(entries[..at] + entries[at + 1..]), nextId);
        entries := entries[..at] + entries[at + 1..];
        index := RebuildAccelerator(Keys(entries));
      } else {
        assert Rows() - {id} == Rows();
      }
    }

    /** The ids to drop at this tick, ascending. */
    method ScanTimeouts(currentTick: nat, limits: Limits) returns (flagged: seq<nat>)
      requires Valid()
      ensures flagged == Listing(Overdue(Rows(), currentTick, limits))
    {
      hide ToMap, Overdue, Listing, Ascending, IsIndex, Below;
      flagged := [];
      for i := 0 to |entries|
        invariant flagged == Scan(entries[..i], currentTick, limits)
      {
        var c := entries[i];
        assert entries[..i + 1] == entries[..i] + [c];
        SnocSplit(entries[..i], c);
        if !IsHandshakeComplete(c.handshake) {
          if currentTick >= c.createdTick && currentTick - c.createdTick > limits.handshakeTicks {
            flagged := flagged + [c.id];
          }
        } else if c.state == Connected {
          if currentTick >= c.lastRecvTick && currentTick - c.lastRecvTick > limits.connectionTicks {
            flagged := flagged + [c.id];
          }
        }
      }
      assert entries[..|entries|] == entries;
      ScanLists(entries, currentTick, limits);
    }

    method BeginDisconnect(id: nat) returns (performed: bool, endpoint: u32)
      requires Valid()
      modifies this`entries, this`index
      ensures Valid() && Rows() == old(Rows()) - {id}
      ensures performed <==> id in old(Rows())
      ensures performed ==> endpoint == old(Rows())[id].endpoint
    {
      var slot := FindMutable(id);
      if slot == None {
        assert Rows() - {id} == Rows();
        performed, endpoint := false, 0;
      } else {
        ghost var before := Rows();
        var c := entries[slot.value].(state := Disconnecting);
        performed, endpoint := true, c.endpoint;
        Put(slot.value, c);
        Remove(id);
        assert before[id := c] - {id} == before - {id};
      }
    }

    method Ids() returns (ids: seq<nat>)
      requires Valid()
      ensures ids == Listing(Rows().Keys)
    {
      ids := [];
      for i := 0 to |entries|
        invariant ids == Keys(entries)[..i]
      {
        ids := ids + [entries[i].id];
      }
      ToMapListing(Keys(entries), entries);
    }

    /** The consistency scan reports a fault exactly when there is one; a valid table has none. */
    method ValidateConsistency() returns (report: TableReport)
      ensures report.sortedUnique <==> Ascending(Keys(entries))
      ensures report.noZeroId <==> 0 !in Keys(entries)
      ensures report.acceleratorConsistent <==>
                && |index| == |entries|
                && (forall i :: 0 <= i < |entries| ==> entries[i].id in index && index[entries[i].id] == i)
      ensures report.withinCapacity <==> |entries| <= maxConnections
      ensures Valid() ==> report.IsHealthy()
    {
      var sorted, noZero := ScanOrder(Keys(entries));
      var accelerator := |index| == |entries|;
      if accelerator {
        for i := 0 to |entries|
          invariant accelerator
          invariant forall j :: 0 <= j < i ==> entries[j].id in index && index[entries[j].id] == j
        {
          if entries[i].id !in index || index[entries[i].id] != i {
            accelerator := false;
            break;
          }
        }
      }
      report := TableReport(sorted, accelerator, |entries| <= maxConnections, noZero);
      assert Valid() ==> forall i :: 0 <= i < |entries| ==> Keys(entries)[i] == entries[i].id;
    }
  }
}
