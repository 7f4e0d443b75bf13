/**
 * EntityRegistry.cpp as an object: the sorted record vector, the counters, and subscribers that try to
 * call back in. A subscriber is the list of calls its callback attempts.
 */
module EntityRegistries {
  import opened Prelude
  import opened Sorted
  import opened SortedStore
  import opened EntityModel
  import opened EntityTheorems

  datatype EntityRecord = EntityRecord(id: nat, row: Row)

  function Ids(records: seq<EntityRecord>): (k: seq<nat>)
    ensures |k| == |records| && forall i :: 0 <= i < |records| ==> k[i] == records[i].id
  {
    seq(|records|, i requires 0 <= i < |records| => records[i].id)
  }

  function Rows(records: seq<EntityRecord>): (r: seq<Row>)
    ensures |r| == |records| && forall i :: 0 <= i < |records| ==> r[i] == records[i].row
  {
    seq(|records|, i requires 0 <= i < |records| => records[i].row)
  }

  lemma RecordInserted(records: seq<EntityRecord>, at: nat, e: EntityRecord)
    requires Ascending(Ids(records)) && at <= |records|
    requires forall i :: 0 <= i < at ==> Ids(records)[i] < e.id
    requires forall i :: at <= i < |records| ==> e.id < Ids(records)[i]
    ensures var r := records[..at] + [e] + records[at..];
      Ascending(Ids(r)) && ToMap(Ids(r), Rows(r)) == ToMap(Ids(records), Rows(records))[e.id := e.row]
  {
    var r := records[..at] + [e] + records[at..];
    assert Ids(r) == Ids(records)[..at] + [e.id] + Ids(records)[at..];
    assert Rows(r) == Rows(records)[..at] + [e.row] + Rows(records)[at..];
    InsertKeepsAscending(Ids(records), at, e.id);
    ToMapInserted(Ids(records), Rows(records), at, e.id, e.row);
  }

  lemma RecordErased(records: seq<EntityRecord>, at: nat)
    requires Ascending(Ids(records)) && at < |records|
    ensures var r := records[..at] + records[at + 1..];
      Ascending(Ids(r)) && ToMap(Ids(r), Rows(r)) == ToMap(Ids(records), Rows(records)) - {records[at].id}
  {
    var r := records[..at] + records[at + 1..];
    assert Ids(r) == Ids(records)[..at] + Ids(records)[at + 1..];
    assert Rows(r) == Rows(records)[..at] + Rows(records)[at + 1..];
    EraseKeepsAscending(Ids(records), at);
    ToMapErased(Ids(records), Rows(records), at);
  }

  lemma RecordPut(records: seq<EntityRecord>, at: nat, row: Row)
    requires Ascending(Ids(records)) && at < |records|
    ensures var r := records[at := EntityRecord(records[at].id, row)];
      Ids(r) == Ids(records) && ToMap(Ids(r), Rows(r)) == ToMap(Ids(records), Rows(records))[records[at].id := row]
  {
    var r := records[at := EntityRecord(records[at].id, row)];
    assert Ids(r) == Ids(records) && Rows(r) == Rows(records)[at := row];
    ToMapPut(Ids(records), Rows(records), at, row);
  }

  predicate WellNumbered(e: EntityRecord) { e.id != 0 && e.row.generation != 0 }

  /** The record's generation was handed out for its id. */
  predicate WasIssued(e: EntityRecord, generations: map<nat, nat>) {
    e.id in generations && e.row.generation <= generations[e.id]
  }

  lemma RecordsSound(records: seq<EntityRecord>, r: Registry)
    requires Ascending(Ids(records)) && r.rows == ToMap(Ids(records), Rows(records)) && Sound(r)
    ensures forall i :: 0 <= i < |records| ==>
              WellNumbered(records[i]) && WasIssued(records[i], r.generations)
  {
    hide Ascending, ToMap;
    forall i | 0 <= i < |records|
      ensures WellNumbered(records[i]) && WasIssued(records[i], r.generations)
    {
      ToMapAt(Ids(records), Rows(records), i);
    }
  }

  datatype IntegrityReport = IntegrityReport(
    duplicateIds: seq<nat>, outOfOrder: seq<nat>, invalidRecords: seq<nat>, generationMismatches: seq<nat>)

  class EntityRegistry {
    var records: seq<EntityRecord>
    var generationById: map<nat, nat>
    var nextReservedId: nat
    var dispatchingEvents: bool
    var destroyedCount: nat
    /** Per subscriber, the calls its callback attempts. */
    var onRegistered: seq<seq<Operation>>
    var onUnregistered: seq<seq<Operation>>
    var onRestored: seq<seq<Operation>>

    ghost predicate Valid()
      reads this
    {
      Ascending(Ids(records))
    }

    ghost function Abs(): Registry
      reads this
    {
      Registry(ToMap(Ids(records), Rows(records)), generationById, nextReservedId, dispatchingEvents, destroyedCount)
    }

    /** A mutation now would be let through and announced to somebody. */
    ghost predicate Heeds()
      reads this
    {
      !dispatchingEvents && !(onRegistered == onUnregistered == onRestored == [])
    }

    /** No subscriber calls Clear: that would destroy the list being walked. */
    predicate Tame()
      reads this
    {
      Guarded(onRegistered) && Guarded(onUnregistered) && Guarded(onRestored)
    }

    ghost predicate SameSubscribers(a: seq<seq<Operation>>, b: seq<seq<Operation>>, c: seq<seq<Operation>>)
      reads this
    {
      onRegistered == a && onUnregistered == b && onRestored == c
    }

    constructor (onRegistered: seq<seq<Operation>>, onUnregistered: seq<seq<Operation>>,
                 onRestored: seq<seq<Operation>>)
      ensures Valid() && Abs() == EMPTY
    {
      records, generationById, nextReservedId, dispatchingEvents, destroyedCount := [], map[], 0x10000, false, 0;
      this.onRegistered, this.onUnregistered, this.onRestored := onRegistered, onUnregistered, onRestored;
    }

    /** Binary search in the canonical store. */
    method IndexOf(id: nat) returns (index: Option<nat>)
      requires Valid()
      ensures index.Some? <==> id in Abs().rows
      ensures index.Some? ==>
        index.value < |records| && records[index.value].id == id && records[index.value].row == Abs().rows[id]
    {
      var at := LowerBound(Ids(records), id);
      LowerBoundDecides(Ids(records), at, id);
      ToMapKeys(Ids(records), Rows(records));
      if at < |records| && records[at].id == id {
        ToMapAt(Ids(records), Rows(records), at);
        return Some(at);
      }
      return None;
    }

    /** Insert a row for an id that has none. */
    method Insert(id: nat, row: Row) returns (inserted: bool)
      requires Valid()
      modifies this`records
      ensures Valid() && inserted == (id !in old(Abs()).rows)
      ensures Abs().rows == if inserted then old(Abs()).rows[id := row] else old(Abs()).rows
    {
      var at := LowerBound(Ids(records), id);
      LowerBoundDecides(Ids(records), at, id);
      ToMapKeys(Ids(records), Rows(records));
      if at < |records| && records[at].id == id {
        return false;
      }
      RecordInserted(records, at, EntityRecord(id, row));
      records := records[..at] + [EntityRecord(id, row)] + records[at..];
      inserted := true;
    }

    method RegisterEntity(id: nat, name: string, metadata: Metadata) returns (reply: Reply)
      requires Valid() && Tame()
      modifies this
      ensures Valid() && Answer(Abs(), reply) == Step(old(Abs()), Register(id, name, metadata))
      ensures old(dispatchingEvents) ==> records == old(records)
      ensures SameSubscribers(old(onRegistered), old(onUnregistered), old(onRestored))
      decreases Heeds(), 0
    {
      if dispatchingEvents {
        return Refused(Internal);
      }
      if id == 0 {
        return Refused(InvalidArgument);
      }
      var previous := if id in generationById then generationById[id] else 0;
      var inserted := Insert(id, Row(previous + 1, name, metadata.(state := Registered)));
      if !inserted {
        return Refused(AlreadyExists);
      }
      generationById := generationById[id := previous + 1];
      if onRegistered != [] {
        Dispatch(onRegistered);
      }
      return Issued(Handle(id, previous + 1));
    }

    method UnregisterEntity(handle: Handle) returns (reply: Reply)
      requires Valid() && Tame()
      modifies this
      ensures Valid() && Answer(Abs(), reply) == Step(old(Abs()), Unregister(handle))
      ensures old(dispatchingEvents) ==> records == old(records)
      ensures SameSubscribers(old(onRegistered), old(onUnregistered), old(onRestored))
      decreases Heeds(), 0
    {
      if dispatchingEvents {
        return Refused(Internal);
      }
      if !IsValid(handle) {
        return Refused(InvalidArgument);
      }
      var index := IndexOf(handle.id);
      if index.None? {
        return Refused(NotFound);
      }
      if records[index.value].row.generation != handle.generation {
        return Refused(NotFound);
      }
      if onUnregistered != [] {
        Dispatch(onUnregistered);
      }
      Drop(index.value);
      return Done;
    }

    /** The counter is kept, so that a reuse of the id moves on to the next generation. */
    method Drop(index: nat)
      requires Valid() && index < |records|
      modifies this`records, this`destroyedCount
      ensures Valid() && Abs() == Dropped(old(Abs()), old(records)[index].id)
    {
      RecordErased(records, index);
      records := records[..index] + records[index + 1..];
      destroyedCount := destroyedCount + 1;
    }

    method RestoreEntity(handle: Handle, name: string, metadata: Metadata) returns (reply: Reply)
      requires Valid() && Tame()
      modifies this
      ensures Valid() && Answer(Abs(), reply) == Step(old(Abs()), Restore(handle, name, metadata))
      ensures old(dispatchingEvents) ==> records == old(records)
      ensures SameSubscribers(old(onRegistered), old(onUnregistered), old(onRestored))
      decreases Heeds(), 0
    {
      if dispatchingEvents {
        return Refused(Internal);
      }
      if handle.id == 0 {
        return Refused(InvalidArgument);
      }
      if handle.generation == 0 {
        return Refused(InvalidArgument);
      }
      var inserted := Insert(handle.id, Row(handle.generation, name, metadata));
      if !inserted {
        return Refused(AlreadyExists);
      }
      var last := if handle.id in generationById then generationById[handle.id] else 0;
      generationById := generationById[handle.id := if handle.generation > last then handle.generation else last];
      if onRestored != [] {
        Dispatch(onRestored);
      }
      return Issued(handle);
    }

    method SetRegistrationState(handle: Handle, target: RegistrationState) returns (reply: Reply)
      requires Valid()
      modifies this`records
      ensures Valid() && Answer(Abs(), reply) == Step(old(Abs()), SetState(handle, target))
      ensures old(dispatchingEvents) ==> records == old(records)
      decreases Heeds(), 0
    {
      if dispatchingEvents {
        return Refused(Internal);
      }
      if !IsValid(handle) {
        return Refused(InvalidArgument);
      }
      var index := IndexOf(handle.id);
      if index.None? || records[index.value].row.generation != handle.generation {
        return Refused(NotFound);
      }
      var row := records[index.value].row;
      if !LegalTransition(row.metadata.state, target) {
        return Refused(InvalidArgument);
      }
      var changed := row.(metadata := row.metadata.(state := target));
      RecordPut(records, index.value, changed);
      records := records[index.value := EntityRecord(handle.id, changed)];
      return Done;
    }

    /** Walks the cursor past everything live or ever numbered; it gets there because those are finitely many. */
    method ReserveEntity() returns (reply: Reply)
      requires Valid()
      modifies this`nextReservedId
      ensures Valid() && Answer(Abs(), reply) == Step(old(Abs()), Reserve)
      decreases Heeds(), 0
    {
      if dispatchingEvents {
        return Refused(Internal);
      }
      ghost var taken := Abs().rows.Keys + Abs().generations.Keys;
      ghost var rest := taken;
      ghost var goal := FirstFree(nextReservedId, taken);
      var live := IndexOf(nextReservedId);
      while live.Some? || nextReservedId in generationById
        invariant FirstFree(nextReservedId, rest) == goal
        invariant forall k :: k >= nextReservedId ==> (k in rest <==> k in taken)
        invariant live.Some? <==> nextReservedId in Abs().rows
        invariant Abs().rows.Keys + Abs().generations.Keys == taken
        invariant Abs() == old(Abs()).(nextReserved := nextReservedId)
        decreases |rest|
      {
        rest := rest - {nextReservedId};
        nextReservedId := nextReservedId + 1;
        live := IndexOf(nextReservedId);
      }
      nextReservedId := nextReservedId + 1;
      return ReservedId(nextReservedId - 1);
    }

    /** Deliver an event: the flag is up while callbacks run, so whatever they attempt is refused. */
    method Dispatch(callbacks: seq<seq<Operation>>)
      requires Valid() && Tame() && !dispatchingEvents && Guarded(callbacks)
      modifies this
      ensures Valid() && Abs() == old(Abs()) && records == old(records)
      ensures SameSubscribers(old(onRegistered), old(onUnregistered), old(onRestored))
      decreases false, 3
    {
      dispatchingEvents := true;
      ghost var r := Abs();
      for i := 0 to |callbacks|
        invariant Valid() && dispatchingEvents && Abs() == r && records == old(records)
        invariant SameSubscribers(old(onRegistered), old(onUnregistered), old(onRestored))
      {
        RefusedIff(r, callbacks[i]);
        Callback(callbacks[i]);
      }
      dispatchingEvents := false;
    }

    /** One subscriber at work. Only a Clear gets through, and after it everything does. */
    method Callback(ops: seq<Operation>)
      requires Valid() && Tame() && dispatchingEvents
      modifies this
      ensures Valid() && Abs() == Run(old(Abs()), ops)
      ensures Abs() == old(Abs()) <==> ClearAll !in ops
      ensures ClearAll !in ops ==>
        records == old(records) && SameSubscribers(old(onRegistered), old(onUnregistered), old(onRestored))
      ensures ClearAll in ops ==> SameSubscribers([], [], [])
      decreases false, 2
    {
      ghost var r := Abs();
      for j := 0 to |ops|
        invariant Valid() && Tame() && Abs() == Run(r, ops[..j]) && !Heeds()
        invariant ClearAll !in ops[..j] ==>
          && dispatchingEvents && records == old(records)
          && SameSubscribers(old(onRegistered), old(onUnregistered), old(onRestored))
        invariant ClearAll in ops[..j] ==> SameSubscribers([], [], [])
      {
        assert ops[..j + 1] == ops[..j] + [ops[j]];
        assert ops[..j + 1][..j] == ops[..j];
        RefusedIff(r, ops[..j]);
        match ops[j] {
          case Call(request) => Try(request);
          case ClearAll => Clear();
        }
      }
      assert ops[..|ops|] == ops;
      RefusedIff(r, ops);
    }

    /** One guarded mutation, called from a callback. */
    method Try(request: Request)
      requires Valid() && Tame() && !Heeds()
      modifies this
      ensures Valid() && Abs() == Step(old(Abs()), request).registry
      ensures old(dispatchingEvents) ==> records == old(records)
      ensures SameSubscribers(old(onRegistered), old(onUnregistered), old(onRestored))
      decreases false, 1
    {
      var reply: Reply;
      match request {
        case Register(id, name, metadata) => reply := RegisterEntity(id, name, metadata);
        case Unregister(handle) => reply := UnregisterEntity(handle);
        case Restore(handle, name, metadata) => reply := RestoreEntity(handle, name, metadata);
        case SetState(handle, target) => reply := SetRegistrationState(handle, target);
        case Reserve => reply := ReserveEntity();
      }
    }

    method FindByHandle(handle: Handle) returns (row: Option<Row>)
      requires Valid()
      ensures row.Some? <==> Resolves(Abs(), handle)
      ensures row.Some? ==> row.value == Abs().rows[handle.id]
    {
      var index := IndexOf(handle.id);
      if index.Some? && records[index.value].row.generation == handle.generation {
        return Some(records[index.value].row);
      }
      return None;
    }

    /** The one mutation the dispatch flag does not guard: everything forgotten, subscribers included. */
    method Clear()
      modifies this
      ensures Valid() && Abs() == EMPTY && SameSubscribers([], [], [])
    {
      records, generationById := [], map[];
      onRegistered, onUnregistered, onRestored := [], [], [];
      nextReservedId, dispatchingEvents, destroyedCount := 0x10000, false, 0;
    }

    /** One pass over the records, neighbours compared; on a sound registry it reports nothing. */
    method ValidateIntegrity() returns (report: IntegrityReport)
      ensures report.duplicateIds == [] && report.outOfOrder == [] <==> Ascending(Ids(records))
      ensures report.invalidRecords == [] <==> forall i :: 0 <= i < |records| ==> WellNumbered(records[i])
      ensures report.generationMismatches == [] <==>
        forall i :: 0 <= i < |records| ==> WasIssued(records[i], generationById)
      ensures Valid() && Sound(Abs()) ==> report == IntegrityReport([], [], [], [])
    {
      hide Ascending, AscendingTo, ToMap, Sound, WellNumbered, WasIssued;
      var duplicates: seq<nat>, disorder: seq<nat>, invalid: seq<nat>, mismatches: seq<nat> := [], [], [], [];
      if Valid() && Sound(Abs()) {
        RecordsSound(records, Abs());
      }
      AscendingWhole(Ids(records));
      for i := 0 to |records|
        invariant duplicates == [] && disorder == [] <==> AscendingTo(Ids(records), i)
        invariant invalid == [] <==> forall j :: 0 <= j < i ==> WellNumbered(records[j])
        invariant mismatches == [] <==> forall j :: 0 <= j < i ==> WasIssued(records[j], generationById)
      {
        var id := records[i].id;
        AscendingNext(Ids(records), i);
        if !WellNumbered(records[i]) {
          invalid := invalid + [id];
        }
        if i > 0 {
          if id == records[i - 1].id {
            duplicates := duplicates + [id];
          } else if id < records[i - 1].id {
            disorder := disorder + [id];
          }
        }
        if !WasIssued(records[i], generationById) {
          mismatches := mismatches + [id];
        }
      }
      report := IntegrityReport(duplicates, disorder, invalid, mismatches);
    }
  }
}
