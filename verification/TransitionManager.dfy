/** TransitionIntentStore.h and TransitionManager.cpp as objects. */
module TransitionManagers {
  import opened Prelude
  import opened Sorted
  import opened SortedStore
  import M = TransitionModel

  datatype Entry = Entry(id: nat, state: M.State)

  function Ids(entries: seq<Entry>): (k: seq<nat>)
    ensures |k| == |entries| && forall i :: 0 <= i < |entries| ==> k[i] == entries[i].id
  {
    seq(|entries|, i requires 0 <= i < |entries| => entries[i].id)
  }

  function States(entries: seq<Entry>): (s: seq<M.State>)
    ensures |s| == |entries| && forall i :: 0 <= i < |entries| ==> s[i] == entries[i].state
  {
    seq(|entries|, i requires 0 <= i < |entries| => entries[i].state)
  }

  lemma EntryPut(entries: seq<Entry>, at: nat, state: M.State)
    requires Ascending(Ids(entries)) && at < |entries|
    ensures var r := entries[at := Entry(entries[at].id, state)];
      && Ids(r) == Ids(entries)
      && ToMap(Ids(r), States(r)) == ToMap(Ids(entries), States(entries))[entries[at].id := state]
  {
    var r := entries[at := Entry(entries[at].id, state)];
    assert Ids(r) == Ids(entries) && States(r) == States(entries)[at := state];
    ToMapPut(Ids(entries), States(entries), at, state);
  }

  lemma EntryInserted(entries: seq<Entry>, at: nat, e: Entry)
    requires Ascending(Ids(entries)) && at <= |entries|
    requires forall i :: 0 <= i < at ==> Ids(entries)[i] < e.id
    requires forall i :: at <= i < |entries| ==> e.id < Ids(entries)[i]
    ensures var r := entries[..at] + [e] + entries[at..];
      Ascending(Ids(r)) && ToMap(Ids(r), States(r)) == ToMap(Ids(entries), States(entries))[e.id := e.state]
  {
    var r := entries[..at] + [e] + entries[at..];
    assert Ids(r) == Ids(entries)[..at] + [e.id] + Ids(entries)[at..];
    assert States(r) == States(entries)[..at] + [e.state] + States(entries)[at..];
    InsertKeepsAscending(Ids(entries), at, e.id);
    ToMapInserted(Ids(entries), States(entries), at, e.id, e.state);
  }

  class TransitionIntentStore {
    var entries: seq<Entry>
    var index: map<nat, nat>

    ghost predicate Valid()
      reads this
    {
      Indexed(Ids(entries), States(entries), index)
    }

    ghost function Intent(): M.Intent
      reads this
    {
      ToMap(Ids(entries), States(entries))
    }

    constructor ()
      ensures Valid() && Intent() == map[]
    {
      entries, index := [], map[];
    }

    method Set(id: nat, state: M.State)
      requires Valid()
      modifies this
      ensures Valid() && Intent() == old(Intent())[id := state]
    {
      var pos := LowerBound(Ids(entries), id);
      LowerBoundDecides(Ids(entries), pos, id);
      if pos < |entries| && entries[pos].id == id {
        EntryPut(entries, pos, state);
        entries := entries[pos := Entry(id, state)];
        return;
      }
      EntryInserted(entries, pos, Entry(id, state));
      entries := entries[..pos] + [Entry(id, state)] + entries[pos..];
      index := RebuildAccelerator(Ids(entries));
    }

    method Get(id: nat) returns (state: M.State)
      requires Valid()
      ensures state == M.Get(Intent(), id)
    {
      IndexFinds(Ids(entries), States(entries), index, id);
      if id !in index {
        return M.Offline;
      }
      state := entries[index[id]].state;
    }

    /** Order and accelerator, as stored. */
    method ValidateConsistency() returns (sortedUnique: bool, acceleratorConsistent: bool)
      ensures sortedUnique <==> Ascending(Ids(entries))
      ensures Valid() ==> sortedUnique && acceleratorConsistent
      ensures acceleratorConsistent <==>
        |index| == |entries| && forall i :: 0 <= i < |entries| ==> entries[i].id in index && index[entries[i].id] == i
    {
      var sorted, noZero := ScanOrder(Ids(entries));
      sortedUnique := sorted;
      acceleratorConsistent := |index| == |entries|;
      if acceleratorConsistent {
        for i := 0 to |entries|
          invariant forall j :: 0 <= j < i ==> entries[j].id in index && index[entries[j].id] == j
        {
          if entries[i].id !in index || index[entries[i].id] != i {
            acceleratorConsistent := false;
            return;
          }
        }
      }
    }
  }

  /** std::sort of the staged commands, by insertion. */
  method SortCommands(batch: seq<M.Command>) returns (sorted: seq<M.Command>)
    ensures sorted == M.Sort(batch)
  {
    sorted := [];
    for i := 0 to |batch|
      invariant sorted == M.Sort(batch[..i])
    {
      assert batch[..i + 1][..i] == batch[..i];
      sorted := InsertCommand(sorted, batch[i]);
    }
    assert batch[..|batch|] == batch;
  }

  method InsertCommand(sorted: seq<M.Command>, c: M.Command) returns (r: seq<M.Command>)
    ensures r == M.InsertCommand(sorted, c)
  {
    var at := |sorted|;
    assert sorted[..at] == sorted && sorted[at..] == [];
    while at > 0 && M.Before(c, sorted[at - 1])
      invariant 0 <= at <= |sorted|
      invariant M.InsertCommand(sorted, c) == M.InsertCommand(sorted[..at], c) + sorted[at..]
    {
      assert sorted[..at][..at - 1] == sorted[..at - 1];
      assert [sorted[at - 1]] + sorted[at..] == sorted[at - 1..];
      Joined(M.InsertCommand(sorted[..at - 1], c), [sorted[at - 1]], sorted[at..]);
      at := at - 1;
    }
    r := sorted[..at] + [c] + sorted[at..];
  }

  /** The intents when those in `done` have been reconciled. */
  ghost function Partly(before: M.Intent, done: seq<nat>, truth: map<nat, bool>): M.Intent {
    map id | id in before :: if id in done then M.Confirmed(before[id], id, truth) else before[id]
  }

  lemma NoneConfirmed(before: M.Intent, truth: map<nat, bool>)
    ensures Partly(before, [], truth) == before
  {
  }

  lemma OneConfirmed(before: M.Intent, ids: seq<nat>, j: nat, truth: map<nat, bool>)
    requires j < |ids| && ids[j] in before && forall i :: 0 <= i < j ==> ids[i] < ids[j]
    ensures ids[j] in Partly(before, ids[..j], truth) && Partly(before, ids[..j], truth)[ids[j]] == before[ids[j]]
    ensures Partly(before, ids[..j + 1], truth)
         == Partly(before, ids[..j], truth)[ids[j] := M.Confirmed(before[ids[j]], ids[j], truth)]
  {
    assert ids[..j + 1] == ids[..j] + [ids[j]];
  }

  lemma AllConfirmed(before: M.Intent, pending: seq<nat>, gateway: M.Gateway)
    requires forall id :: id in before && id !in pending ==>
      before[id] != M.PendingOnline && before[id] != M.PendingOffline
    ensures Partly(before, pending, gateway.truth) == M.Reconciled(before, Some(gateway))
  {
  }

  class TransitionManager {
    const intent: TransitionIntentStore
    var stagedBatch: seq<M.Command>
    var lastRecords: seq<M.Record>
    var lastTick: nat
    var lastResult: M.Result

    ghost predicate Valid()
      reads this, intent
    {
      intent.Valid()
    }

    ghost function Abs(): M.Manager
      reads this, intent
    {
      M.Manager(intent.Intent(), stagedBatch, lastRecords, lastTick, lastResult)
    }

    constructor ()
      ensures Valid() && Abs() == M.EMPTY && fresh(intent)
    {
      intent := new TransitionIntentStore();
      stagedBatch, lastRecords, lastTick, lastResult := [], [], 0, M.Result([], [], 0);
    }

    /** Confirms what the engine says has happened; everything else waits. */
    method Reconcile(gateway: Option<M.Gateway>)
      requires Valid()
      modifies intent
      ensures Valid() && intent.Intent() == M.Reconciled(old(intent.Intent()), gateway)
    {
      if gateway.None? {
        return;
      }
      hide TransitionIntentStore.Valid, TransitionIntentStore.Intent, Partly, M.Reconciled;
      ghost var before := intent.Intent();
      var pending := PendingIds();
      NoneConfirmed(before, gateway.value.truth);
      for j := 0 to |pending|
        invariant Valid() && intent.Intent() == Partly(before, pending[..j], gateway.value.truth)
      {
        var id := pending[j];
        OneConfirmed(before, pending, j, gateway.value.truth);
        Confirm(id, gateway.value.truth);
      }
      WholePrefix(pending);
      AllConfirmed(before, pending, gateway.value);
    }

    /** One pending intent against what the engine says of it. */
    method Confirm(id: nat, truth: map<nat, bool>)
      requires Valid() && id in intent.Intent()
      modifies intent
      ensures Valid()
      ensures intent.Intent() == old(intent.Intent())[id := M.Confirmed(old(intent.Intent())[id], id, truth)]
    {
      if id !in truth {
        return;
      }
      var online := truth[id];
      var state := intent.Get(id);
      if state == M.PendingOnline && online {
        intent.Set(id, M.Online);
      } else if state == M.PendingOffline && !online {
        intent.Set(id, M.Offline);
      }
    }

    method PendingIds() returns (pending: seq<nat>)
      requires Valid()
      ensures forall id :: id in pending <==>
        id in intent.Intent() && (intent.Intent()[id] == M.PendingOnline || intent.Intent()[id] == M.PendingOffline)
      ensures forall i, j :: 0 <= i < j < |pending| ==> pending[i] < pending[j]
    {
      hide IsIndex;
      pending := [];
      ghost var m, entries := intent.Intent(), intent.entries;
      ToMapKeys(Ids(entries), States(entries));
      for i := 0 to |intent.entries|
        invariant forall id :: id in pending <==>
          exists k :: 0 <= k < i && entries[k].id == id
                      && (entries[k].state == M.PendingOnline || entries[k].state == M.PendingOffline)
        invariant forall a, b :: 0 <= a < b < |pending| ==> pending[a] < pending[b]
        invariant forall a :: 0 <= a < |pending| && i < |entries| ==> pending[a] < entries[i].id
      {
        var entry := intent.entries[i];
        assert i + 1 < |entries| ==> Ids(entries)[i] < Ids(entries)[i + 1];
        if entry.state == M.PendingOnline || entry.state == M.PendingOffline {
          pending := pending + [entry.id];
        }
      }
      forall k | 0 <= k < |entries| ensures entries[k].id in m && m[entries[k].id] == entries[k].state {
        ToMapAt(Ids(entries), States(entries), k);
      }
    }

    /** One tick: reconcile, ingest the delta, apply the batch. */
    method Update(i: M.Input)
      requires Valid()
      modifies this, intent
      ensures Valid() && Abs() == M.Update(old(Abs()), i)
    {
      lastTick := i.tick;
      Reconcile(i.gateway);
      stagedBatch := [];
      if i.bubble.None? {
        return;
      }
      StageActivations(i.bubble.value.activations, i.registered);
      StageDeactivations(i.bubble.value.deactivations, i.registered);
      stagedBatch := SortCommands(stagedBatch);
      ApplyBatch(i.gateway);
    }

    method StageActivations(ids: seq<nat>, registered: Option<set<nat>>)
      requires Valid()
      modifies this`stagedBatch, intent
      ensures Valid()
      ensures M.Staging(intent.Intent(), stagedBatch)
           == M.StageActivations(old(M.Staging(intent.Intent(), stagedBatch)), ids, |ids|, registered)
    {
      for k := 0 to |ids|
        invariant Valid()
        invariant M.Staging(intent.Intent(), stagedBatch)
               == M.StageActivations(old(M.Staging(intent.Intent(), stagedBatch)), ids, k, registered)
      {
        var id := ids[k];
        if registered.Some? && id !in registered.value {
          continue;
        }
        var state := intent.Get(id);
        if !M.NeedsActivate(state) {
          continue;
        }
        stagedBatch := stagedBatch + [M.Command(id, M.Activate)];
        intent.Set(id, M.PendingOnline);
      }
    }

    method StageDeactivations(ids: seq<nat>, registered: Option<set<nat>>)
      requires Valid()
      modifies this`stagedBatch, intent
      ensures Valid()
      ensures M.Staging(intent.Intent(), stagedBatch)
           == M.StageDeactivations(old(M.Staging(intent.Intent(), stagedBatch)), ids, |ids|, registered)
    {
      for k := 0 to |ids|
        invariant Valid()
        invariant M.Staging(intent.Intent(), stagedBatch)
               == M.StageDeactivations(old(M.Staging(intent.Intent(), stagedBatch)), ids, k, registered)
      {
        var id := ids[k];
        if registered.Some? && id !in registered.value {
          continue;
        }
        var state := intent.Get(id);
        if !M.NeedsDeactivate(state) {
          continue;
        }
        stagedBatch := stagedBatch + [M.Command(id, M.Deactivate)];
        intent.Set(id, M.PendingOffline);
      }
    }

    /** One outcome per command, up to the shorter list; the performed switches are the result. */
    method ApplyBatch(gateway: Option<M.Gateway>)
      modifies this`lastRecords, this`lastResult
      ensures Abs() == M.ApplyBatch(old(Abs()), gateway)
    {
      lastRecords := [];
      lastResult := M.Result([], [], lastTick);
      if gateway.None? {
        return;
      }
      var outcomes := gateway.value.outcomes;
      var count := if |outcomes| < |stagedBatch| then |outcomes| else |stagedBatch|;
      ghost var all := M.RecordsOf(stagedBatch, outcomes);
      var online, offline := [], [];
      for k := 0 to count
        invariant lastRecords == all[..k]
        invariant online == M.Brought(all[..k], M.Activate) && offline == M.Brought(all[..k], M.Deactivate)
      {
        assert all[..k + 1][..k] == all[..k];
        var command := stagedBatch[k];
        lastRecords := lastRecords + [M.Record(command.id, command.kind, outcomes[k])];
        if outcomes[k] == M.Applied {
          if command.kind == M.Activate {
            online := online + [command.id];
          } else {
            offline := offline + [command.id];
          }
        }
      }
      assert all[..count] == all;
      lastResult := M.Result(online, offline, lastTick);
    }

    // --------------------------------------------------------------------- the self-check

    method BatchOrdered() returns (ok: bool)
      ensures ok <==> M.BatchOrdered(Abs())
    {
      var i := 1;
      while i < |stagedBatch|
        invariant 1 <= i
        invariant forall j, k :: 0 <= j < k < i && k < |stagedBatch| ==> stagedBatch[j].id < stagedBatch[k].id
      {
        if !M.Before(stagedBatch[i - 1], stagedBatch[i]) || stagedBatch[i - 1].id == stagedBatch[i].id {
          return false;
        }
        i := i + 1;
      }
      ok := true;
    }

    method StagedMatchesIntent() returns (ok: bool)
      requires Valid()
      ensures ok <==> M.StagedMatchesIntent(Abs())
    {
      for i := 0 to |stagedBatch|
        invariant forall j :: 0 <= j < i ==>
          M.Get(intent.Intent(), stagedBatch[j].id)
            == if stagedBatch[j].kind == M.Activate then M.PendingOnline else M.PendingOffline
      {
        var state := intent.Get(stagedBatch[i].id);
        if !((stagedBatch[i].kind == M.Activate && state == M.PendingOnline)
             || (stagedBatch[i].kind == M.Deactivate && state == M.PendingOffline)) {
          return false;
        }
      }
      ok := true;
    }

    method RecordsMatchBatch() returns (ok: bool)
      ensures ok <==> M.RecordsMatchBatch(Abs())
    {
      if lastRecords == [] {
        return true;
      }
      if |lastRecords| != |stagedBatch| {
        return false;
      }
      for i := 0 to |lastRecords|
        invariant forall j :: 0 <= j < i ==>
          lastRecords[j].id == stagedBatch[j].id && lastRecords[j].kind == stagedBatch[j].kind
      {
        if lastRecords[i].id != stagedBatch[i].id || lastRecords[i].kind != stagedBatch[i].kind {
          return false;
        }
      }
      ok := true;
    }

    method BackedByAppliedRecord(id: nat, kind: M.Kind) returns (backed: bool)
      ensures backed <==> M.Backed(lastRecords, id, kind)
    {
      for i := 0 to |lastRecords|
        invariant forall j :: 0 <= j < i ==> lastRecords[j] != M.Record(id, kind, M.Applied)
      {
        if lastRecords[i] == M.Record(id, kind, M.Applied) {
          return true;
        }
      }
      backed := false;
    }

    method AllBacked(ids: seq<nat>, kind: M.Kind) returns (backed: bool)
      ensures backed <==> forall i :: 0 <= i < |ids| ==> M.Backed(lastRecords, ids[i], kind)
    {
      for i := 0 to |ids|
        invariant forall j :: 0 <= j < i ==> M.Backed(lastRecords, ids[j], kind)
      {
        var one := BackedByAppliedRecord(ids[i], kind);
        if !one {
          return false;
        }
      }
      backed := true;
    }

    method ResultConsistent() returns (ok: bool)
      ensures ok <==> M.ResultConsistent(Abs())
    {
      var onlineSorted, noZero := ScanOrder(lastResult.broughtOnline);
      var offlineSorted, alsoNoZero := ScanOrder(lastResult.broughtOffline);
      if !onlineSorted || !offlineSorted || lastResult.tick != lastTick {
        return false;
      }
      ok := AllBacked(lastResult.broughtOnline, M.Activate);
      if ok {
        ok := AllBacked(lastResult.broughtOffline, M.Deactivate);
      }
    }

    /** Five scans; the store's own check cannot fail on a store that only Set has touched. */
    method ValidateConsistency() returns (healthy: bool)
      requires Valid()
      ensures healthy <==> M.Healthy(Abs())
    {
      var sortedUnique, acceleratorConsistent := intent.ValidateConsistency();
      var ordered := BatchOrdered();
      var matched := StagedMatchesIntent();
      var parallel := RecordsMatchBatch();
      var consistent := ResultConsistent();
      healthy := sortedUnique && acceleratorConsistent && ordered && matched && parallel && consistent;
    }
  }
}
