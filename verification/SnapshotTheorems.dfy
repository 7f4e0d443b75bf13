/** Reference counts, immutability and progress over every run of the snapshot pipeline. */
module SnapshotTheorems {
  import opened Prelude
  import opened SnapshotTypes
  import opened SnapshotModel

  // ------------------------------------------------------------------ counting holders

  ghost function CountInUse(slots: seq<Slot>): nat {
    if slots == [] then 0
    else CountInUse(slots[..|slots| - 1]) + if slots[|slots| - 1].inUse then 1 else 0
  }

  lemma {:induction false} CountUpdate(slots: seq<Slot>, i: nat, x: Slot)
    requires i < |slots|
    ensures CountInUse(slots[i := x])
         == CountInUse(slots) - (if slots[i].inUse then 1 else 0) + (if x.inUse then 1 else 0)
  {
    var n := |slots| - 1;
    if i < n {
      CountUpdate(slots[..n], i, x);
      assert slots[i := x][..n] == slots[..n][i := x];
    } else {
      assert slots[i := x][..n] == slots[..n];
    }
  }

  ghost function Ref(o: Option<nat>): multiset<nat> {
    if o.Some? then multiset{o.value} else multiset{}
  }

  /** Everyone who holds a reference: the builder, the queue and the consumers. */
  ghost function Owners(s: System): multiset<nat> {
    s.holds + Ref(s.building) + Ref(s.current)
  }

  /** Reference counts are the number of owners; a slot is in use iff it has one; inUse counts them. */
  ghost predicate Balanced(s: System, owners: multiset<nat>) {
    && (forall i :: 0 <= i < |s.slots| ==> s.slots[i].refCount == owners[i])
    && (forall i :: 0 <= i < |s.slots| ==> (s.slots[i].inUse <==> owners[i] > 0))
    && (forall i :: i in owners ==> i < |s.slots|)
    && s.inUse == CountInUse(s.slots)
  }

  lemma SameBalanced(s: System, s': System, owners: multiset<nat>)
    requires Balanced(s, owners) && s'.slots == s.slots && s'.inUse == s.inUse
    ensures Balanced(s', owners)
  {
  }

  lemma AcquireBalanced(s: System, owners: multiset<nat>, i: nat)
    requires Balanced(s, owners) && i < |s.slots| && !s.slots[i].inUse
    ensures Balanced(AcquireSlot(s, i), owners + multiset{i})
  {
    CountUpdate(s.slots, i, s.slots[i].(inUse := true, refCount := 1));
  }

  lemma AddRefBalanced(s: System, owners: multiset<nat>, i: nat)
    requires Balanced(s, owners) && i in owners
    ensures Balanced(AddRef(s, i), owners + multiset{i})
  {
    CountUpdate(s.slots, i, s.slots[i].(refCount := s.slots[i].refCount + 1));
  }

  lemma ReturnBalanced(s: System, owners: multiset<nat>, i: nat)
    requires Balanced(s, owners) && i in owners
    ensures Balanced(ReturnToPool(s, i), owners - multiset{i})
  {
    var slot := s.slots[i];
    CountUpdate(s.slots, i, slot.(refCount := slot.refCount - 1, inUse := slot.refCount > 1));
    CountUpdate(s.slots, i, slot.(refCount := 0, inUse := false));
    assert s.inUse > 0;
  }

  lemma WriteBalanced(s: System, owners: multiset<nat>, i: nat, content: Snapshot)
    requires Balanced(s, owners) && i < |s.slots|
    ensures Balanced(Write(s, i, content), owners)
  {
    CountUpdate(s.slots, i, s.slots[i].(content := content));
  }

  // ------------------------------------------------------------------------- contents

  /** Same slots with the same contents, except perhaps one. */
  ghost predicate SameContents(s: System, s': System, except: Option<nat>) {
    && |s'.slots| == |s.slots|
    && (forall i :: 0 <= i < |s.slots| && Some(i) != except ==> s'.slots[i].content == s.slots[i].content)
  }

  lemma PoolSameContents(s: System, i: nat)
    ensures SameContents(s, AddRef(s, i), None)
    ensures SameContents(s, ReturnToPool(s, i), None)
    ensures i < |s.slots| ==> SameContents(s, AcquireSlot(s, i), None)
  {
  }

  /** Returning a buffer touches nothing but its slot and the counter. */
  lemma ReturnFrame(s: System, i: nat)
    ensures ReturnToPool(s, i) == s.(slots := ReturnToPool(s, i).slots, inUse := ReturnToPool(s, i).inUse)
  {
  }

  // -------------------------------------------------------------------- what is captured

  /** The players that are captured: removed records are passed over. */
  ghost function Kept(ps: seq<CapturedPlayer>): seq<PlayerSnapshot> {
    if ps == [] then []
    else if ps[0].removed then Kept(ps[1..])
    else [ps[0].player] + Kept(ps[1..])
  }

  lemma {:induction false} EntitiesCaptured(c: Snapshot, es: seq<EntitySnapshot>, i: nat)
    requires i <= |es| && c.metadata.state == Building && AscendingEntities(c.entities)
    ensures var f := AddEntitiesFrom(c, es, i);
            && f.content.metadata == c.metadata && f.content.players == c.players
            && f.content.environment == c.environment
            && (f.ok <==> AscendingEntities(c.entities + es[i..]))
            && (f.ok ==> f.content.entities == c.entities + es[i..])
    decreases |es| - i
  {
    if i == |es| {
      assert c.entities + es[i..] == c.entities;
    } else {
      var n := |c.entities|;
      var all := c.entities + es[i..];
      assert all[n] == es[i];
      if CanAddEntity(c, es[i]) {
        var c1 := c.(entities := c.entities + [es[i]]);
        assert c1.entities + es[i + 1..] == all;
        forall a, b | 0 <= a < b < |c1.entities| ensures c1.entities[a].id < c1.entities[b].id {
          assert b == n && a < n - 1 ==> c.entities[a].id < c.entities[n - 1].id;
        }
        EntitiesCaptured(c1, es, i + 1);
      } else if n > 0 && es[i].id != 0 {
        assert all[n - 1].id >= all[n].id;
      }
    }
  }

  lemma {:induction false} PlayersCaptured(c: Snapshot, ps: seq<CapturedPlayer>, i: nat, count: nat, max: nat)
    requires i <= |ps| && c.metadata.state == Building && AscendingPlayers(c.players)
    requires count == |c.players| && count <= max
    ensures var f := AddPlayersFrom(c, ps, i, count, max);
            && f.content.metadata == c.metadata && f.content.entities == c.entities
            && f.content.environment == c.environment
            && (f.ok <==> AscendingPlayers(c.players + Kept(ps[i..])) && count + |Kept(ps[i..])| <= max)
            && (f.ok ==> f.content.players == c.players + Kept(ps[i..]))
    decreases |ps| - i
  {
    if i == |ps| {
      assert c.players + Kept(ps[i..]) == c.players;
    } else {
      assert ps[i..][1..] == ps[i + 1..];
      if ps[i].removed {
        PlayersCaptured(c, ps, i + 1, count, max);
      } else {
        var n := |c.players|;
        var all := c.players + Kept(ps[i..]);
        assert all[n] == ps[i].player;
        if count < max && CanAddPlayer(c, ps[i].player) {
          var c1 := c.(players := c.players + [ps[i].player]);
          assert c1.players + Kept(ps[i + 1..]) == all;
          forall a, b | 0 <= a < b < |c1.players| ensures c1.players[a].id < c1.players[b].id {
            assert b == n && a < n - 1 ==> c.players[a].id < c.players[n - 1].id;
          }
          PlayersCaptured(c1, ps, i + 1, count + 1, max);
        } else if n > 0 && count < max && ps[i].player.id != 0 {
          assert all[n - 1].id >= all[n].id;
        }
      }
    }
  }

  /** A capture succeeds exactly on ascending sources within the limits, and then holds all of them. */
  lemma CaptureSucceedsIff(id: nat, tick: u64, config: Config, input: Capture)
    ensures var f := Captured(Begun(id, tick, config.version), config, input);
            && (f.ok <==>
                  && |input.entities| <= config.maxEntities && AscendingEntities(input.entities)
                  && |Kept(input.players)| <= config.maxPlayers && AscendingPlayers(Kept(input.players)))
            && f.content.metadata == Begun(id, tick, config.version).metadata
            && (f.ok ==> && f.content.entities == input.entities
                         && f.content.players == Kept(input.players)
                         && f.content.environment == EnvironmentOf(tick, input.weather))
  {
    hide Kept;
    var c := Begun(id, tick, config.version);
    EntitiesCaptured(c, input.entities, 0);
    assert [] + input.entities[0..] == input.entities;
    var e := AddEntitiesFrom(c, input.entities, 0);
    PlayersCaptured(e.content, input.players, 0, 0, config.maxPlayers);
    assert [] + Kept(input.players[0..]) == Kept(input.players) by {
      assert input.players[0..] == input.players;
    }
  }

  // ------------------------------------------------------------------------ the invariant

  /** What the holder of a reference may rely on. */
  ghost predicate Good(s: System, i: nat) {
    && i < |s.slots|
    && s.slots[i].content.metadata.state == Finalized
    && WellFormed(s.slots[i].content)
  }

  /** Published ids and ticks strictly increase, and the last one is the current snapshot's. */
  ghost predicate LogOk(s: System) {
    && (forall i, j :: 0 <= i < j < |s.log| ==> s.log[i].id < s.log[j].id && s.log[i].tick < s.log[j].tick)
    && (forall i :: 0 <= i < |s.log| ==> s.log[i].id < s.nextId && s.log[i].tick <= s.tick)
    && (s.current.Some? <==> s.log != [])
    && (s.current.Some? && s.current.value < |s.slots| ==>
          s.slots[s.current.value].content.metadata.id == s.log[|s.log| - 1].id)
  }

  ghost predicate Inv(s: System) {
    && s.building == None
    && Balanced(s, Owners(s))
    && (forall i :: i in Owners(s) ==> Good(s, i))
    && LogOk(s)
  }

  lemma {:induction false} NoneInUse(slots: seq<Slot>)
    requires forall i :: 0 <= i < |slots| ==> !slots[i].inUse
    ensures CountInUse(slots) == 0
  {
    if slots != [] {
      NoneInUse(slots[..|slots| - 1]);
    }
  }

  lemma InitialInv(config: Config, capacity: nat)
    ensures Inv(Initial(config, capacity))
  {
    NoneInUse(Initial(config, capacity).slots);
  }

  /** A build is under way in a buffer nobody else holds: one more owner, one buffer rewritten. */
  ghost predicate BuildingOn(s: System, s2: System, i: nat) {
    && i < |s.slots| && i !in Owners(s)
    && s2.building == Some(i) && Balanced(s2, Owners(s) + multiset{i})
    && SameContents(s, s2, Some(i))
    && s2.current == s.current && s2.holds == s.holds && s2.log == s.log
    && s2.nextId == s.nextId + 1 && s2.tick == s.tick && s2.config == s.config
  }

  lemma AcquiredBuilding(s: System, i: nat, content: Snapshot)
    requires Inv(s) && i < |s.slots| && !s.slots[i].inUse
    ensures BuildingOn(s, Write(AcquireSlot(s, i), i, content).(building := Some(i), nextId := s.nextId + 1), i)
  {
    AcquireBalanced(s, Owners(s), i);
    WriteBalanced(AcquireSlot(s, i), Owners(s) + multiset{i}, i, content);
  }

  /** BeginBuild takes a buffer that nobody holds; it fails exactly when every buffer is held. */
  lemma BeginBuildTakesFree(s: System, s1: System)
    requires Inv(s) && s1 == BeginBuild(s)
    ensures s1.building.None? <==> forall i :: 0 <= i < |s.slots| ==> i in Owners(s)
    ensures s1.building.None? ==> s1 == s
    ensures s1.building.Some? ==>
              && BuildingOn(s, s1, s1.building.value)
              && s1.slots[s1.building.value].content == Begun(s.nextId, Low64(s.tick), s.config.version)
  {
    var i := FirstFree(s.slots, 0);
    if i < |s.slots| {
      AcquiredBuilding(s, i, Begun(s.nextId, Low64(s.tick), s.config.version));
      assert i !in Owners(s);
    }
  }

  /** A failed capture: the buffer goes back and nothing else changed. */
  ghost predicate Restored(s: System, r: System, i: nat) {
    && r.building == None && r.holds == s.holds && r.current == s.current && r.log == s.log
    && Balanced(r, Owners(s)) && SameContents(s, r, Some(i))
    && r.nextId == s.nextId + 1 && r.tick == s.tick
  }

  lemma AbortRestores(s: System, s2: System, i: nat)
    requires BuildingOn(s, s2, i)
    ensures Restored(s, Abort(s2), i)
  {
    hide ReturnToPool, Balanced, Owners;
    ReturnFrame(s2, i);
    assert i in Owners(s) + multiset{i};
    assert Owners(s) + multiset{i} - multiset{i} == Owners(s);
    ReturnBalanced(s2, Owners(s) + multiset{i}, i);
    PoolSameContents(s2, i);
    SameBalanced(ReturnToPool(s2, i), Abort(s2), Owners(s));
  }

  lemma RestoredInv(s: System, r: System, i: nat)
    requires Inv(s) && i !in Owners(s) && Restored(s, r, i)
    ensures Inv(r) && Owners(r) == Owners(s)
  {
    hide Balanced, WellFormed, CountInUse;
    assert Owners(r) == Owners(s);
    forall k | k in Owners(r) ensures Good(r, k) {
      assert Good(s, k);
    }
  }

  /** The builder's reference has passed to the queue; the superseded buffer still counts one more. */
  ghost predicate Handed(s: System, w: System, i: nat, content: Snapshot) {
    && i < |s.slots| && |w.slots| == |s.slots|
    && w.current == Some(i) && w.building == None && w.holds == s.holds && w.log == s.log
    && Balanced(w, Owners(s) + multiset{i})
    && SameContents(s, w, Some(i)) && w.slots[i].content == content
    && w.nextId == s.nextId + 1 && w.tick == s.tick
  }

  lemma HandsOver(s: System, s2: System, i: nat, content: Snapshot)
    requires BuildingOn(s, s2, i)
    ensures Handed(s, Write(s2, i, content).(building := None, built := s2.built + 1,
                                             current := Some(i), published := s2.published + 1), i, content)
  {
    WriteBalanced(s2, Owners(s) + multiset{i}, i, content);
  }

  /** The same, once the superseded reference is dropped. */
  ghost predicate Settled(s: System, r: System, i: nat, content: Snapshot) {
    && i < |s.slots| && |r.slots| == |s.slots|
    && r.current == Some(i) && r.building == None && r.holds == s.holds && r.log == s.log
    && Balanced(r, s.holds + multiset{i})
    && SameContents(s, r, Some(i)) && r.slots[i].content == content
    && r.nextId == s.nextId + 1 && r.tick == s.tick
  }

  lemma Supersedes(s: System, w: System, i: nat, content: Snapshot)
    requires Inv(s) && Handed(s, w, i, content)
    ensures Settled(s, if s.current.Some? then ReturnToPool(w, s.current.value) else w, i, content)
  {
    hide WellFormed, CountInUse;
    var owners := Owners(s) + multiset{i};
    if s.current.Some? {
      var superseded := s.current.value;
      ReturnBalanced(w, owners, superseded);
      PoolSameContents(w, superseded);
      assert owners - multiset{superseded} == s.holds + multiset{i};
    } else {
      assert owners == s.holds + multiset{i};
    }
  }

  lemma SettledInv(s: System, r: System, i: nat, content: Snapshot, r': System)
    requires Inv(s) && Settled(s, r, i, content) && i !in Owners(s)
    requires content.metadata.state == Finalized && WellFormed(content) && content.metadata.id == s.nextId
    requires forall k :: 0 <= k < |s.log| ==> s.log[k].tick < s.tick
    requires r' == r.(publishedCount := r'.publishedCount, log := s.log + [Publication(s.nextId, s.tick)])
    ensures Inv(r') && Owners(r') == s.holds + multiset{i}
  {
    assert Owners(r') == s.holds + multiset{i};
    forall k | k in Owners(r') ensures Good(r', k) {
      if k != i {
        assert k in s.holds && Good(s, k);
      }
    }
  }

  lemma FinishKeeps(s: System, s2: System, i: nat)
    requires Inv(s) && BuildingOn(s, s2, i)
    requires AscendingEntities(s2.slots[i].content.entities) && AscendingPlayers(s2.slots[i].content.players)
    requires s2.slots[i].content.metadata.id == s.nextId
    requires forall k :: 0 <= k < |s.log| ==> s.log[k].tick < s.tick
    ensures var r := Finish(s2);
      && Inv(r) && Owners(r) == s.holds + multiset{i} && SameContents(s, r, Some(i)) && r.current == Some(i)
      && r.slots[i].content == Sealed(s2.slots[i].content)
      && r.log == s.log + [Publication(s.nextId, s.tick)]
      && r.holds == s.holds && r.tick == s.tick
  {
    hide Balanced, WellFormed, CountInUse, Owners, ReturnToPool;
    var sealed := Sealed(s2.slots[i].content);
    HandsOver(s, s2, i, sealed);
    var w := Write(s2, i, sealed).(building := None, built := s2.built + 1,
                                   current := Some(i), published := s2.published + 1);
    Supersedes(s, w, i, sealed);
    var r := if s.current.Some? then ReturnToPool(w, s.current.value) else w;
    PublishIs(Write(s2, i, sealed).(building := None, built := s2.built + 1), i);
    SettledInv(s, r, i, sealed, Finish(s2));
  }

  lemma PublishIs(s: System, i: nat)
    ensures var w := s.(current := Some(i), published := s.published + 1);
            Publish(s, i) == if s.current.Some? then ReturnToPool(w, s.current.value) else w
  {
  }

  lemma NextTick(s: System)
    requires Inv(s)
    ensures Inv(Next(s)) && Owners(Next(s)) == Owners(s)
  {
    var t := Next(s);
    assert Owners(t) == Owners(s);
    forall i | i in Owners(t) ensures Good(t, i) {
      assert Good(s, i);
    }
  }

  /** What one tick may do to what is held, and to the publication log. */
  ghost predicate TickEffect(s: System, s': System) {
    && s'.holds == s.holds && |s'.slots| == |s.slots|
    // buffers somebody holds are not written
    && (forall k :: 0 <= k < |s.slots| && k in Owners(s) ==> s'.slots[k].content == s.slots[k].content)
    // a skipped tick keeps the publication, a successful one adds to the log
    && ((s'.log == s.log && s'.current == s.current)
        || s'.log == s.log + [Publication(s.nextId, s.tick + 1)])
    && s'.tick == s.tick + 1
  }

  lemma CompleteKeeps(s: System, t: System, s1: System, input: Capture, s': System)
    requires Inv(s) && t == Next(s) && Inv(t) && Owners(t) == Owners(s)
    requires s1.building.Some? && BuildingOn(t, s1, s1.building.value)
    requires s1.slots[s1.building.value].content == Begun(s.nextId, Low64(t.tick), s.config.version)
    requires s' == Complete(s1, input)
    ensures Inv(s') && TickEffect(s, s')
  {
    hide WellFormed, CountInUse, Captured, Good;
    var i := s1.building.value;
    CaptureSucceedsIff(s.nextId, Low64(t.tick), s.config, input);
    var fill := Captured(s1.slots[i].content, s1.config, input);
    WriteBalanced(s1, Owners(t) + multiset{i}, i, fill.content);
    var s2 := Write(s1, i, fill.content);
    assert BuildingOn(t, s2, i);
    if fill.ok {
      FinishKeeps(t, s2, i);
    } else {
      AbortRestores(t, s2, i);
      RestoredInv(t, s', i);
    }
  }

  lemma ContinueKeeps(s: System, input: Capture, s1: System, s': System)
    requires Inv(s) && s1 == BeginBuild(Next(s)) && s' == Continue(s1, input)
    ensures Inv(s') && TickEffect(s, s')
  {
    var t := Next(s);
    NextTick(s);
    BeginBuildTakesFree(t, s1);
    if s1.building.Some? {
      CompleteKeeps(s, t, s1, input, s');
    }
  }

  lemma TickKeeps(s: System, input: Capture)
    requires Inv(s)
    ensures Inv(Tick(s, input)) && TickEffect(s, Tick(s, input))
  {
    var s1 := BeginBuild(Next(s));
    ContinueKeeps(s, input, s1, Continue(s1, input));
  }

  // -------------------------------------------------------------------------- consumers

  lemma ConsumerAcquireKeeps(s: System)
    requires Inv(s)
    ensures Inv(ConsumerAcquire(s)) && SameContents(s, ConsumerAcquire(s), None)
  {
    if s.current.Some? {
      var i := s.current.value;
      var s' := ConsumerAcquire(s);
      AddRefBalanced(s, Owners(s), i);
      PoolSameContents(s, i);
      assert Owners(s') == Owners(s) + multiset{i};
      RecountedInv(s, s');
    }
  }

  /** Only reference counts and holds changed, and they still balance. */
  lemma RecountedInv(s: System, s': System)
    requires Inv(s) && SameContents(s, s', None) && Balanced(s', Owners(s'))
    requires s'.building == None && s'.current == s.current && s'.log == s.log
    requires s'.nextId == s.nextId && s'.tick == s.tick
    requires forall k :: k in Owners(s') ==> k in Owners(s)
    ensures Inv(s')
  {
    hide Balanced, WellFormed;
    forall k | k in Owners(s') ensures Good(s', k) {
      assert Good(s, k);
    }
  }

  lemma ConsumerReleaseKeeps(s: System, i: nat)
    requires Inv(s) && i in s.holds
    ensures Inv(ConsumerRelease(s, i)) && SameContents(s, ConsumerRelease(s, i), None)
  {
    hide WellFormed, ReturnToPool, Balanced;
    var s' := ConsumerRelease(s, i);
    ReturnFrame(s, i);
    ReturnBalanced(s, Owners(s), i);
    PoolSameContents(s, i);
    assert Owners(s') == Owners(s) - multiset{i};
    SameBalanced(ReturnToPool(s, i), s', Owners(s'));
    RecountedInv(s, s');
  }

  /** A release is harmless exactly when it is paired with a hold, or names no buffer in use. */
  lemma ReleaseKeepsInvIff(s: System, i: nat)
    requires Inv(s)
    ensures Inv(ConsumerRelease(s, i)) <==> i in s.holds || i >= |s.slots| || !s.slots[i].inUse
  {
    hide WellFormed, CountInUse, Good, LogOk;
    var s' := ConsumerRelease(s, i);
    if i in s.holds {
      ConsumerReleaseKeeps(s, i);
    } else {
      assert s.holds - multiset{i} == s.holds;
      if i < |s.slots| && s.slots[i].inUse {
        assert Owners(s') == Owners(s);
        assert s'.slots[i].refCount == s.slots[i].refCount - 1;
      } else {
        assert s' == s;
      }
    }
  }

  // --------------------------------------------------------------------------- every run

  /** Consumers only release what they hold. */
  ghost predicate Paired(s: System, events: seq<Event>) {
    forall k :: 0 <= k < |events| && events[k].ReleaseEvent? ==> events[k].slot in Run(s, events[..k]).holds
  }

  lemma StepKeeps(s: System, e: Event)
    requires Inv(s) && (e.ReleaseEvent? ==> e.slot in s.holds)
    ensures Inv(Step(s, e)) && |Step(s, e).slots| == |s.slots|
    ensures forall k :: 0 <= k < |s.slots| && k in Owners(s) ==> Step(s, e).slots[k].content == s.slots[k].content
  {
    match e {
      case TickEvent(input) => TickKeeps(s, input);
      case AcquireEvent => ConsumerAcquireKeeps(s);
      case ReleaseEvent(i) => ConsumerReleaseKeeps(s, i);
    }
  }

  lemma {:induction false} EveryRunKeepsInv(config: Config, capacity: nat, events: seq<Event>)
    requires Paired(Initial(config, capacity), events)
    ensures Inv(Run(Initial(config, capacity), events))
    ensures |Run(Initial(config, capacity), events).slots| == capacity
  {
    var s := Initial(config, capacity);
    if events == [] {
      InitialInv(config, capacity);
    } else {
      var n := |events| - 1;
      forall k | 0 <= k < n && events[..n][k].ReleaseEvent?
        ensures events[..n][k].slot in Run(s, events[..n][..k]).holds
      {
        assert events[..n][..k] == events[..k];
      }
      EveryRunKeepsInv(config, capacity, events[..n]);
      StepKeeps(Run(s, events[..n]), events[n]);
    }
  }

  /** In every run a slot's count is its holders, `inUse` says whether there are any, and the pool counts them. */
  lemma {:induction false} RefCountsCountHolders(config: Config, capacity: nat, events: seq<Event>, i: nat)
    requires Paired(Initial(config, capacity), events) && i < capacity
    ensures var s := Run(Initial(config, capacity), events);
      && |s.slots| == capacity && s.building == None
      && s.slots[i].refCount == s.holds[i] + (if s.current == Some(i) then 1 else 0)
      && (s.slots[i].inUse <==> s.holds[i] > 0 || s.current == Some(i))
      && s.inUse == CountInUse(s.slots)
  {
    EveryRunKeepsInv(config, capacity, events);
  }

  /** One event of a run does not write a buffer that somebody holds. */
  lemma RunStepHeld(config: Config, capacity: nat, events: seq<Event>, n: nat, i: nat)
    requires n < |events| && i < capacity && Paired(Initial(config, capacity), events)
    requires i in Owners(Run(Initial(config, capacity), events[..n]))
    ensures var s := Initial(config, capacity);
      && |Run(s, events[..n]).slots| == |Run(s, events[..n + 1]).slots| == capacity
      && Run(s, events[..n + 1]).slots[i].content == Run(s, events[..n]).slots[i].content
  {
    var s := Initial(config, capacity);
    PairedPrefix(s, events, n);
    EveryRunKeepsInv(config, capacity, events[..n]);
    assert events[..n + 1][..n] == events[..n];
    StepKeeps(Run(s, events[..n]), events[n]);
  }

  /** Somebody holds buffer i in every state from the m-th to the one before the n-th. */
  ghost predicate HeldThrough(s: System, events: seq<Event>, m: nat, n: nat, i: nat)
    requires n <= |events|
  {
    m >= n || (i in Owners(Run(s, events[..n - 1])) && HeldThrough(s, events, m, n - 1, i))
  }

  /** While somebody holds a buffer, through any further events, its contents do not change. */
  lemma {:induction false} HeldNeverChanges(config: Config, capacity: nat, events: seq<Event>, m: nat, n: nat, i: nat)
    requires m <= n <= |events| && i < capacity && Paired(Initial(config, capacity), events)
    requires HeldThrough(Initial(config, capacity), events, m, n, i)
    ensures var s := Initial(config, capacity);
      && |Run(s, events[..m]).slots| == |Run(s, events[..n]).slots| == capacity
      && Run(s, events[..n]).slots[i].content == Run(s, events[..m]).slots[i].content
  {
    if m == n {
      PairedPrefix(Initial(config, capacity), events, n);
      EveryRunKeepsInv(config, capacity, events[..n]);
    } else {
      HeldNeverChanges(config, capacity, events, m, n - 1, i);
      RunStepHeld(config, capacity, events, n - 1, i);
    }
  }

  lemma PairedPrefix(s: System, events: seq<Event>, n: nat)
    requires n <= |events| && Paired(s, events)
    ensures Paired(s, events[..n])
  {
    forall k | 0 <= k < n && events[..n][k].ReleaseEvent?
      ensures events[..n][k].slot in Run(s, events[..n][..k]).holds
    {
      assert events[..n][..k] == events[..k];
    }
  }

  /** Published ids and ticks strictly increase over every run. */
  lemma {:induction false} PublicationsIncrease(config: Config, capacity: nat, events: seq<Event>, i: nat, j: nat)
    requires Paired(Initial(config, capacity), events)
    requires i < j < |Run(Initial(config, capacity), events).log|
    ensures var log := Run(Initial(config, capacity), events).log;
            log[i].id < log[j].id && log[i].tick < log[j].tick
  {
    EveryRunKeepsInv(config, capacity, events);
  }

  // --------------------------------------------------------------------------- progress

  /** The distinct buffers that someone holds. */
  ghost function HeldSlots(s: System): set<nat> {
    set i | i in Owners(s)
  }

  /** Pigeonhole: every slot below n is in the set. */
  lemma {:induction false} FullSet(n: nat, held: set<nat>)
    requires forall i :: 0 <= i < n ==> i in held
    ensures n <= |held|
  {
    if n > 0 {
      FullSet(n - 1, held - {n - 1});
    }
  }

  lemma {:induction false} BoundedSet(n: nat, held: set<nat>)
    requires forall k :: k in held ==> k < n
    ensures |held| <= n
  {
    if n > 0 {
      BoundedSet(n - 1, held - {n - 1});
    } else {
      assert held == {};
    }
  }

  /** Some slot is not in the set. */
  lemma MissesOne(n: nat, held: set<nat>, i: nat)
    requires i < n && i !in held && forall k :: k in held ==> k < n
    ensures |held| < n
  {
    BoundedSet(n, held + {i});
  }

  /** A tick gets a buffer exactly when fewer distinct buffers are held than there are. */
  lemma BuildStarts(s: System)
    requires Inv(s)
    ensures BeginBuild(Next(s)).building.Some? <==> |HeldSlots(s)| < |s.slots|
  {
    var t := Next(s);
    NextTick(s);
    var s1 := BeginBuild(t);
    BeginBuildTakesFree(t, s1);
    if s1.building.None? {
      FullSet(|s.slots|, HeldSlots(s));
    } else {
      MissesOne(|s.slots|, HeldSlots(s), s1.building.value);
    }
  }

  /** With no consumer reference outstanding, two buffers are enough; and one can be too few. */
  lemma TwoBuffersSuffice(s: System)
    requires Inv(s) && s.holds == multiset{} && |s.slots| >= 2
    ensures BeginBuild(Next(s)).building.Some?
  {
    assert HeldSlots(s) <= if s.current.Some? then {s.current.value} else {};
    SubsetSize(HeldSlots(s), if s.current.Some? then {s.current.value} else {});
    BuildStarts(s);
  }

  lemma SubsetSize(a: set<nat>, b: set<nat>)
    requires a <= b
    ensures |a| <= |b|
  {
    assert b == a + (b - a);
  }

  /** With a single buffer, every tick after the first publication is skipped. */
  lemma OneBufferStalls(s: System)
    requires Inv(s) && |s.slots| == 1 && s.current.Some?
    ensures BeginBuild(Next(s)).building.None?
  {
    NextTick(s);
    var t := Next(s);
    BeginBuildTakesFree(t, BeginBuild(t));
    assert s.current.value in Owners(s);
  }

  // ---------------------------------------------------------------------- where it fails

  const NOTHING := Capture([], [], None)

  /** A tick that captures nothing, on a pool whose first buffer is free, publishes that buffer. */
  lemma FirstPublication(s: System)
    requires s.building == None && s.current == None && |s.slots| > 0 && !s.slots[0].inUse
    ensures var t := Tick(s, NOTHING);
      && t.current == Some(0) && t.building == None && t.holds == s.holds && |t.slots| == |s.slots|
      && t.slots[0].inUse && t.slots[0].refCount == 1
  {
    var s1 := BeginBuild(Next(s));
    assert s1 == Take(Next(s), 0);
    var c := Begun(s.nextId, Low64(s.tick + 1), s.config.version);
    assert s1.slots[0].content == c;
    CaptureSucceedsIff(s.nextId, Low64(s.tick + 1), s.config, NOTHING);
    assert Kept(NOTHING.players) == [];
    var s2 := Write(s1, 0, Captured(c, s1.config, NOTHING).content);
    assert Tick(s, NOTHING) == Finish(s2);
  }

  /**
   * One publication, then a release by somebody who holds nothing: the published buffer is free while it
   * is still current, and the next build is written into it.
   */
  lemma UnpairedReleaseFreesCurrent(config: Config)
    ensures var s := Run(Initial(config, 2), [TickEvent(NOTHING), ReleaseEvent(0)]);
      && s.current == Some(0) && |s.slots| == 2 && !s.slots[0].inUse && !Inv(s)
      && BeginBuild(Next(s)).building == s.current
  {
    var s0 := Initial(config, 2);
    var e0, e1 := TickEvent(NOTHING), ReleaseEvent(0);
    RunTwo(s0, e0, e1);
    InitialInv(config, 2);
    TickKeeps(s0, NOTHING);
    FirstPublication(s0);
    ReleaseKeepsInvIff(Tick(s0, NOTHING), 0);
  }

  lemma {:induction false} RunTwo(s: System, e0: Event, e1: Event)
    ensures Run(s, [e0, e1]) == Step(Step(s, e0), e1)
  {
    assert [e0][..0] == [] && [e0, e1][..1] == [e0];
    assert Run(s, []) == s;
    assert Run(s, [e0]) == Step(s, e0);
  }
}
