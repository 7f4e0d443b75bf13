/** Every run of the player manager: records, accounting, and when the mappings are one to one. */
module PlayerTheorems {
  import opened Prelude
  import opened Sorted
  import opened PlayerModel

  /** No two records share a live key; zero is no key. */
  ghost predicate DistinctLive(keys: seq<nat>) {
    forall i, j :: 0 <= i < j < |keys| && keys[i] != 0 ==> keys[i] != keys[j]
  }

  ghost predicate Sound(p: Players) {
    && Ascending(Ids(p.records)) && p.nextId >= 1
    && (forall i :: 0 <= i < |p.records| ==> 1 <= p.records[i].id < p.nextId)
    && |p.records| <= p.config.capacity
    && DistinctLive(Connections(p.records))
    && (forall i :: 0 <= i < |p.records| && p.records[i].connection != 0 ==>
          p.records[i].sessionMember == p.records[i].connection && p.records[i].lifecycle != Suspended)
    && p.spawns == p.despawns + |p.records|
  }

  // ------------------------------------------------------------------------ UpdateRecord

  /** A record goes between the smaller and the larger ids. */
  lemma {:induction false} PlacedBetween(below: seq<PlayerRecord>, above: seq<PlayerRecord>, r: PlayerRecord)
    requires forall i :: 0 <= i < |below| ==> below[i].id < r.id
    requires forall i :: 0 <= i < |above| ==> r.id < above[i].id
    ensures Placed(below + above, r) == below + [r] + above
  {
    if above == [] {
      assert below + above == below && below + [r] + above == below + [r];
    } else {
      var init, last := above[..|above| - 1], above[|above| - 1];
      assert above == init + [last];
      Prelude.Joined(below, init, [last]);
      Prelude.Joined(below + [r], init, [last]);
      PlacedBetween(below, init, r);
      PlacedBefore(below + init, last, r);
    }
  }

  lemma {:induction false} PlacedBefore(records: seq<PlayerRecord>, last: PlayerRecord, r: PlayerRecord)
    requires r.id < last.id
    ensures Placed(records + [last], r) == Placed(records, r) + [last]
  {
    SnocSplit(records, last);
  }

  lemma {:induction false} PlacedBack(records: seq<PlayerRecord>, i: nat, r: PlayerRecord)
    requires Ascending(Ids(records)) && i < |records| && records[i].id == r.id
    ensures Placed(records[..i] + records[i + 1..], r) == records[i := r]
  {
    var below, above := records[..i], records[i + 1..];
    forall k | 0 <= k < |records| && k != i ensures if k < i then records[k].id < r.id else r.id < records[k].id {
      assert Ids(records)[k] == records[k].id && Ids(records)[i] == r.id;
    }
    PlacedBetween(below, above, r);
    assert below + [r] + above == records[i := r];
  }

  /** Without a record its id is gone. */
  lemma WithoutIts(records: seq<PlayerRecord>, i: nat)
    requires Ascending(Ids(records)) && i < |records|
    ensures records[i].id !in Ids(records[..i] + records[i + 1..])
  {
    var rest := records[..i] + records[i + 1..];
    forall j | 0 <= j < |rest| ensures Ids(rest)[j] != records[i].id {
      var k := if j < i then j else j + 1;
      assert rest[j] == records[k];
      assert Ids(records)[k] != Ids(records)[i];
    }
  }

  /** Retire then Insert always succeeds, and replaces the record in place. */
  lemma UpdateReplaces(p: Players, i: nat, r: PlayerRecord)
    requires Sound(p) && i < |p.records| && p.records[i].id == r.id
    ensures UpdateRecord(p, r) == p.(records := p.records[i := r])
  {
    var ids := Ids(p.records);
    var k := LastIndex(ids, r.id).value;
    assert ids[i] == r.id && ids[k] == r.id;
    var rest := Retire(p.records, r.id);
    assert rest == p.records[..i] + p.records[i + 1..];
    WithoutIts(p.records, i);
    PlacedBack(p.records, i, r);
  }

  /** The accepted death, by name. */
  lemma DeathSteps(p: Players, i: nat, tick: nat)
    requires i < |p.records| && LastIndex(Ids(p.records), p.records[i].id) == Some(i)
    requires p.records[i].lifecycle == Active
    ensures NotifyDeath(p, p.records[i].id, tick)
         == Joined(CountDeath(UpdateRecord(p, Death(p.records[i], tick + p.config.respawnDelayTicks))), Accepted)
  {
  }

  /**
   * A death of a player on record is accepted exactly when it is active. It then changes that record alone:
   * dead until the respawn tick, with the same identity, keys and entity. Otherwise nothing changes.
   */
  lemma DeathMarks(p: Players, i: nat, tick: nat)
    requires Sound(p) && i < |p.records|
    ensures var r := p.records[i];
      var d := NotifyDeath(p, r.id, tick);
      && (d.outcome == Accepted <==> r.lifecycle == Active)
      && (d.outcome != Accepted ==> d.players == p)
      && (d.outcome == Accepted ==>
            && |d.players.records| == |p.records| && d.players.deaths == p.deaths + 1
            && d.players.records[i].lifecycle == Dead
            && d.players.records[i].respawnEligibleTick == tick + p.config.respawnDelayTicks
            && d.players.records[i].id == r.id && d.players.records[i].entity == r.entity
            && d.players.records[i].connection == r.connection
            && d.players.records[i].sessionMember == r.sessionMember
            && (forall j :: 0 <= j < |p.records| && j != i ==> d.players.records[j] == p.records[j])
            && d.players == p.(deaths := p.deaths + 1, records := p.records[i :=
                 r.(lifecycle := Dead, respawnEligibleTick := tick + p.config.respawnDelayTicks)]))
  {
    var r := p.records[i];
    assert Ids(p.records)[i] == r.id;
    assert LastIndex(Ids(p.records), r.id) == Some(i);
    if r.lifecycle == Active {
      var dead := Death(r, tick + p.config.respawnDelayTicks);
      DeathSteps(p, i, tick);
      UpdateReplaces(p, i, dead);
      assert NotifyDeath(p, r.id, tick) == Joined(CountDeath(p.(records := p.records[i := dead])), Accepted);
    }
  }

  // ---------------------------------------------------------------------- what a step keeps

  /** The same players with the same entities and session keys, perhaps one more at the end. */
  ghost predicate KeepsPlayers(p: Players, p': Players) {
    && |p.records| <= |p'.records| && p'.config == p.config
    && forall i :: 0 <= i < |p.records| ==>
         && p'.records[i].id == p.records[i].id && p'.records[i].entity == p.records[i].entity
         && p'.records[i].sessionMember == p.records[i].sessionMember
  }

  lemma ReplaceKeeps(p: Players, i: nat, r: PlayerRecord, p': Players)
    requires Sound(p) && i < |p.records| && r.id == p.records[i].id && r.entity == p.records[i].entity
    requires r.sessionMember == p.records[i].sessionMember
    requires r.connection == 0 || (r.connection == p.records[i].connection && r.lifecycle != Suspended)
    requires p'.records == p.records[i := r] && p'.config == p.config && p'.nextId == p.nextId
    requires p'.spawns == p.spawns && p'.despawns == p.despawns
    ensures Sound(p') && KeepsPlayers(p, p') && |p'.records| == |p.records|
  {
    assert Ids(p'.records) == Ids(p.records);
    assert Connections(p'.records) == Connections(p.records)[i := r.connection];
  }

  lemma AppendKeeps(p: Players, r: PlayerRecord)
    requires Sound(p) && |p.records| < p.config.capacity && r.id == p.nextId
    requires r.connection !in Connections(p.records) && r.connection != 0
    requires r.sessionMember == r.connection && r.lifecycle == Active
    ensures Insert(p.records, r, p.config.capacity) == Some(p.records + [r])
    ensures Sound(p.(records := p.records + [r], nextId := p.nextId + 1, spawns := p.spawns + 1))
  {
    assert r.id !in Ids(p.records);
    assert Ids(p.records + [r]) == Ids(p.records) + [r.id];
    assert Connections(p.records + [r]) == Connections(p.records) + [r.connection];
    AscendingSnoc(Ids(p.records), r.id);
  }

  lemma JoinKeeps(p: Players, connection: nat, spawn: Option<nat>, tick: nat)
    requires Sound(p)
    ensures var j := RequestJoin(p, connection, spawn, tick);
      && Sound(j.players) && KeepsPlayers(p, j.players)
      && (j.outcome == Accepted ==>
            spawn.Some? && j.players.records == p.records + [NewRecord(p.nextId, connection, spawn.value, tick)])
      && (j.outcome != Accepted ==> j.players.records == p.records)
  {
    if connection != 0 && LastIndex(Connections(p.records), connection).None? && |p.records| < p.config.maxPlayers
       && spawn.Some? && |p.records| < p.config.capacity {
      AppendKeeps(p, NewRecord(p.nextId, connection, spawn.value, tick));
    }
  }

  lemma LeaveKeeps(p: Players, connection: nat, token: nat)
    requires Sound(p)
    ensures var p' := SuspendOnLeave(p, connection, token);
      Sound(p') && KeepsPlayers(p, p') && |p'.records| == |p.records|
  {
    if connection != 0 && LastIndex(Connections(p.records), connection).Some? {
      var i := LastIndex(Connections(p.records), connection).value;
      var r := p.records[i];
      if ApplySuspend(r.lifecycle).Some? {
        UpdateReplaces(p, i, Suspension(r, token));
        ReplaceKeeps(p, i, Suspension(r, token), SuspendOnLeave(p, connection, token));
      }
    }
  }

  lemma DeathKeeps(p: Players, id: nat, tick: nat)
    requires Sound(p)
    ensures var p' := NotifyDeath(p, id, tick).players;
      Sound(p') && KeepsPlayers(p, p') && |p'.records| == |p.records|
  {
    if LastIndex(Ids(p.records), id).Some? {
      var i := LastIndex(Ids(p.records), id).value;
      var r := p.records[i];
      if ApplyDeath(r.lifecycle).Some? {
        var r1 := Death(r, tick + p.config.respawnDelayTicks);
        UpdateReplaces(p, i, r1);
        ReplaceKeeps(p, i, r1, NotifyDeath(p, id, tick).players);
      }
    }
  }

  lemma RespawnKeeps(p: Players, id: nat, tick: nat)
    requires Sound(p)
    ensures var p' := RequestRespawn(p, id, tick).players;
      Sound(p') && KeepsPlayers(p, p') && |p'.records| == |p.records|
  {
    if LastIndex(Ids(p.records), id).Some? {
      var i := LastIndex(Ids(p.records), id).value;
      var r := p.records[i];
      if ApplyRespawn(r, tick, p.config.respawnDelayTicks) == Some(Active) {
        var r1 := Revival(r, tick);
        UpdateReplaces(p, i, r1);
        ReplaceKeeps(p, i, r1, RequestRespawn(p, id, tick).players);
      }
    }
  }

  lemma StepKeeps(p: Players, e: Event)
    requires Sound(p)
    ensures Sound(Step(p, e)) && KeepsPlayers(p, Step(p, e))
    ensures !e.JoinEvent? ==> |Step(p, e).records| == |p.records|
  {
    match e {
      case JoinEvent(connection, spawn, tick) => JoinKeeps(p, connection, spawn, tick);
      case LeaveEvent(connection, token) => LeaveKeeps(p, connection, token);
      case DeathEvent(id, tick) => DeathKeeps(p, id, tick);
      case RespawnEvent(id, tick) => RespawnKeeps(p, id, tick);
    }
  }

  // --------------------------------------------------------------------------- every run

  /** In every run the store is sound; in particular spawns less rollbacks are the records. */
  lemma {:induction false} EveryRunSound(config: Config, events: seq<Event>)
    ensures Sound(Run(config, events))
  {
    if events != [] {
      EveryRunSound(config, events[..|events| - 1]);
      StepKeeps(Run(config, events[..|events| - 1]), events[|events| - 1]);
    }
  }

  lemma KeepsThrough(a: Players, b: Players, c: Players)
    requires KeepsPlayers(a, b) && KeepsPlayers(b, c)
    ensures KeepsPlayers(a, c)
  {
  }

  lemma {:induction false} LastEventKeeps(config: Config, events: seq<Event>)
    requires events != []
    ensures KeepsPlayers(Run(config, events[..|events| - 1]), Run(config, events))
  {
    EveryRunSound(config, events[..|events| - 1]);
    StepKeeps(Run(config, events[..|events| - 1]), events[|events| - 1]);
  }

  /** No accepted player is ever lost, and its entity never changes. */
  lemma {:induction false} NobodyIsLost(config: Config, events: seq<Event>, n: nat)
    requires n <= |events|
    ensures KeepsPlayers(Run(config, events[..n]), Run(config, events))
  {
    if n < |events| {
      var before := events[..|events| - 1];
      var p, q, r := Run(config, events[..n]), Run(config, before), Run(config, events);
      assert before[..n] == events[..n];
      NobodyIsLost(config, before, n);
      LastEventKeeps(config, events);
      KeepsThrough(p, q, r);
    } else {
      assert events[..n] == events;
    }
  }

  // ---------------------------------------------------------------------------- capacity

  ghost predicate IsAcceptedJoin(p: Players, e: Event) {
    e.JoinEvent? && RequestJoin(p, e.connection, e.spawn, e.tick).outcome == Accepted
  }

  /** How many joins a run accepted. */
  ghost function AcceptedJoins(config: Config, events: seq<Event>): nat {
    if events == [] then 0
    else
      var n := |events| - 1;
      AcceptedJoins(config, events[..n]) + if IsAcceptedJoin(Run(config, events[..n]), events[n]) then 1 else 0
  }

  /** A record for every join that was ever accepted: leaves and deaths free nothing. */
  lemma {:induction false} RecordsAreJoins(config: Config, events: seq<Event>)
    ensures |Run(config, events).records| == AcceptedJoins(config, events) && Run(config, events).config == config
  {
    if events != [] {
      var n := |events| - 1;
      var p := Run(config, events[..n]);
      RecordsAreJoins(config, events[..n]);
      EveryRunSound(config, events[..n]);
      StepKeeps(p, events[n]);
      if events[n].JoinEvent? {
        JoinKeeps(p, events[n].connection, events[n].spawn, events[n].tick);
      }
    }
  }

  lemma {:induction false} LiveIff(keys: seq<nat>, k: nat)
    ensures LastIndex(keys, k).Some? <==> k in keys
  {
  }

  /**
   * After any run a join is accepted exactly if its connection is real and not live, its entity was spawned,
   * and the joins accepted so far, of players still here or long gone, are fewer than both limits.
   */
  lemma {:induction false} JoinAcceptedIff(config: Config, events: seq<Event>,
                                           connection: nat, spawn: Option<nat>, tick: nat)
    ensures var p := Run(config, events);
      RequestJoin(p, connection, spawn, tick).outcome == Accepted <==>
        && connection != 0 && connection !in Connections(p.records) && spawn.Some?
        && AcceptedJoins(config, events) < config.maxPlayers && AcceptedJoins(config, events) < config.capacity
  {
    var p := Run(config, events);
    EveryRunSound(config, events);
    RecordsAreJoins(config, events);
    LiveIff(Connections(p.records), connection);
    if |p.records| < config.capacity {
      NextIdIsNew(p);
    }
  }

  lemma NextIdIsNew(p: Players)
    requires Sound(p)
    ensures p.nextId != 0 && p.nextId !in Ids(p.records)
  {
  }

  /** Once as many joins were accepted as there may be players, no join is accepted in any continuation. */
  lemma {:induction false} FullStaysFull(config: Config, events: seq<Event>, n: nat,
                                         connection: nat, spawn: Option<nat>, tick: nat)
    requires n <= |events| && |Run(config, events[..n]).records| >= config.maxPlayers
    ensures RequestJoin(Run(config, events), connection, spawn, tick).outcome != Accepted
  {
    NobodyIsLost(config, events, n);
    RecordsAreJoins(config, events);
    JoinAcceptedIff(config, events, connection, spawn, tick);
  }

  // --------------------------------------------------------------------------- bijections

  /** Connections, session members and entities each belong to at most one player. */
  ghost predicate Bijective(records: seq<PlayerRecord>) {
    DistinctLive(Connections(records)) && DistinctLive(SessionMembers(records)) && DistinctLive(Entities(records))
  }

  lemma DistinctSnoc(keys: seq<nat>, k: nat)
    ensures DistinctLive(keys + [k]) <==> DistinctLive(keys) && (k == 0 || k !in keys)
  {
    var r := keys + [k];
    if DistinctLive(r) {
      forall i, j | 0 <= i < j < |keys| && keys[i] != 0 ensures keys[i] != keys[j] {
        assert r[i] != r[j];
      }
    }
    if k != 0 && k in keys {
      var i :| 0 <= i < |keys| && keys[i] == k;
      assert r[i] == r[|keys|];
    }
  }

  /**
   * An accepted join keeps the mappings one to one exactly when the connection id is not the session key
   * of a player still on record and the entity is none or nobody's.
   */
  lemma JoinKeepsBijectiveIff(p: Players, connection: nat, spawn: Option<nat>, tick: nat)
    requires Sound(p) && Bijective(p.records) && RequestJoin(p, connection, spawn, tick).outcome == Accepted
    ensures spawn.Some?
    ensures Bijective(RequestJoin(p, connection, spawn, tick).players.records) <==>
      connection !in SessionMembers(p.records) && (spawn.value == 0 || spawn.value !in Entities(p.records))
  {
    JoinKeeps(p, connection, spawn, tick);
    var r := NewRecord(p.nextId, connection, spawn.value, tick);
    assert Connections(p.records + [r]) == Connections(p.records) + [connection];
    assert SessionMembers(p.records + [r]) == SessionMembers(p.records) + [connection];
    assert Entities(p.records + [r]) == Entities(p.records) + [spawn.value];
    DistinctSnoc(Connections(p.records), connection);
    DistinctSnoc(SessionMembers(p.records), connection);
    DistinctSnoc(Entities(p.records), spawn.value);
  }

  /** If the event is a join that is accepted, its connection is nobody's session key and its entity nobody's. */
  ghost predicate FreshJoin(p: Players, e: Event) {
    e.JoinEvent? && RequestJoin(p, e.connection, e.spawn, e.tick).outcome == Accepted ==>
      && e.spawn.Some? && e.connection !in SessionMembers(p.records)
      && (e.spawn.value == 0 || e.spawn.value !in Entities(p.records))
  }

  /** An event that is no accepted join leaves session members and entities alone. */
  lemma OthersKeepKeys(p: Players, p': Players)
    requires KeepsPlayers(p, p') && |p'.records| == |p.records|
    ensures SessionMembers(p'.records) == SessionMembers(p.records)
    ensures Entities(p'.records) == Entities(p.records)
  {
  }

  lemma {:induction false} DistinctPart(keys: seq<nat>, more: seq<nat>)
    requires DistinctLive(more) && |keys| <= |more| && forall i :: 0 <= i < |keys| ==> more[i] == keys[i]
    ensures DistinctLive(keys)
  {
  }

  /** Players never go, so what two of them share they go on sharing. */
  lemma StaysBroken(p: Players, p': Players)
    requires Sound(p) && KeepsPlayers(p, p') && Bijective(p'.records)
    ensures Bijective(p.records)
  {
    DistinctPart(SessionMembers(p.records), SessionMembers(p'.records));
    DistinctPart(Entities(p.records), Entities(p'.records));
  }

  /** One event: one to one afterwards exactly if it was before and the event was no stale join. */
  lemma StepBijectiveIff(p: Players, e: Event)
    requires Sound(p)
    ensures Bijective(Step(p, e).records) <==> Bijective(p.records) && FreshJoin(p, e)
  {
    StepKeeps(p, e);
    if Bijective(Step(p, e).records) {
      StaysBroken(p, Step(p, e));
    }
    if Bijective(p.records) {
      if e.JoinEvent? {
        JoinKeeps(p, e.connection, e.spawn, e.tick);
        if RequestJoin(p, e.connection, e.spawn, e.tick).outcome == Accepted {
          JoinKeepsBijectiveIff(p, e.connection, e.spawn, e.tick);
        }
      } else {
        OthersKeepKeys(p, Step(p, e));
      }
    }
  }

  /** Every accepted join of the run was fresh when it came. */
  ghost predicate AllFresh(config: Config, events: seq<Event>) {
    events == []
    || (AllFresh(config, events[..|events| - 1])
        && FreshJoin(Run(config, events[..|events| - 1]), events[|events| - 1]))
  }

  /** Over every run the mappings are one to one exactly if every accepted join of the run was fresh. */
  lemma {:induction false} BijectiveIffFresh(config: Config, events: seq<Event>)
    ensures Bijective(Run(config, events).records) <==> AllFresh(config, events)
  {
    if events != [] {
      var n := |events| - 1;
      BijectiveIffFresh(config, events[..n]);
      EveryRunSound(config, events[..n]);
      StepBijectiveIff(Run(config, events[..n]), events[n]);
    }
  }

  // ------------------------------------------------------------------------ where it fails

  /** A join that has room, to the record it stores. */
  lemma JoinStores(p: Players, connection: nat, entity: nat, tick: nat)
    requires Sound(p) && connection != 0 && connection !in Connections(p.records)
    requires |p.records| < p.config.maxPlayers && |p.records| < p.config.capacity
    ensures var p' := RequestJoin(p, connection, Some(entity), tick).players;
      && p'.records == p.records + [NewRecord(p.nextId, connection, entity, tick)]
      && p'.nextId == p.nextId + 1 && p'.config == p.config
  {
    var r := NewRecord(p.nextId, connection, entity, tick);
    assert forall i :: 0 <= i < |p.records| ==> Ids(p.records)[i] == p.records[i].id < r.id;
    assert Insert(p.records, r, p.config.capacity) == Some(p.records + [r]);
  }

  /** The only player leaves. */
  lemma LeaveSuspends(p: Players, r: PlayerRecord, token: nat)
    requires Sound(p) && p.records == [r] && r.connection != 0 && r.lifecycle == Active
    ensures SuspendOnLeave(p, r.connection, token) == p.(records := [Suspension(r, token)])
  {
    assert Connections(p.records)[0] == r.connection;
    assert LastIndex(Connections(p.records), r.connection) == Some(0);
    UpdateReplaces(p, 0, Suspension(r, token));
  }

  /** The first player of a fresh manager joins on connection 5 and leaves. */
  lemma JoinedAndLeft(c: Config, e0: Event, e1: Event) returns (p: Players)
    requires c.capacity > 0 && c.maxPlayers > 0 && e0 == JoinEvent(5, Some(100), 1) && e1 == LeaveEvent(5, 0)
    ensures p == Step(Step(Initial(c), e0), e1) && Sound(p)
    ensures p.config == c && p.nextId == 2 && p.records == [Suspension(NewRecord(1, 5, 100, 1), 0)]
  {
    JoinStores(Initial(c), 5, 100, 1);
    var p0 := Step(Initial(c), e0);
    assert p0.records == [NewRecord(1, 5, 100, 1)];
    StepKeeps(Initial(c), e0);
    LeaveSuspends(p0, p0.records[0], 0);
    StepKeeps(p0, e1);
    p := Step(p0, e1);
  }

  /**
   * A player joins on connection 5 and leaves; another joins on 5. The record that was suspended still has
   * 5 for its session key, so the key now belongs to two players.
   */
  lemma ReusedConnectionBreaksBijection(delay: nat)
    ensures var events := [JoinEvent(5, Some(100), 1), LeaveEvent(5, 0), JoinEvent(5, Some(101), 2)];
      var p := Run(Config(2, 2, delay), events);
      && |p.records| == 2 && p.records[0].sessionMember == 5 && p.records[1].sessionMember == 5
      && !Bijective(p.records)
  {
    var c := Config(2, 2, delay);
    var e0, e1, e2 := JoinEvent(5, Some(100), 1), LeaveEvent(5, 0), JoinEvent(5, Some(101), 2);
    RunThree(c, e0, e1, e2);
    var p1 := JoinedAndLeft(c, e0, e1);
    JoinStores(p1, 5, 101, 2);
    SharedKey(Step(p1, e2).records, 5);
  }

  /** Room for one: a player joins and leaves, and nobody, the same player included, can join any more. */
  lemma LeaverKeepsSlot(delay: nat, connection: nat, spawn: Option<nat>, tick: nat)
    ensures var events := [JoinEvent(5, Some(100), 1), LeaveEvent(5, 0)];
      var p := Run(Config(1, 1, delay), events);
      Connections(p.records) == [0] && RequestJoin(p, connection, spawn, tick).outcome != Accepted
  {
    var c, e0, e1 := Config(1, 1, delay), JoinEvent(5, Some(100), 1), LeaveEvent(5, 0);
    RunTwo(c, e0, e1);
    var p1 := JoinedAndLeft(c, e0, e1);
    assert Connections(p1.records) == [0];
    RecordsAreJoins(c, [e0, e1]);
    JoinAcceptedIff(c, [e0, e1], connection, spawn, tick);
  }

  lemma SharedKey(records: seq<PlayerRecord>, key: nat)
    requires |records| == 2 && key != 0 && records[0].sessionMember == records[1].sessionMember == key
    ensures !Bijective(records)
  {
    assert SessionMembers(records)[0] == SessionMembers(records)[1];
  }

  lemma {:induction false} RunSnoc(c: Config, events: seq<Event>, e: Event)
    ensures Run(c, events + [e]) == Step(Run(c, events), e)
  {
    SnocSplit(events, e);
  }

  lemma {:induction false} RunTwo(c: Config, e0: Event, e1: Event)
    ensures Run(c, [e0, e1]) == Step(Step(Initial(c), e0), e1)
  {
    RunSnoc(c, [], e0);
    RunSnoc(c, [e0], e1);
    assert [] + [e0] == [e0] && [e0] + [e1] == [e0, e1];
  }

  lemma {:induction false} RunThree(c: Config, e0: Event, e1: Event, e2: Event)
    ensures Run(c, [e0, e1, e2]) == Step(Step(Step(Initial(c), e0), e1), e2)
  {
    RunTwo(c, e0, e1);
    RunSnoc(c, [e0, e1], e2);
    assert [e0, e1] + [e2] == [e0, e1, e2];
  }
}
