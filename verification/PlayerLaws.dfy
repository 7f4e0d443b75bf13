/** What each operation of the player manager answers and changes, and the respawn timer over runs. */
module PlayerLaws {
  import opened Prelude
  import opened Sorted
  import opened PlayerModel
  import opened PlayerTheorems

  /** A player on record is found by its id. */
  lemma Found(p: Players, i: nat)
    requires Sound(p) && i < |p.records|
    ensures LastIndex(Ids(p.records), p.records[i].id) == Some(i)
  {
    assert Ids(p.records)[i] == p.records[i].id;
  }

  lemma FoundLive(p: Players, i: nat)
    requires Sound(p) && i < |p.records| && p.records[i].connection != 0
    ensures LastIndex(Connections(p.records), p.records[i].connection) == Some(i)
  {
    assert Connections(p.records)[i] == p.records[i].connection;
  }

  // ------------------------------------------------------------------------------- respawn

  /** From which tick on a respawn asked for at this tick would be granted. */
  function DueTick(r: PlayerRecord, tick: nat, delay: nat): nat {
    if r.respawnEligibleTick == 0 then tick + delay else r.respawnEligibleTick
  }

  predicate WaitsForRespawn(r: PlayerRecord) { r.lifecycle in {Dead, AwaitingRespawn} }

  lemma RespawnSteps(p: Players, i: nat, tick: nat)
    requires i < |p.records| && LastIndex(Ids(p.records), p.records[i].id) == Some(i)
    requires ApplyRespawn(p.records[i], tick, p.config.respawnDelayTicks) == Some(Active)
    ensures RequestRespawn(p, p.records[i].id, tick)
         == Respawned(CountRespawn(UpdateRecord(p, Revival(p.records[i], tick))), Spawned)
  {
  }

  /**
   * A respawn of a player on record is granted exactly when the player waits for one and its tick has come. It
   * then changes that record alone: active, repositioned, its schedule cleared. Otherwise nothing changes.
   */
  lemma RespawnMarks(p: Players, i: nat, tick: nat)
    requires Sound(p) && i < |p.records|
    ensures var r := p.records[i];
      var d := RequestRespawn(p, r.id, tick);
      && (d.outcome == Spawned <==>
            WaitsForRespawn(r) && tick >= DueTick(r, tick, p.config.respawnDelayTicks))
      && (d.outcome != Spawned ==> d.players == p)
      && (d.outcome == Spawned ==> d.players == p.(respawns := p.respawns + 1, records := p.records[i :=
            r.(lifecycle := Active, lastPosition := PlayerPosition(r.id, tick), respawnEligibleTick := 0)]))
  {
    var r := p.records[i];
    Found(p, i);
    if ApplyRespawn(r, tick, p.config.respawnDelayTicks) == Some(Active) {
      RespawnSteps(p, i, tick);
      UpdateReplaces(p, i, Revival(r, tick));
    }
  }

  /** Nobody on record has the id: deaths and respawns are refused and change nothing. */
  lemma StrangersAreRefused(p: Players, id: nat, tick: nat)
    requires id !in Ids(p.records)
    ensures RequestRespawn(p, id, tick) == Respawned(p, RespawnRejected)
    ensures NotifyDeath(p, id, tick) == PlayerModel.Joined(p, RejectedInvalid)
  {
  }

  // --------------------------------------------------------------------------- join, leave

  /** Which joins are refused, for which reason, and what an accepted one puts on record. */
  lemma JoinMarks(p: Players, connection: nat, spawn: Option<nat>, tick: nat)
    requires Sound(p)
    ensures var j := RequestJoin(p, connection, spawn, tick);
      var room, full := |p.records| < p.config.maxPlayers, |p.records| >= p.config.capacity;
      var stranger := connection != 0 && connection !in Connections(p.records);
      && (j.outcome == RejectedInvalid <==> connection == 0)
      && (j.outcome == RejectedDuplicate <==> connection != 0 && connection in Connections(p.records))
      && (j.outcome == RejectedCapacity <==> stranger && (!room || (spawn.Some? && full)))
      && (j.outcome == RejectedSpawnFailed <==> stranger && room && spawn.None?)
      && (j.outcome in {RejectedInvalid, RejectedDuplicate} || !room ==> j.players == p)
      && (j.outcome == RejectedSpawnFailed ==> j.players == p.(nextId := p.nextId + 1))
      && (j.outcome == RejectedCapacity && room ==>
            j.players == p.(nextId := p.nextId + 1, spawns := p.spawns + 1, despawns := p.despawns + 1))
      && (j.outcome == Accepted ==>
            && spawn.Some?
            && j.players == p.(nextId := p.nextId + 1, spawns := p.spawns + 1, lastJoinTick := tick,
                               records := p.records + [PlayerRecord(p.nextId, connection, connection, spawn.value,
                                 Active, Connected, PlayerPosition(p.nextId, tick), tick, 0, 0)]))
  {
    LiveIff(Connections(p.records), connection);
    NextIdIsNew(p);
    if connection != 0 && connection !in Connections(p.records) && |p.records| < p.config.maxPlayers && spawn.Some?
       && |p.records| < p.config.capacity {
      JoinKeeps(p, connection, spawn, tick);
    }
  }

  /**
   * A leave suspends the player who has that connection, if there is one: it keeps its entity and its session
   * key and gives up the connection for the token. Any other leave changes nothing.
   */
  lemma LeaveMarks(p: Players, connection: nat, token: nat)
    requires Sound(p)
    ensures connection == 0 || connection !in Connections(p.records) ==> SuspendOnLeave(p, connection, token) == p
    ensures forall i :: 0 <= i < |p.records| && p.records[i].connection == connection != 0 ==>
      SuspendOnLeave(p, connection, token) ==
        if p.records[i].lifecycle !in {Active, Dead, AwaitingRespawn} then p
        else p.(records := p.records[i := p.records[i].(lifecycle := Suspended, connection := 0,
                  connectionState := ConnectionSuspended, reconnectToken := token)])
  {
    LiveIff(Connections(p.records), connection);
    forall i | 0 <= i < |p.records| && p.records[i].connection == connection != 0
      ensures SuspendOnLeave(p, connection, token) ==
        if p.records[i].lifecycle !in {Active, Dead, AwaitingRespawn} then p
        else p.(records := p.records[i := p.records[i].(lifecycle := Suspended, connection := 0,
                  connectionState := ConnectionSuspended, reconnectToken := token)])
    {
      FoundLive(p, i);
      UpdateReplaces(p, i, Suspension(p.records[i], token));
    }
  }

  // ------------------------------------------------------------------------------- runs

  /** The event is about this player: by its id, or by the connection it has. */
  predicate Concerns(e: Event, r: PlayerRecord) {
    match e
    case JoinEvent(_, _, _) => false
    case LeaveEvent(connection, _) => connection == r.connection
    case DeathEvent(id, _) => id == r.id
    case RespawnEvent(id, _) => id == r.id
  }

  /** An event that does not concern a player leaves its record as it is. */
  lemma OthersKeepRecord(p: Players, e: Event, i: nat)
    requires Sound(p) && i < |p.records| && !Concerns(e, p.records[i])
    ensures |Step(p, e).records| > i && Step(p, e).records[i] == p.records[i]
  {
    match e {
      case JoinEvent(connection, spawn, tick) => JoinKeeps(p, connection, spawn, tick);
      case LeaveEvent(connection, token) =>
        LeaveMarks(p, connection, token);
        if connection != 0 && connection in Connections(p.records) {
          var k :| 0 <= k < |p.records| && Connections(p.records)[k] == connection;
          assert p.records[k].connection == connection;
        }
      case DeathEvent(id, tick) =>
        if id in Ids(p.records) {
          var k :| 0 <= k < |p.records| && Ids(p.records)[k] == id;
          DeathMarks(p, k, tick);
        } else {
          StrangersAreRefused(p, id, tick);
        }
      case RespawnEvent(id, tick) =>
        if id in Ids(p.records) {
          var k :| 0 <= k < |p.records| && Ids(p.records)[k] == id;
          RespawnMarks(p, k, tick);
        } else {
          StrangersAreRefused(p, id, tick);
        }
    }
  }

  /** A suspended player has no connection, everybody else has one; only the dead have a respawn scheduled. */
  ghost predicate Known(r: PlayerRecord, delay: nat) {
    && r.lifecycle in {Active, Dead, Suspended} && (r.connection == 0 <==> r.lifecycle == Suspended)
    && (r.lifecycle == Active ==> r.respawnEligibleTick == 0)
    && (r.lifecycle == Dead ==> r.respawnEligibleTick >= delay)
  }

  ghost predicate AllKnown(p: Players) {
    forall i :: 0 <= i < |p.records| ==> Known(p.records[i], p.config.respawnDelayTicks)
  }

  lemma StepKeepsKnown(p: Players, e: Event)
    requires Sound(p) && AllKnown(p)
    ensures AllKnown(Step(p, e))
  {
    hide Sound, UpdateRecord, KeepsPlayers;
    match e {
      case JoinEvent(connection, spawn, tick) =>
        JoinMarks(p, connection, spawn, tick);
        JoinKeeps(p, connection, spawn, tick);
      case LeaveEvent(connection, token) =>
        LeaveMarks(p, connection, token);
        if connection != 0 && connection in Connections(p.records) {
          var k :| 0 <= k < |p.records| && Connections(p.records)[k] == connection;
          assert p.records[k].connection == connection;
        }
      case DeathEvent(id, tick) =>
        if id in Ids(p.records) {
          var k :| 0 <= k < |p.records| && Ids(p.records)[k] == id;
          DeathMarks(p, k, tick);
        } else {
          StrangersAreRefused(p, id, tick);
        }
      case RespawnEvent(id, tick) =>
        if id in Ids(p.records) {
          var k :| 0 <= k < |p.records| && Ids(p.records)[k] == id;
          RespawnMarks(p, k, tick);
        } else {
          StrangersAreRefused(p, id, tick);
        }
    }
  }

  /** In every run a player on record is active, dead or suspended; so a leave suspends whoever had the connection. */
  lemma {:induction false} EveryRunKnown(config: Config, events: seq<Event>)
    ensures AllKnown(Run(config, events))
  {
    if events != [] {
      var n := |events| - 1;
      EveryRunKnown(config, events[..n]);
      EveryRunSound(config, events[..n]);
      StepKeepsKnown(Run(config, events[..n]), events[n]);
    }
  }

  /** From the n-th event on, none concerns this player. */
  ghost predicate LeftAlone(events: seq<Event>, n: nat, r: PlayerRecord) {
    forall k :: n <= k < |events| ==> !Concerns(events[k], r)
  }

  lemma {:induction false} RecordStays(config: Config, events: seq<Event>, n: nat, i: nat)
    requires n <= |events| && i < |Run(config, events[..n]).records|
    requires LeftAlone(events, n, Run(config, events[..n]).records[i])
    ensures i < |Run(config, events).records|
    ensures Run(config, events).records[i] == Run(config, events[..n]).records[i]
  {
    if n == |events| {
      assert events[..n] == events;
    } else {
      var last := |events| - 1;
      var before := events[..last];
      assert before[..n] == events[..n];
      RecordStays(config, before, n, i);
      EveryRunSound(config, before);
      OthersKeepRecord(Run(config, before), events[last], i);
    }
  }

  /**
   * The respawn timer: once a death was accepted at some tick, and as long as nothing else concerns the
   * player, a respawn is granted exactly from that tick plus the delay on.
   */
  lemma {:induction false} RespawnsAfterDelay(config: Config, events: seq<Event>, n: nat, i: nat, died: nat, tick: nat)
    requires n < |events| && i < |Run(config, events[..n]).records|
    requires var r := Run(config, events[..n]).records[i];
      && r.lifecycle == Active && events[n] == DeathEvent(r.id, died)
      && LeftAlone(events, n + 1, r)
    ensures var r := Run(config, events[..n]).records[i];
      RequestRespawn(Run(config, events), r.id, tick).outcome == Spawned <==> tick >= died + config.respawnDelayTicks
  {
    var p, q := Run(config, events[..n]), Run(config, events[..n + 1]);
    var r := p.records[i];
    EveryRunSound(config, events[..n]);
    EveryRunSound(config, events);
    RecordsAreJoins(config, events[..n]);
    RecordsAreJoins(config, events);
    assert events[..n + 1][..n] == events[..n];
    DeathMarks(p, i, died);
    assert q.records[i] == r.(lifecycle := Dead, respawnEligibleTick := died + config.respawnDelayTicks);
    assert LeftAlone(events, n + 1, q.records[i]);
    RecordStays(config, events, n + 1, i);
    RespawnMarks(Run(config, events), i, tick);
  }
}
