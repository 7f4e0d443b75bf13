/** What the timeout phase achieves: which overdue connections a tick can leave behind. */
module HostTimeouts {
  import opened Prelude
  import opened Sorted
  import opened NetTypes
  import opened HostModel
  import opened HostInvariant
  import opened HostSteps
  import opened HostTheorems

  // --------------------------------------------------------------------- the phase itself

  lemma {:induction false} DisconnectFromTable(
    h: Host, ids: seq<nat>, i: nat, reason: DisconnectReason, io: Transport)
    requires i <= |ids|
    ensures DisconnectFrom(h, ids, i, reason, io).table == h.table - Elems(ids[i..])
    decreases |ids| - i
  {
    if i < |ids| {
      DisconnectTable(h, ids[i], reason, io);
      DisconnectFromTable(Disconnect(h, ids[i], reason, io), ids, i + 1, reason, io);
      assert ids[i..] == [ids[i]] + ids[i + 1..];
      assert Elems(ids[i..]) == {ids[i]} + Elems(ids[i + 1..]);
      assert h.table - {ids[i]} - Elems(ids[i + 1..]) == h.table - Elems(ids[i..]);
    } else {
      assert Elems(ids[i..]) == {};
      assert h.table - {} == h.table;
    }
  }

  /** The phase drops the overdue rows and no other. */
  lemma {:induction false} TimeoutsDropOverdue(h: Host, now: nat, io: Transport)
    ensures DisconnectFrom(h, TimedOut(h, now), 0, Timeout, io).table == h.table - Overdue(h.table, now, h.limits)
  {
    var ids := TimedOut(h, now);
    DisconnectFromTable(h, ids, 0, Timeout, io);
    ListingIsAscending(Overdue(h.table, now, h.limits));
    assert ids[0..] == ids;
  }

  // ---------------------------------------------------------------- rows through a tick

  /** What a step may do to a row: time stamps, and the handshake forwards. */
  ghost predicate RowMoves(c: Connection, c2: Connection, now: nat) {
    && c2.createdTick == c.createdTick && (c2.lastRecvTick == c.lastRecvTick || c2.lastRecvTick == now)
    && (c.handshake == Established ==> c2.handshake == Established)
    && (c2.state == c.state || (c2.state == Connected && c2.handshake == Established))
  }

  ghost predicate TableMoves(g: Host, g': Host, now: nat) {
    && g'.limits == g.limits && g'.nextId == g.nextId
    && forall k :: k in g'.table ==> k in g.table && RowMoves(g.table[k], g'.table[k], now)
  }

  lemma DisconnectMoves(g: Host, id: nat, reason: DisconnectReason, now: nat, io: Transport)
    ensures TableMoves(g, Disconnect(g, id, reason, io), now)
  {
  }

  lemma RouteMoves(g: Host, dg: Datagram, now: nat, io: Transport)
    ensures TableMoves(g, Route(g, dg, now, io), now)
  {
    hide DeserializeHeader, DeserializeHandshake, BuildPacket, MintToken, TickPayload;
  }

  lemma ConsumeMoves(g: Host, id: nat, allow: bool, now: nat)
    requires id in g.conns && id in g.table && g.conns[id].inbox != []
    ensures TableMoves(g, Consume(g, id, allow), now)
  {
  }

  lemma MovesThrough(a: Host, b: Host, c: Host, now: nat)
    requires TableMoves(a, b, now) && TableMoves(b, c, now)
    ensures TableMoves(a, c, now)
  {
    forall k | k in c.table ensures k in a.table && RowMoves(a.table[k], c.table[k], now) {
      assert RowMoves(a.table[k], b.table[k], now) && RowMoves(b.table[k], c.table[k], now);
    }
  }

  lemma PromoteMoves(g: Host, id: nat, out: Option<OutboundControl>, now: nat)
    requires id in g.table && id in g.conns
    ensures TableMoves(g, Promote(Reply(g, id, out), id, now), now)
  {
  }

  lemma AdvanceOneMoves(g: Host, id: nat, now: nat, authorize: Authenticator, io: Transport)
    ensures TableMoves(g, AdvanceOne(g, id, now, authorize, io), now)
  {
    if id in g.conns && g.conns[id].inbox != [] && id in g.table {
      var m := g.conns[id].inbox[0];
      var allow := authorize(g.table[id], m.nonce);
      var res := Advance(id, g.table[id].handshake, m, allow);
      var g1 := Consume(g, id, allow);
      ConsumeMoves(g, id, allow, now);
      match res.drop {
        case Some(reason) =>
          DisconnectMoves(g1, id, reason, now, io);
          MovesThrough(g, g1, Disconnect(g1, id, reason, io), now);
        case None =>
          PromoteMoves(g1, id, res.outbound, now);
          MovesThrough(g, g1, Promote(Reply(g1, id, res.outbound), id, now), now);
      }
    }
  }

  lemma HeartbeatMoves(g: Host, id: nat, now: nat)
    ensures TableMoves(g, Heartbeat(g, id, now), now)
  {
  }

  // ------------------------------------------------------------- what every step keeps

  /** Members from before the tick are Connected as long as they are there. */
  ghost predicate Settled(g: Host, limits: Limits, members: set<nat>, nextId: nat) {
    && g.limits == limits && g.nextId >= nextId
    && forall k :: k in g.table && k in members ==> g.table[k].state == Connected && g.table[k].handshake == Established
  }

  /** Only rows that finished their handshake, and were no members before the tick, are overdue. */
  ghost predicate Timely(g: Host, now: nat, limits: Limits, members: set<nat>) {
    forall k :: k in g.table && Expired(g.table[k], now, limits) ==>
      g.table[k].handshake == Established && k !in members
  }

  ghost function Keeping(limits: Limits, members: set<nat>, nextId: nat): Host -> bool {
    (g: Host) => Settled(g, limits, members, nextId)
  }

  ghost function Current(now: nat, limits: Limits, members: set<nat>, nextId: nat): Host -> bool {
    (g: Host) => Settled(g, limits, members, nextId) && Timely(g, now, limits, members)
  }

  lemma MovesSettled(g: Host, g': Host, now: nat, limits: Limits, members: set<nat>, nextId: nat)
    requires TableMoves(g, g', now) && Settled(g, limits, members, nextId)
    ensures Settled(g', limits, members, nextId)
  {
  }

  lemma MovesTimely(g: Host, g': Host, now: nat, limits: Limits, members: set<nat>, nextId: nat)
    requires TableMoves(g, g', now) && Settled(g, limits, members, nextId) && Timely(g, now, limits, members)
    ensures Timely(g', now, limits, members)
  {
    forall k | k in g'.table && Expired(g'.table[k], now, limits)
      ensures g'.table[k].handshake == Established && k !in members
    {
      assert RowMoves(g.table[k], g'.table[k], now);
    }
  }

  lemma AcceptSettled(g: Host, ep: u32, now: nat, io: Transport, limits: Limits, members: set<nat>, nextId: nat)
    requires Settled(g, limits, members, nextId) && forall k :: k in members ==> k < nextId
    ensures Settled(Accept(g, ep, now, io), limits, members, nextId)
  {
  }

  lemma AcceptTimely(g: Host, ep: u32, now: nat, io: Transport, limits: Limits, members: set<nat>)
    requires Timely(g, now, limits, members)
    ensures Timely(Accept(g, ep, now, io), now, limits, members)
  {
  }

  /** Every small step of a tick but the accepts moves rows forward. */
  lemma StepsMove(g: Host, now: nat, input: TickInput, io: Transport)
    ensures forall dg: Datagram :: TableMoves(g, Route(g, dg, now, io), now)
    ensures forall id: nat :: TableMoves(g, Disconnect(g, id, Timeout, io), now)
    ensures forall id: nat :: TableMoves(g, AdvanceOne(g, id, now, input.authorize, io), now)
    ensures forall id: nat :: TableMoves(g, Heartbeat(g, id, now), now)
  {
    hide TableMoves;
    forall dg: Datagram ensures TableMoves(g, Route(g, dg, now, io), now) {
      RouteMoves(g, dg, now, io);
    }
    forall id: nat ensures TableMoves(g, Disconnect(g, id, Timeout, io), now) {
      DisconnectMoves(g, id, Timeout, now, io);
    }
    forall id: nat ensures TableMoves(g, AdvanceOne(g, id, now, input.authorize, io), now) {
      AdvanceOneMoves(g, id, now, input.authorize, io);
    }
    forall id: nat ensures TableMoves(g, Heartbeat(g, id, now), now) {
      HeartbeatMoves(g, id, now);
    }
  }

  /** What accepts keep, and what moving rows keeps, every small step keeps. */
  lemma MovingRule(P: Host -> bool, now: nat, input: TickInput, io: Transport)
    requires forall g: Host, ep: u32 :: P(g) ==> P(Accept(g, ep, now, io))
    requires forall g: Host, g': Host :: P(g) && TableMoves(g, g', now) ==> P(g')
    ensures StepSafe(P, now, input, io)
  {
    hide TableMoves;
    forall g: Host, dg: Datagram | P(g) ensures P(Route(g, dg, now, io)) {
      StepsMove(g, now, input, io);
    }
    forall g: Host, id: nat | P(g) ensures P(Disconnect(g, id, Timeout, io)) {
      StepsMove(g, now, input, io);
    }
    forall g: Host, id: nat | P(g) ensures P(AdvanceOne(g, id, now, input.authorize, io)) {
      StepsMove(g, now, input, io);
    }
    forall g: Host, id: nat | P(g) ensures P(Heartbeat(g, id, now)) {
      StepsMove(g, now, input, io);
    }
  }

  lemma KeepingSafe(limits: Limits, members: set<nat>, nextId: nat, now: nat, input: TickInput, io: Transport)
    requires forall k :: k in members ==> k < nextId
    ensures StepSafe(Keeping(limits, members, nextId), now, input, io)
  {
    hide TableMoves, Settled;
    var P := Keeping(limits, members, nextId);
    forall g: Host, ep: u32 | P(g) ensures P(Accept(g, ep, now, io)) {
      AcceptSettled(g, ep, now, io, limits, members, nextId);
    }
    forall g: Host, g': Host | P(g) && TableMoves(g, g', now) ensures P(g') {
      MovesSettled(g, g', now, limits, members, nextId);
    }
    MovingRule(P, now, input, io);
  }

  lemma CurrentSafe(limits: Limits, members: set<nat>, nextId: nat, now: nat, input: TickInput, io: Transport)
    requires forall k :: k in members ==> k < nextId
    ensures StepSafe(Current(now, limits, members, nextId), now, input, io)
  {
    hide TableMoves, Settled, Timely;
    var P := Current(now, limits, members, nextId);
    forall g: Host, ep: u32 | P(g) ensures P(Accept(g, ep, now, io)) {
      AcceptSettled(g, ep, now, io, limits, members, nextId);
      AcceptTimely(g, ep, now, io, limits, members);
    }
    forall g: Host, g': Host | P(g) && TableMoves(g, g', now) ensures P(g') {
      MovesSettled(g, g', now, limits, members, nextId);
      MovesTimely(g, g', now, limits, members, nextId);
    }
    MovingRule(P, now, input, io);
  }

  lemma CurrentHandOver(now: nat, limits: Limits, members: set<nat>, nextId: nat)
    ensures HandOverSafe(Current(now, limits, members, nextId))
  {
  }

  /** After the first three phases nothing at all is overdue. */
  lemma IntakeTimely(h: Host, now: nat, input: TickInput, io: Transport, members: set<nat>, nextId: nat)
    requires Settled(h, h.limits, members, nextId) && forall k :: k in members ==> k < nextId
    ensures var h1 := Intake(h, now, input, io);
      && Settled(h1, h.limits, members, nextId) && Timely(h1, now, h.limits, members)
      && forall k :: k in h1.table ==> !Expired(h1.table[k], now, h.limits)
  {
    var P := Keeping(h.limits, members, nextId);
    KeepingSafe(h.limits, members, nextId, now, input, io);
    IntakeRule(P, h, now, input, io);
    AcceptFromRule(P, h, 0, now, input, io);
    var a := AcceptFrom(h, input.accepted, 0, now, io);
    RouteFromRule(P, a, 0, now, input, io);
    TimeoutsDropOverdue(RouteFrom(a, input.received, 0, now, io), now, io);
  }

  // ------------------------------------------------------------------------------- a tick

  lemma BeforeTick(h: Host)
    requires InStep(h)
    ensures Settled(h.(passes := h.passes + 1), h.limits, h.members.Keys, h.nextId)
    ensures forall k :: k in h.members.Keys ==> k < h.nextId
  {
    forall k | k in h.members ensures k in h.table && RowOk(h, k) {
    }
  }

  /** After a tick of a running host only connections promoted in that tick can be overdue. */
  lemma TickIsTimely(h: Host, now: nat, input: TickInput, io: Transport)
    requires InStep(h) && h.running
    ensures Tick(h, now, input, io).limits == h.limits
    ensures Timely(Tick(h, now, input, io), now, h.limits, h.members.Keys)
  {
    hide Settled, Timely, InStep, Intake, Progress, StepSafe, HandOverSafe;
    var members, nextId := h.members.Keys, h.nextId;
    var P := Current(now, h.limits, members, nextId);
    BeforeTick(h);
    var h0 := h.(passes := h.passes + 1);
    IntakeTimely(h0, now, input, io, members, nextId);
    var h1 := Intake(h0, now, input, io);
    CurrentSafe(h.limits, members, nextId, now, input, io);
    ProgressRule(P, h1, now, input, io);
    var h2 := Progress(h1, now, input.authorize, io);
    CurrentHandOver(now, h.limits, members, nextId);
    DrainFromRule(P, h2, Ids(h2), 0, 0, io);
    TickDrains(h, now, input, io, h1, h2);
    SettledLimits(Tick(h, now, input, io), h.limits, members, nextId);
  }

  lemma SettledLimits(g: Host, limits: Limits, members: set<nat>, nextId: nat)
    requires Settled(g, limits, members, nextId)
    ensures g.limits == limits
  {
  }

  lemma TimelyRow(g: Host, id: nat, now: nat, members: set<nat>)
    requires Timely(g, now, g.limits, members) && id in g.table
    ensures g.table[id].handshake != Established ==> now <= g.table[id].createdTick + g.limits.handshakeTicks
    ensures (g.table[id].handshake == Established && g.table[id].state == Connected
             && now > g.table[id].lastRecvTick + g.limits.connectionTicks) ==> id !in members
  {
  }

  lemma {:induction false} LastTick(h: Host, events: seq<HostEvent>, io: Transport)
    requires events != [] && events[|events| - 1].TickEvent?
    ensures var n := |events| - 1;
      Run(h, events, io) == Tick(Run(h, events[..n], io), events[n].now, events[n].input, io)
  {
  }

  // -------------------------------------------------------------------------------- a run

  /**
   * After a tick of a running host no unfinished handshake is older than its limit, and a Connected row can
   * be silent for longer than its limit only if it became a member in that very tick.
   */
  lemma OnlyNewcomersOverdue(h: Host, maxConnections: nat, maxMembers: nat, events: seq<HostEvent>, io: Transport,
                             id: nat)
    requires Reached(h, maxConnections, maxMembers, events, io) && id in h.table
    requires events != [] && events[|events| - 1].TickEvent?
    requires Run(InitialHost(maxConnections, maxMembers), events[..|events| - 1], io).running
    ensures var before, now := Run(InitialHost(maxConnections, maxMembers), events[..|events| - 1], io),
                               events[|events| - 1].now;
      && h.limits == before.limits
      && (h.table[id].handshake != Established ==> now <= h.table[id].createdTick + h.limits.handshakeTicks)
      && (h.table[id].state == Connected && now > h.table[id].lastRecvTick + h.limits.connectionTicks ==>
            id in h.members && id !in before.members)
  {
    var n := |events| - 1;
    var before := Run(InitialHost(maxConnections, maxMembers), events[..n], io);
    EveryRunKeepsInv(maxConnections, maxMembers, events[..n], io);
    EveryRunKeepsInv(maxConnections, maxMembers, events, io);
    hide Told, Routed, Run, Tick, OrderlyRun, Timely;
    assert h == Tick(before, events[n].now, events[n].input, io) by {
      LastTick(InitialHost(maxConnections, maxMembers), events, io);
    }
    TickIsTimely(before, events[n].now, events[n].input, io);
    assert RowOk(h, id);
    TimelyRow(h, id, events[n].now, before.members.Keys);
  }
}
