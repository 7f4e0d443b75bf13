/** The drain phase: what is handed to the transport, to whom, and when it may stop. */
module HostDrain {
  import opened Prelude
  import opened Sorted
  import opened NetTypes
  import opened HostModel
  import opened HostInvariant
  import opened HostSteps
  import opened HostTheorems

  // ---------------------------------------------------------------------- when it stops

  /** Bytes of outbox packets that the transport took: any answer but WouldBlock. */
  ghost function TakenBytes(sends: seq<SendRecord>): nat {
    if sends == [] then 0
    else
      var n := |sends| - 1;
      TakenBytes(sends[..n])
      + if sends[n].source.Some? && sends[n].outcome != WouldBlock then |sends[n].packet.bytes| else 0
  }

  lemma {:induction false} TakenBytesSnoc(sends: seq<SendRecord>, r: SendRecord)
    ensures TakenBytes(sends + [r])
         == TakenBytes(sends) + if r.source.Some? && r.outcome != WouldBlock then |r.packet.bytes| else 0
  {
    SnocSplit(sends, r);
  }

  ghost predicate Emptied(h: Host, id: nat) {
    id in h.conns ==> h.conns[id].outbox == []
  }

  /**
   * Connection id still has packets, and the first may not go: it is over the budget, `start` bytes having been
   * taken before, or the transport was just offered it and would block.
   */
  ghost predicate Stuck(h: Host, id: nat, start: nat) {
    && id in h.conns && h.conns[id].outbox != []
    && var front := h.conns[id].outbox[0];
       || TakenBytes(h.sends) + |front.bytes| > start + h.limits.maxBytesPerTick
       || (h.sends != [] && h.sends[|h.sends| - 1]
             == SendRecord(h.conns[id].endpoint, front, WouldBlock, Some(id)))
  }

  /** Only this connection's outbox, and the log of sends, may differ. */
  ghost predicate OnlyOutbox(h: Host, h': Host, id: nat)
    requires id in h.conns
  {
    && h' == h.(conns := h'.conns, sends := h'.sends) && id in h'.conns
    && h'.conns == h.conns[id := h'.conns[id]]
    && h'.conns[id] == h.conns[id].(outbox := h'.conns[id].outbox)
  }

  lemma {:induction false} DrainConnStops(h: Host, id: nat, sent: nat, io: Transport, start: nat)
    requires id in h.conns && TakenBytes(h.sends) == start + sent
    ensures var r := DrainConn(h, id, sent, io);
      && OnlyOutbox(h, r.host, id)
      && (r.stop ==> Stuck(r.host, id, start))
      && (!r.stop ==> r.host.conns[id].outbox == [] && TakenBytes(r.host.sends) == start + r.sent)
    decreases |h.conns[id].outbox|
  {
    hide HandOver, OnlyOutbox, Stuck, TakenBytes;
    var c := h.conns[id];
    NothingMoved(h, id);
    if c.outbox != [] {
      if sent + |c.outbox[0].bytes| > h.limits.maxBytesPerTick {
        OverBudget(h, id, start);
      } else {
        var outcome := io(|h.sends|);
        HandOverStep(h, id, outcome, start);
        if outcome != WouldBlock {
          var h1 := HandOver(h, id, outcome);
          DrainConnStops(h1, id, sent + |c.outbox[0].bytes|, io, start);
          OutboxThrough(h, h1, DrainConn(h1, id, sent + |c.outbox[0].bytes|, io).host, id);
        }
      }
    }
  }

  lemma NothingMoved(h: Host, id: nat)
    requires id in h.conns
    ensures OnlyOutbox(h, h, id)
  {
    assert h.conns[id := h.conns[id]] == h.conns;
  }

  lemma OverBudget(h: Host, id: nat, start: nat)
    requires id in h.conns && h.conns[id].outbox != []
    requires TakenBytes(h.sends) + |h.conns[id].outbox[0].bytes| > start + h.limits.maxBytesPerTick
    ensures Stuck(h, id, start)
  {
  }

  lemma HandOverStep(h: Host, id: nat, outcome: TransportOutcome, start: nat)
    requires id in h.conns && h.conns[id].outbox != []
    ensures var h1 := HandOver(h, id, outcome);
      && OnlyOutbox(h, h1, id) && id in h1.conns && h1.limits == h.limits && |h1.sends| == |h.sends| + 1
      && (outcome == WouldBlock ==> Stuck(h1, id, start))
      && (outcome != WouldBlock ==>
            && h1.conns[id].outbox == h.conns[id].outbox[1..]
            && TakenBytes(h1.sends) == TakenBytes(h.sends) + |h.conns[id].outbox[0].bytes|)
  {
    var c := h.conns[id];
    TakenBytesSnoc(h.sends, SendRecord(c.endpoint, c.outbox[0], outcome, Some(id)));
  }

  lemma OutboxThrough(a: Host, b: Host, c: Host, id: nat)
    requires id in a.conns && OnlyOutbox(a, b, id) && OnlyOutbox(b, c, id)
    ensures OnlyOutbox(a, c, id)
  {
  }

  /** In id order, all is sent, or all before one connection, and that one is stuck. */
  ghost predicate DrainedTo(h: Host, ids: seq<nat>, start: nat) {
    || (forall j :: 0 <= j < |ids| ==> Emptied(h, ids[j]))
    || (exists k :: 0 <= k < |ids| && Stuck(h, ids[k], start) && forall j :: 0 <= j < k ==> Emptied(h, ids[j]))
  }

  lemma {:induction false} DrainFromStops(h: Host, ids: seq<nat>, i: nat, sent: nat, io: Transport, start: nat)
    requires i <= |ids| && Ascending(ids) && TakenBytes(h.sends) == start + sent
    requires forall j :: 0 <= j < i ==> Emptied(h, ids[j])
    ensures var r := DrainFrom(h, ids, i, sent, io);
      && DrainedTo(r, ids, start) && r.conns.Keys == h.conns.Keys && r.limits == h.limits
    decreases |ids| - i
  {
    if i < |ids| {
      if ids[i] !in h.conns {
        DrainFromStops(h, ids, i + 1, sent, io, start);
      } else {
        DrainConnStops(h, ids[i], sent, io, start);
        hide Stuck, DrainConn, TakenBytes;
        var r := DrainConn(h, ids[i], sent, io);
        forall j | 0 <= j < i ensures Emptied(r.host, ids[j]) {
          assert Emptied(h, ids[j]) && ids[j] != ids[i];
        }
        if r.stop {
          assert Stuck(r.host, ids[i], start);
        } else {
          DrainFromStops(r.host, ids, i + 1, r.sent, io, start);
        }
      }
    }
  }

  // ----------------------------------------------------------------- before the drain

  ghost function TakenSoFar(bytes: nat, limits: Limits): Host -> bool {
    (g: Host) => TakenBytes(g.sends) == bytes && g.limits == limits
  }

  lemma DisconnectTakes(g: Host, id: nat, reason: DisconnectReason, io: Transport)
    ensures TakenBytes(Disconnect(g, id, reason, io).sends) == TakenBytes(g.sends)
    ensures Disconnect(g, id, reason, io).limits == g.limits
  {
    if id in g.table {
      TakenBytesSnoc(g.sends, SendRecord(g.table[id].endpoint, BYE, io(|g.sends|), None));
    }
  }

  lemma RouteTakes(g: Host, dg: Datagram, now: nat, io: Transport)
    ensures TakenBytes(Route(g, dg, now, io).sends) == TakenBytes(g.sends)
    ensures Route(g, dg, now, io).limits == g.limits
  {
    hide TakenBytes;
    if dg.from in g.route && g.route[dg.from] in g.table && DeserializeHeader(dg.bytes).Some? {
      var id := g.route[dg.from];
      DisconnectTakes(g.(table := g.table[id := g.table[id].(lastRecvTick := now)]), id, Graceful, io);
    }
  }

  lemma AdvanceTakes(g: Host, id: nat, now: nat, authorize: Authenticator, io: Transport)
    ensures TakenBytes(AdvanceOne(g, id, now, authorize, io).sends) == TakenBytes(g.sends)
    ensures AdvanceOne(g, id, now, authorize, io).limits == g.limits
  {
    hide TakenBytes;
    if id in g.conns && g.conns[id].inbox != [] && id in g.table {
      var allow := authorize(g.table[id], g.conns[id].inbox[0].nonce);
      var res := Advance(id, g.table[id].handshake, g.conns[id].inbox[0], allow);
      var h1 := Consume(g, id, allow);
      match res.drop {
        case Some(reason) => DisconnectTakes(h1, id, reason, io);
        case None =>
          var h2 := Promote(Reply(h1, id, res.outbound), id, now);
          assert h2.sends == h1.sends && h2.limits == h1.limits;
      }
    }
  }

  lemma TakenSafe(bytes: nat, limits: Limits, now: nat, input: TickInput, io: Transport)
    ensures StepSafe(TakenSoFar(bytes, limits), now, input, io)
  {
    hide TakenBytes, Route, Disconnect, AdvanceOne;
    var P := TakenSoFar(bytes, limits);
    forall g: Host, j: nat | P(g) && j < |input.accepted| ensures P(Accept(g, input.accepted[j], now, io)) {
      TakenBytesSnoc(g.sends, SendRecord(input.accepted[j], BYE, io(|g.sends|), None));
    }
    forall g: Host, dg: Datagram | P(g) ensures P(Route(g, dg, now, io)) {
      RouteTakes(g, dg, now, io);
    }
    forall g: Host, id: nat | P(g) ensures P(Disconnect(g, id, Timeout, io)) {
      DisconnectTakes(g, id, Timeout, io);
    }
    forall g: Host, id: nat | P(g) ensures P(AdvanceOne(g, id, now, input.authorize, io)) {
      AdvanceTakes(g, id, now, input.authorize, io);
    }
  }

  /**
   * After a tick of a running host no packet was held back without need: in ascending id order every outbox is
   * empty, up to one whose first packet is over what is left of the tick's budget, or which the transport was
   * just offered and would block.
   */
  lemma TickHoldsNothingBack(h: Host, now: nat, input: TickInput, io: Transport)
    requires Inv(h) && Orderly(h, now, input, io) && h.running
    ensures var h' := Tick(h, now, input, io); DrainedTo(h', Listing(h'.conns.Keys), TakenBytes(h.sends))
  {
    var start := TakenBytes(h.sends);
    TakenSafe(start, h.limits, now, input, io);
    var h2 := BeforeDrainRule(TakenSoFar(start, h.limits), h, now, input, io);
    KeysBeforeDrain(h, now, input, io, h2);
    hide Inv, Orderly, Tick, StepSafe, TakenBytes;
    ListingIsAscending(h2.table.Keys);
    DrainFromStops(h2, Ids(h2), 0, 0, io, start);
  }

  lemma {:induction false} KeysBeforeDrain(h: Host, now: nat, input: TickInput, io: Transport, h2: Host)
    requires Inv(h) && Orderly(h, now, input, io) && h.running
    requires Tick(h, now, input, io) == DrainFrom(h2, Ids(h2), 0, 0, io)
    ensures h2.conns.Keys == h2.table.Keys
  {
    TickKeeps(h, now, input, io);
    hide Told, Routed, Rows, Membership, Orderly, Tick;
    DrainKeys(h2, io);
  }

  lemma {:induction false} DrainKeys(h: Host, io: Transport)
    ensures var d := DrainFrom(h, Ids(h), 0, 0, io); d.conns.Keys == h.conns.Keys && d.table == h.table
  {
    var P := (g: Host) => g.conns.Keys == h.conns.Keys && g.table == h.table;
    forall g: Host, id: nat, o: TransportOutcome | P(g) && id in g.conns && g.conns[id].outbox != []
      ensures P(HandOver(g, id, o))
    {
    }
    DrainFromRule(P, h, Ids(h), 0, 0, io);
  }

  // -------------------------------------------------------------------------- to whom

  /** Whatever came out of an outbox went to the endpoint of that connection. */
  ghost predicate SentHome(h: Host) {
    forall j :: 0 <= j < |h.sends| && h.sends[j].source.Some? ==>
      && h.sends[j].source.value < h.nextId
      && (h.sends[j].source.value in h.conns ==> h.sends[j].to == h.conns[h.sends[j].source.value].endpoint)
  }

  /** No step moves a connection to another endpoint. */
  ghost predicate SameHomes(h: Host, h': Host) {
    && h.nextId <= h'.nextId
    && (forall k :: k in h'.conns ==>
          (k in h.conns && h'.conns[k].endpoint == h.conns[k].endpoint) || h.nextId <= k < h'.nextId)
    && |h.sends| <= |h'.sends| && h'.sends[..|h.sends|] == h.sends
    && (forall j :: |h.sends| <= j < |h'.sends| ==> h'.sends[j].source.None?)
  }

  lemma HomesSafe(h: Host, h': Host)
    requires SentHome(h) && SameHomes(h, h')
    ensures SentHome(h')
  {
    forall j | 0 <= j < |h'.sends| && h'.sends[j].source.Some?
      ensures h'.sends[j].source.value < h'.nextId
      ensures h'.sends[j].source.value in h'.conns ==> h'.sends[j].to == h'.conns[h'.sends[j].source.value].endpoint
    {
      assert j < |h.sends| && h'.sends[..|h.sends|][j] == h.sends[j];
    }
  }

  lemma AcceptHomes(g: Host, ep: u32, now: nat, io: Transport)
    ensures SameHomes(g, Accept(g, ep, now, io))
  {
  }

  lemma DisconnectHomes(g: Host, id: nat, reason: DisconnectReason, io: Transport)
    ensures SameHomes(g, Disconnect(g, id, reason, io))
  {
    hide MintToken;
  }

  lemma RouteHomes(g: Host, dg: Datagram, now: nat, io: Transport)
    ensures SameHomes(g, Route(g, dg, now, io))
  {
    hide DeserializeHandshake, DeserializeHeader, BuildPacket, TickPayload, Disconnect;
    if dg.from in g.route && g.route[dg.from] in g.table {
      var id := g.route[dg.from];
      DisconnectHomes(g.(table := g.table[id := g.table[id].(lastRecvTick := now)]), id, Graceful, io);
    }
  }

  lemma HomesThrough(a: Host, b: Host, c: Host)
    requires SameHomes(a, b) && SameHomes(b, c)
    ensures SameHomes(a, c)
  {
    assert c.sends[..|a.sends|] == c.sends[..|b.sends|][..|a.sends|];
    forall j | |a.sends| <= j < |c.sends| ensures c.sends[j].source.None? {
      if j < |b.sends| {
        assert c.sends[..|b.sends|][j] == b.sends[j];
      }
    }
  }

  lemma AdvanceHomes(g: Host, id: nat, now: nat, authorize: Authenticator, io: Transport)
    ensures SameHomes(g, AdvanceOne(g, id, now, authorize, io))
  {
    hide BuildPacket, HandshakePayload, Disconnect;
    if id in g.conns && g.conns[id].inbox != [] && id in g.table {
      var allow := authorize(g.table[id], g.conns[id].inbox[0].nonce);
      var res := Advance(id, g.table[id].handshake, g.conns[id].inbox[0], allow);
      var h1 := Consume(g, id, allow);
      assert SameHomes(g, h1);
      match res.drop {
        case Some(reason) =>
          DisconnectHomes(h1, id, reason, io);
          HomesThrough(g, h1, Disconnect(h1, id, reason, io));
        case None =>
          PromoteHomes(h1, id, res.outbound, now);
          HomesThrough(g, h1, Promote(Reply(h1, id, res.outbound), id, now));
      }
    }
  }

  lemma PromoteHomes(g: Host, id: nat, out: Option<OutboundControl>, now: nat)
    requires id in g.table && id in g.conns
    ensures SameHomes(g, Promote(Reply(g, id, out), id, now))
  {
    hide BuildPacket, HandshakePayload;
  }

  lemma HeartbeatHomes(g: Host, id: nat, now: nat)
    ensures SameHomes(g, Heartbeat(g, id, now))
  {
    hide BuildPacket, TickPayload;
  }

  lemma HandOverHomes(g: Host, id: nat, o: TransportOutcome)
    requires SentHome(g) && id in g.conns && g.conns[id].outbox != [] && id < g.nextId
    ensures SentHome(HandOver(g, id, o))
  {
  }

  /** Every connection has an id that was handed out. */
  ghost predicate Numbered(g: Host) { forall k :: k in g.conns ==> k < g.nextId }

  ghost function Homes(): Host -> bool {
    (g: Host) => SentHome(g) && Numbered(g)
  }

  lemma StepHomes(g: Host, g': Host)
    requires Homes()(g) && SameHomes(g, g')
    ensures Homes()(g')
  {
    HomesSafe(g, g');
  }

  lemma HomesStepSafe(now: nat, input: TickInput, io: Transport)
    ensures StepSafe(Homes(), now, input, io) && HandOverSafe(Homes())
  {
    hide Route, Disconnect, AdvanceOne, Heartbeat, HandOver, SentHome, SameHomes;
    var P := Homes();
    forall g: Host, j: nat | P(g) && j < |input.accepted| ensures P(Accept(g, input.accepted[j], now, io)) {
      AcceptHomes(g, input.accepted[j], now, io);
      StepHomes(g, Accept(g, input.accepted[j], now, io));
    }
    forall g: Host, dg: Datagram | P(g) ensures P(Route(g, dg, now, io)) {
      RouteHomes(g, dg, now, io);
      StepHomes(g, Route(g, dg, now, io));
    }
    forall g: Host, id: nat | P(g) ensures P(Disconnect(g, id, Timeout, io)) {
      DisconnectHomes(g, id, Timeout, io);
      StepHomes(g, Disconnect(g, id, Timeout, io));
    }
    forall g: Host, id: nat | P(g) ensures P(AdvanceOne(g, id, now, input.authorize, io)) {
      AdvanceHomes(g, id, now, input.authorize, io);
      StepHomes(g, AdvanceOne(g, id, now, input.authorize, io));
    }
    forall g: Host, id: nat | P(g) ensures P(Heartbeat(g, id, now)) {
      HeartbeatHomes(g, id, now);
      StepHomes(g, Heartbeat(g, id, now));
    }
    forall g: Host, id: nat, o: TransportOutcome | P(g) && id in g.conns && g.conns[id].outbox != []
      ensures P(HandOver(g, id, o))
    {
      HandOverHomes(g, id, o);
      HandOverKeys(g, id, o);
    }
  }

  lemma HandOverKeys(g: Host, id: nat, o: TransportOutcome)
    requires id in g.conns && g.conns[id].outbox != []
    ensures HandOver(g, id, o).conns.Keys == g.conns.Keys && HandOver(g, id, o).nextId == g.nextId
  {
  }

  lemma TickHomes(h: Host, now: nat, input: TickInput, io: Transport)
    requires Homes()(h)
    ensures Homes()(Tick(h, now, input, io))
  {
    if h.running {
      hide StepSafe, HandOverSafe;
      HomesStepSafe(now, input, io);
      var h2 := BeforeDrainRule(Homes(), h, now, input, io);
      DrainFromRule(Homes(), h2, Ids(h2), 0, 0, io);
    }
  }

  lemma StopHomes(h: Host, io: Transport)
    requires Homes()(h)
    ensures Homes()(Stop(h, io))
  {
    var P := Homes();
    forall g: Host, id: nat | P(g) ensures P(Disconnect(g, id, Graceful, io)) {
      DisconnectHomes(g, id, Graceful, io);
      StepHomes(g, Disconnect(g, id, Graceful, io));
    }
    DisconnectFromRule(P, h, Ids(h), 0, Graceful, io);
  }

  /** In every run, whatever the transport does, what comes out of an outbox is sent to its connection's endpoint. */
  lemma {:induction false} EveryRunSendsHome(maxConnections: nat, maxMembers: nat, events: seq<HostEvent>,
                                             io: Transport)
    ensures Homes()(Run(InitialHost(maxConnections, maxMembers), events, io))
  {
    if events != [] {
      var n := |events| - 1;
      EveryRunSendsHome(maxConnections, maxMembers, events[..n], io);
      var g := Run(InitialHost(maxConnections, maxMembers), events[..n], io);
      match events[n] {
        case StartEvent(limits, enabled, bound, listening) =>
          assert SameHomes(g, Start(g, limits, enabled, bound, listening));
          StepHomes(g, Start(g, limits, enabled, bound, listening));
        case TickEvent(now, input) => TickHomes(g, now, input, io);
        case StopEvent => StopHomes(g, io);
      }
    }
  }
}
