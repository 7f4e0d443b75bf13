/** When the host runs, under which limits, and which datagrams it counts as dropped. */
module HostLifecycle {
  import opened Prelude
  import opened NetTypes
  import opened HostModel
  import opened HostInvariant
  import opened HostSteps
  import opened HostTheorems
  import opened HostPeers

  ghost function Standing(running: bool, limits: Limits): Host -> bool {
    (g: Host) => g.running == running && g.limits == limits
  }

  lemma RouteStands(g: Host, dg: Datagram, now: nat, io: Transport)
    ensures Route(g, dg, now, io).running == g.running && Route(g, dg, now, io).limits == g.limits
  {
    hide DeserializeHeader, DeserializeHandshake, BuildPacket, TickPayload, MintToken, HeaderFields;
  }

  lemma SettleStands(g: Host, id: nat, out: Option<OutboundControl>, now: nat)
    requires id in g.conns && id in g.table
    ensures var g' := Promote(Reply(g, id, out), id, now); g'.running == g.running && g'.limits == g.limits
  {
    hide BuildPacket, HandshakePayload;
  }

  lemma DisconnectStands(g: Host, id: nat, reason: DisconnectReason, io: Transport)
    ensures var g' := Disconnect(g, id, reason, io); g'.running == g.running && g'.limits == g.limits
  {
    hide MintToken;
  }

  lemma AdvanceStands(g: Host, id: nat, now: nat, authorize: Authenticator, io: Transport)
    ensures var g' := AdvanceOne(g, id, now, authorize, io); g'.running == g.running && g'.limits == g.limits
  {
    if id in g.conns && g.conns[id].inbox != [] && id in g.table {
      hide Promote, Reply, Disconnect, Advance;
      var m := g.conns[id].inbox[0];
      var allow := authorize(g.table[id], m.nonce);
      var res := Advance(id, g.table[id].handshake, m, allow);
      match res.drop {
        case Some(reason) => DisconnectStands(Consume(g, id, allow), id, reason, io);
        case None => SettleStands(Consume(g, id, allow), id, res.outbound, now);
      }
    }
  }

  lemma HeartbeatStands(g: Host, id: nat, now: nat)
    ensures Heartbeat(g, id, now).running == g.running && Heartbeat(g, id, now).limits == g.limits
  {
    hide BuildPacket, TickPayload;
  }

  lemma StandingSafe(running: bool, limits: Limits, now: nat, input: TickInput, io: Transport)
    ensures StepSafe(Standing(running, limits), now, input, io) && HandOverSafe(Standing(running, limits))
  {
    hide Route, Disconnect, AdvanceOne, Heartbeat;
    var P := Standing(running, limits);
    forall g: Host, dg: Datagram | P(g) ensures P(Route(g, dg, now, io)) {
      RouteStands(g, dg, now, io);
    }
    forall g: Host, id: nat | P(g) ensures P(Disconnect(g, id, Timeout, io)) {
      DisconnectStands(g, id, Timeout, io);
    }
    forall g: Host, id: nat | P(g) ensures P(AdvanceOne(g, id, now, input.authorize, io)) {
      AdvanceStands(g, id, now, input.authorize, io);
    }
    forall g: Host, id: nat | P(g) ensures P(Heartbeat(g, id, now)) {
      HeartbeatStands(g, id, now);
    }
  }

  lemma TickStands(h: Host, now: nat, input: TickInput, io: Transport)
    ensures Tick(h, now, input, io).running == h.running && Tick(h, now, input, io).limits == h.limits
  {
    if h.running {
      hide StepSafe, HandOverSafe, Tick;
      var P := Standing(h.running, h.limits);
      StandingSafe(h.running, h.limits, now, input, io);
      var h2 := BeforeDrainRule(P, h, now, input, io);
      DrainFromRule(P, h2, Ids(h2), 0, 0, io);
      assert P(Tick(h, now, input, io));
    }
  }

  lemma StopStands(h: Host, io: Transport)
    ensures !Stop(h, io).running && Stop(h, io).limits == h.limits
  {
    DisconnectFromRule(Standing(h.running, h.limits), h, Ids(h), 0, Graceful, io);
    assert Standing(h.running, h.limits)(DisconnectFrom(h, Ids(h), 0, Graceful, io));
  }

  /** A start that gets to listen, or has nothing to listen for. */
  ghost predicate Opens(e: HostEvent) {
    e.StartEvent? && (!e.enabled || (e.bound && e.listening))
  }

  ghost predicate NoStop(events: seq<HostEvent>, from: nat) {
    forall j :: from <= j < |events| ==> !events[j].StopEvent?
  }

  /** At a start that opened, and not stopped since. */
  ghost predicate OpenSince(events: seq<HostEvent>, k: nat) {
    k < |events| && Opens(events[k]) && NoStop(events, k)
  }

  lemma OpenLonger(events: seq<HostEvent>, k: nat)
    requires events != [] && k < |events| - 1
    ensures OpenSince(events, k) <==> OpenSince(events[..|events| - 1], k) && !events[|events| - 1].StopEvent?
  {
    var before := events[..|events| - 1];
    assert before[k] == events[k];
    if OpenSince(events, k) {
      assert forall j :: k <= j < |before| ==> before[j] == events[j];
    } else if OpenSince(before, k) && !events[|events| - 1].StopEvent? {
      forall j | k <= j < |events| ensures !events[j].StopEvent? {
        assert j < |before| ==> before[j] == events[j];
      }
    }
  }

  ghost predicate OpenNow(events: seq<HostEvent>) {
    exists k: nat :: OpenSince(events, k)
  }

  lemma OpenNowStep(events: seq<HostEvent>)
    requires events != []
    ensures var before, e := events[..|events| - 1], events[|events| - 1];
      && (OpenNow(events) <==> Opens(e) || (OpenNow(before) && !e.StopEvent?))
      && (NoStop(events, 0) <==> NoStop(before, 0) && !e.StopEvent?)
  {
    var n := |events| - 1;
    var before := events[..n];
    assert forall j :: 0 <= j < n ==> before[j] == events[j];
    if k: nat :| OpenSince(events, k) && k < n {
      OpenLonger(events, k);
    }
    if k: nat :| OpenSince(before, k) {
      OpenLonger(events, k);
    }
    if Opens(events[n]) {
      assert OpenSince(events, n);
    }
  }

  /** The host runs exactly if a start opened it, or it ran to begin with, and no stop came after that. */
  lemma {:induction false} RunsIff(h: Host, events: seq<HostEvent>, io: Transport)
    ensures Run(h, events, io).running <==> (h.running && NoStop(events, 0)) || OpenNow(events)
  {
    if events != [] {
      var n := |events| - 1;
      RunsIff(h, events[..n], io);
      OpenNowStep(events);
      hide Tick, Stop, OpenNow, NoStop;
      match events[n] {
        case StartEvent(limits, enabled, bound, listening) =>
        case TickEvent(now, input) => TickStands(Run(h, events[..n], io), now, input, io);
        case StopEvent => StopStands(Run(h, events[..n], io), io);
      }
    }
  }

  /** The limits in force are those of the last start; before any, those it began with. */
  lemma {:induction false} LimitsAreLatest(h: Host, events: seq<HostEvent>, k: nat, io: Transport)
    requires k <= |events| && forall j :: k <= j < |events| ==> !events[j].StartEvent?
    ensures k == 0 ==> Run(h, events, io).limits == h.limits
    ensures k > 0 && events[k - 1].StartEvent? ==> Run(h, events, io).limits == events[k - 1].limits
  {
    hide Tick, Stop;
    var n := |events| - 1;
    if k < |events| {
      var before, g := events[..n], Run(h, events[..n], io);
      LimitsAreLatest(h, before, k, io);
      assert k > 0 ==> before[k - 1] == events[k - 1];
      if events[n].TickEvent? {
        TickStands(g, events[n].now, events[n].input, io);
      } else {
        StopStands(g, io);
      }
      assert Run(h, events, io).limits == g.limits;
    }
  }

  // ------------------------------------------------------------------ what counts as dropped

  /** From nobody connected, without a readable header, or a handshake message cut short. */
  ghost predicate Useless(h: Host, dg: Datagram) {
    || (forall id :: id in h.conns ==> h.conns[id].endpoint != dg.from)
    || DeserializeHeader(dg.bytes).None?
    || (IsHandshakeId(DeserializeHeader(dg.bytes).value.messageId) && |dg.bytes| < HEADER_SIZE + 6)
  }

  lemma KnownIff(h: Host, from: u32)
    requires InStep(h)
    ensures from in h.route <==> exists id :: id in h.conns && h.conns[id].endpoint == from
    ensures from in h.route ==> h.route[from] in h.conns && h.route[from] in h.table
  {
  }

  lemma DeliverCounts(h: Host, id: nat, message: u16, body: seq<u8>, now: nat, io: Transport)
    requires id in h.conns
    ensures Deliver(h, id, message, body, now, io).dropped
         == h.dropped + if IsHandshakeId(message) && |body| < 6 then 1 else 0
  {
    hide DeserializeHandshake, BuildPacket, TickPayload, Disconnect;
    CutShortIff(message, body);
    if message == MSG_BYE {
      DisconnectCounts(h, id, io);
    }
  }

  lemma DisconnectCounts(h: Host, id: nat, io: Transport)
    ensures Disconnect(h, id, Graceful, io).dropped == h.dropped
  {
    hide MintToken;
  }

  lemma CutShortIff(message: u16, body: seq<u8>)
    ensures DeserializeHandshake(message, body).None? <==> |body| < 6
  {
  }

  /** A datagram is counted as dropped exactly if it is of no use. */
  lemma DroppedIff(h: Host, dg: Datagram, now: nat, io: Transport)
    requires Inv(h)
    ensures Route(h, dg, now, io).dropped == h.dropped + if Useless(h, dg) then 1 else 0
  {
    KnownIff(h, dg.from);
    if dg.from in h.route && DeserializeHeader(dg.bytes).Some? {
      RouteIs(h, dg, now, io);
      hide Inv, InStep, HeaderFields, HeaderAcceptable, Deliver, Route;
      var id := h.route[dg.from];
      DeliverCounts(h.(table := h.table[id := h.table[id].(lastRecvTick := now)]), id,
                    DeserializeHeader(dg.bytes).value.messageId, dg.bytes[HEADER_SIZE..], now, io);
    } else {
      hide Inv, InStep, HeaderFields, HeaderAcceptable, Deliver;
    }
  }
}
