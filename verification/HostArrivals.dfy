/** Connections at their beginning and at their end: who is let in, who is turned away, and what Stop tells. */
module HostArrivals {
  import opened Prelude
  import opened Sorted
  import opened NetTypes
  import opened HostModel
  import opened HostInvariant
  import opened HostSteps
  import opened HostTheorems
  import opened HostPeers
  import opened HostService
  import opened HostLaws

  // ------------------------------------------------------------------------ who is let in

  /** A connection that was just accepted: handshaking, with nothing read, queued or told. */
  ghost function Newcomer(id: nat, ep: u32, now: nat, direct: seq<OutPacket>): Peer {
    Peer(Some(Connection(id, ep, Handshaking, NoHandshake, now, now, 0, 0)), [], 0, [], [], [], None, direct)
  }

  lemma {:induction false} AcceptedIs(g: Host, ep: u32, now: nat, io: Transport, limits: Limits, pass: nat)
    requires Inv(g) && ep !in g.route && |g.table| < g.maxConnections && g.limits == limits && g.passes == pass
    ensures var a, id := Accept(g, ep, now, io), g.nextId;
      && Holds(a, id, ep, limits, pass) && id in a.conns && a.nextId == id + 1
      && PeerOf(a, id, ep) == Newcomer(id, ep, now, Directs(g.sends, ep))
  {
    FreshId(g);
    assert Told(g, g.nextId);
    FreshHistories(g, g.nextId);
  }

  lemma {:induction false} FreshHistories(g: Host, id: nat)
    requires Told(g, id) && id >= g.nextId && id !in g.members
    ensures Of(g.queued, id) == [] && Of(g.consumed, id) == [] && Of(g.observed, id) == []
  {
    hide Numbered, Shaken;
  }

  /** The accept phase has come to its j-th endpoint, and let everybody in so far. */
  ghost predicate Admitting(h: Host, g: Host, eps: seq<u32>, j: nat, now: nat, io: Transport)
    requires j <= |eps|
  {
    && Inv(g) && Unpaced(g) && Welcome(g, eps, j, now, io)
    && g.limits == h.limits && g.passes == h.passes && g.maxConnections == h.maxConnections
    && g.nextId == h.nextId + j && |g.table| == |h.table| + j
    && (forall k :: j <= k < |eps| ==> eps[k] !in g.route && Directs(g.sends, eps[k]) == Directs(h.sends, eps[k]))
    && AcceptFrom(h, eps, 0, now, io) == AcceptFrom(g, eps, j, now, io)
  }

  lemma AdmitStep(h: Host, g: Host, eps: seq<u32>, j: nat, now: nat, io: Transport)
    requires j < |eps| && Distinct(eps) && Admitting(h, g, eps, j, now, io) && |g.table| < g.maxConnections
    ensures Admitting(h, Accept(g, eps[j], now, io), eps, j + 1, now, io)
  {
    hide Told, Routed, Rows, Membership;
    FreshId(g);
    AcceptKeeps(g, eps[j], now, io);
    SamePassUnpaced(g, Accept(g, eps[j], now, io));
  }

  lemma {:induction false} AdmitTo(h: Host, eps: seq<u32>, j: nat, now: nat, io: Transport) returns (g: Host)
    requires Inv(h) && Unpaced(h) && Welcome(h, eps, 0, now, io) && Distinct(eps) && j <= |eps|
    requires |h.table| + j <= h.maxConnections && forall ep :: ep in eps ==> ep !in h.route
    ensures Admitting(h, g, eps, j, now, io)
  {
    hide Inv, Unpaced;
    if j == 0 {
      g := h;
    } else {
      var before := AdmitTo(h, eps, j - 1, now, io);
      AdmitStep(h, before, eps, j - 1, now, io);
      g := Accept(before, eps[j - 1], now, io);
    }
  }

  /** A tick in which the transport surfaces new endpoints only, each once. */
  ghost predicate BringsNew(h: Host, now: nat, input: TickInput, io: Transport) {
    && Inv(h) && Orderly(h, now, input, io) && h.running
    && Distinct(input.accepted) && forall ep :: ep in input.accepted ==> ep !in h.route
  }

  /**
   * While there is room the j-th new endpoint of a tick gets the j-th next id, and is served in the very same
   * tick from what it sent.
   */
  lemma NewcomersAreServed(h: Host, now: nat, input: TickInput, io: Transport, j: nat)
    requires BringsNew(h, now, input, io) && j < |input.accepted| && |h.table| + j < h.maxConnections
    ensures var id, ep := h.nextId + j, input.accepted[j];
      PeerOf(Tick(h, now, input, io), id, ep)
        == Ticked(Newcomer(id, ep, now, Directs(h.sends, ep)), id, From(input.received, ep), now, h.passes + 1,
                  input.authorize, h.limits)
  {
    hide BringsNew, Inv, Unpaced, Welcome, Holds, PeerOf, Tick, Ticked, Admitting, Newcomer, AcceptFrom, From, Distinct;
    var h0, eps, ep, id := Counted(h), input.accepted, input.accepted[j], h.nextId + j;
    BeginsNew(h, now, input, io);
    var g := AdmitTo(h0, eps, j, now, io);
    AdmitNext(h0, g, eps, j, now, io, h.nextId);
    var a := Accept(g, ep, now, io);
    var p := Newcomer(id, ep, now, Directs(h.sends, ep));
    OthersLater(eps, j);
    LaterAccepts(a, p, eps, j + 1, now, io, id, ep, h.limits, h.passes + 1);
    ServedAfterAccepts(h, AcceptFrom(a, eps, j + 1, now, io), now, input, io, id, ep, p);
  }

  lemma OthersLater(eps: seq<u32>, j: nat)
    requires Distinct(eps) && j < |eps|
    ensures forall k :: j + 1 <= k < |eps| ==> eps[k] != eps[j]
  {
  }

  /** From the end of the accept phase to the end of the tick. */
  lemma {:induction false} ServedAfterAccepts(h: Host, b: Host, now: nat, input: TickInput, io: Transport,
                                              id: nat, ep: u32, p: Peer)
    requires h.running && b == AcceptFrom(Counted(h), input.accepted, 0, now, io)
    requires Inv(b) && Unpaced(b) && Holds(b, id, ep, h.limits, h.passes + 1) && PeerOf(b, id, ep) == p
    ensures PeerOf(Tick(h, now, input, io), id, ep)
         == Ticked(p, id, From(input.received, ep), now, h.passes + 1, input.authorize, h.limits)
  {
    hide Inv, Unpaced, Holds, PeerOf, Progress, Drain, Tick, Hear, Expire, Shake, Beat, AcceptFrom, RouteFrom, From;
    RestServes(b, now, input, io, id, ep, h.limits, h.passes + 1);
    TickPhases(h, now, input, io);
    HeardIsFrom(p, id, ep, input.received, |input.received|, now);
    assert input.received[..|input.received|] == input.received;
  }

  lemma {:induction false} BeginsNew(h: Host, now: nat, input: TickInput, io: Transport)
    requires BringsNew(h, now, input, io)
    ensures Inv(Counted(h)) && Unpaced(Counted(h)) && Welcome(Counted(h), input.accepted, 0, now, io)
    ensures Distinct(input.accepted) && h.running
    ensures forall ep :: ep in input.accepted ==> ep !in Counted(h).route
  {
    NewPass(h);
  }

  lemma NextAccept(g: Host, eps: seq<u32>, j: nat, now: nat, io: Transport)
    requires j < |eps|
    ensures AcceptFrom(g, eps, j, now, io) == AcceptFrom(Accept(g, eps[j], now, io), eps, j + 1, now, io)
  {
  }

  lemma {:induction false} AdmitNext(h: Host, g: Host, eps: seq<u32>, j: nat, now: nat, io: Transport, first: nat)
    requires j < |eps| && Distinct(eps) && Admitting(h, g, eps, j, now, io) && |h.table| + j < h.maxConnections
    requires first == h.nextId
    ensures var a, id := Accept(g, eps[j], now, io), first + j;
      && Inv(a) && Unpaced(a) && Welcome(a, eps, j + 1, now, io)
      && Holds(a, id, eps[j], h.limits, h.passes) && id in a.conns
      && PeerOf(a, id, eps[j]) == Newcomer(id, eps[j], now, Directs(h.sends, eps[j]))
      && AcceptFrom(h, eps, 0, now, io) == AcceptFrom(a, eps, j + 1, now, io)
  {
    hide Inv, Unpaced, Holds, PeerOf, Newcomer, Welcome, Accept, AcceptFrom;
    NextAccept(g, eps, j, now, io);
    AcceptedIs(g, eps[j], now, io, h.limits, h.passes);
    AdmitStep(h, g, eps, j, now, io);
  }

  /** The endpoints that surface after it are others. */
  lemma {:induction false} LaterAccepts(
    g: Host, p: Peer, eps: seq<u32>, i: nat, now: nat, io: Transport, id: nat, ep: u32, limits: Limits, pass: nat)
    requires Inv(g) && Unpaced(g) && Holds(g, id, ep, limits, pass) && id in g.conns && PeerOf(g, id, ep) == p
    requires i <= |eps| && Welcome(g, eps, i, now, io) && forall k :: i <= k < |eps| ==> eps[k] != ep
    ensures var g' := AcceptFrom(g, eps, i, now, io);
      Inv(g') && Unpaced(g') && Holds(g', id, ep, limits, pass) && PeerOf(g', id, ep) == p
    decreases |eps| - i
  {
    if i < |eps| {
      hide Told, Holds, PeerOf, Accept, Untouched;
      SamePassUnpaced(g, Accept(g, eps[i], now, io));
      AcceptServes(g, eps[i], now, io, id, ep, limits, pass);
      AcceptKeeps(g, eps[i], now, io);
      LaterAccepts(Accept(g, eps[i], now, io), p, eps, i + 1, now, io, id, ep, limits, pass);
    }
  }

  /** On record, routed, and nothing said yet. */
  ghost predicate WaitsForHello(h: Host, id: nat, ep: u32, now: nat) {
    && id in h.table && h.table[id] == Connection(id, ep, Handshaking, NoHandshake, now, now, 0, 0)
    && id in h.conns && h.conns[id].endpoint == ep && h.conns[id].inbox == []
    && ep in h.route && h.route[ep] == id && id !in h.members && Of(h.queued, id) == []
  }

  lemma WaitsFromPeer(h: Host, id: nat, ep: u32, now: nat, direct: seq<OutPacket>)
    requires InStep(h) && PeerOf(h, id, ep) == Newcomer(id, ep, now, direct)
    ensures WaitsForHello(h, id, ep, now)
  {
    PeerShows(h, id, ep);
    assert RowOk(h, id);
  }

  lemma NewcomerTicked(id: nat, ep: u32, now: nat, direct: seq<OutPacket>, pass: nat, authorize: Authenticator,
                       limits: Limits)
    ensures var p := Newcomer(id, ep, now, direct); Ticked(p, id, [], now, pass, authorize, limits) == p
  {
    var p := Newcomer(id, ep, now, direct);
    SilentTicked(p, id, now, pass, authorize, limits);
    IdleShake(p, id, now, pass, authorize);
  }

  lemma NewInStep(h: Host, now: nat, input: TickInput, io: Transport)
    requires BringsNew(h, now, input, io)
    ensures InStep(Tick(h, now, input, io))
  {
    TickKeeps(h, now, input, io);
  }

  /** A newcomer that has not sent anything yet is there after the tick, waiting for its Hello. */
  lemma NewcomerWaits(h: Host, now: nat, input: TickInput, io: Transport, j: nat)
    requires BringsNew(h, now, input, io) && j < |input.accepted| && |h.table| + j < h.maxConnections
    requires From(input.received, input.accepted[j]) == []
    ensures WaitsForHello(Tick(h, now, input, io), h.nextId + j, input.accepted[j], now)
  {
    hide Tick, Ticked, Inv, InStep, Orderly, BringsNew, PeerOf, Newcomer, WaitsForHello, From, Directs, Distinct,
         Welcome, Told;
    var id, ep := h.nextId + j, input.accepted[j];
    var direct := Directs(h.sends, ep);
    NewcomersAreServed(h, now, input, io, j);
    NewInStep(h, now, input, io);
    NewcomerTicked(id, ep, now, direct, h.passes + 1, input.authorize, h.limits);
    WaitsFromPeer(Tick(h, now, input, io), id, ep, now, direct);
  }

  // ---------------------------------------------------------------------- who is turned away

  lemma {:induction false} FullAccept(g: Host, e: u32, now: nat, io: Transport, ep: u32)
    requires |g.table| >= g.maxConnections
    ensures var a := Accept(g, e, now, io);
      && a == g.(sends := a.sends, rejected := g.rejected + 1)
      && Directs(a.sends, ep) == Directs(g.sends, ep) + if e == ep then [BYE] else []
  {
    DirectsSnoc(g.sends, SendRecord(e, BYE, io(|g.sends|), None), ep);
  }

  /** A Bye for every time the endpoint is among the first n. */
  ghost function Byes(eps: seq<u32>, ep: u32): seq<OutPacket> {
    if eps == [] then [] else Byes(eps[..|eps| - 1], ep) + if eps[|eps| - 1] == ep then [BYE] else []
  }

  lemma {:induction false} FullAccepts(g: Host, eps: seq<u32>, i: nat, now: nat, io: Transport, ep: u32, before: Host)
    requires i <= |eps| && |g.table| >= g.maxConnections && |before.table| >= before.maxConnections
    requires g == before.(sends := g.sends, rejected := before.rejected + i)
    requires Directs(g.sends, ep) == Directs(before.sends, ep) + Byes(eps[..i], ep)
    ensures var a := AcceptFrom(g, eps, i, now, io);
      && a == before.(sends := a.sends, rejected := before.rejected + |eps|)
      && Directs(a.sends, ep) == Directs(before.sends, ep) + Byes(eps, ep)
    decreases |eps| - i
  {
    if i < |eps| {
      FullAccept(g, eps[i], now, io, ep);
      assert eps[..i + 1][..i] == eps[..i];
      FullAccepts(Accept(g, eps[i], now, io), eps, i + 1, now, io, ep, before);
    } else {
      assert eps[..i] == eps;
    }
  }

  /** Behind the accepts, what is sent to an endpoint that nobody has stays what it is. */
  lemma {:induction false} StrangerHears(a: Host, now: nat, input: TickInput, io: Transport, ep: u32)
    requires Inv(a) && Unpaced(a) && ep !in a.route
    ensures var r := RouteFrom(a, input.received, 0, now, io);
      var h1 := DisconnectFrom(r, TimedOut(r, now), 0, Timeout, io);
      Directs(Drain(Progress(h1, now, input.authorize, io), io).sends, ep) == Directs(a.sends, ep)
  {
    NobodyIsZero(a, ep);
    hide InStep, Told, Untouched, Progress, Drain;
    RestServes(a, now, input, io, 0, ep, a.limits, a.passes);
    GoneIsServed(PeerOf(a, 0, ep), 0, ep, input.received, now, a.passes, input.authorize, a.limits);
  }

  lemma NobodyIsZero(a: Host, ep: u32)
    requires InStep(a) && ep !in a.route
    ensures Holds(a, 0, ep, a.limits, a.passes) && PeerOf(a, 0, ep).row.None?
  {
    forall k | k in a.table ensures k > 0 {
      assert RowOk(a, k);
    }
  }

  lemma {:induction false} GoneHears(p: Peer, id: nat, ep: u32, dgs: seq<Datagram>, n: nat, now: nat)
    requires n <= |dgs| && p.row.None?
    ensures HearAll(p, id, ep, dgs, n, now) == p
  {
    if n > 0 {
      GoneHears(p, id, ep, dgs, n - 1, now);
    }
  }

  lemma GoneIsServed(p: Peer, id: nat, ep: u32, dgs: seq<Datagram>, now: nat, pass: nat, authorize: Authenticator,
                     limits: Limits)
    requires p.row.None?
    ensures Served(p, id, ep, dgs, now, pass, authorize, limits) == p
  {
    GoneHears(p, id, ep, dgs, |dgs|, now);
  }

  /** At a full table every endpoint that surfaces is turned away with a Bye, and no connection is made. */
  lemma {:induction false} FullTurnsAway(h: Host, now: nat, input: TickInput, io: Transport, ep: u32)
    requires Inv(h) && Orderly(h, now, input, io) && h.running
    requires |h.table| >= h.maxConnections && ep !in h.route
    ensures Directs(Tick(h, now, input, io).sends, ep) == Directs(h.sends, ep) + Byes(input.accepted, ep)
    ensures Tick(h, now, input, io).nextId == h.nextId
    ensures Tick(h, now, input, io).rejected == h.rejected + |input.accepted|
  {
    hide Inv, Orderly, Unpaced, Progress, Drain, Tick, AcceptFrom, RouteFrom, DisconnectFrom, TimedOut, Directs, Byes;
    var a := AcceptFrom(Counted(h), input.accepted, 0, now, io);
    AllTurnedAway(h, now, input, io, ep, a);
    StrangerHears(a, now, input, io, ep);
    TickPhases(h, now, input, io);
    RestCounts(a, now, input, io);
  }

  lemma {:induction false} AllTurnedAway(h: Host, now: nat, input: TickInput, io: Transport, ep: u32, a: Host)
    requires Inv(h) && Orderly(h, now, input, io) && h.running && |h.table| >= h.maxConnections
    requires a == AcceptFrom(Counted(h), input.accepted, 0, now, io)
    ensures Inv(a) && Unpaced(a) && a.route == h.route && a.nextId == h.nextId
    ensures a.rejected == h.rejected + |input.accepted|
    ensures Directs(a.sends, ep) == Directs(h.sends, ep) + Byes(input.accepted, ep)
  {
    hide InStep, Told, Untouched, AcceptFrom, Directs;
    var h0, eps := Counted(h), input.accepted;
    NewPass(h);
    assert eps[..0] == [];
    FullAccepts(h0, eps, 0, now, io, ep, h0);
    AcceptFromKeeps(h0, eps, 0, now, io);
    SamePassUnpaced(h0, a);
  }

  /** Behind the accepts nobody is let in and nobody turned away. */
  lemma {:induction false} RestCounts(a: Host, now: nat, input: TickInput, io: Transport)
    ensures var r := RouteFrom(a, input.received, 0, now, io);
      var h1 := DisconnectFrom(r, TimedOut(r, now), 0, Timeout, io);
      var d := Drain(Progress(h1, now, input.authorize, io), io);
      d.nextId == a.nextId && d.rejected == a.rejected
  {
    var P := Counting(a.nextId, a.rejected);
    var rest := TickInput([], input.received, input.authorize);
    CountingSafe(a.nextId, a.rejected, now, rest, io);
    RouteFromRule(P, a, 0, now, rest, io);
    var r := RouteFrom(a, input.received, 0, now, io);
    DisconnectFromRule(P, r, TimedOut(r, now), 0, Timeout, io);
    var h1 := DisconnectFrom(r, TimedOut(r, now), 0, Timeout, io);
    ProgressRule(P, h1, now, rest, io);
    var h2 := Progress(h1, now, input.authorize, io);
    DrainFromRule(P, h2, Ids(h2), 0, 0, io);
  }

  ghost function Counting(nextId: nat, rejected: nat): Host -> bool {
    (g: Host) => g.nextId == nextId && g.rejected == rejected
  }

  lemma AdvanceCounts(g: Host, id: nat, now: nat, authorize: Authenticator, io: Transport)
    ensures var g' := AdvanceOne(g, id, now, authorize, io); g'.nextId == g.nextId && g'.rejected == g.rejected
  {
    if id in g.conns && g.conns[id].inbox != [] && id in g.table {
      var allow := authorize(g.table[id], g.conns[id].inbox[0].nonce);
      var res := Advance(id, g.table[id].handshake, g.conns[id].inbox[0], allow);
      var g1 := Consume(g, id, allow);
      assert g1.nextId == g.nextId && g1.rejected == g.rejected;
      match res.drop {
        case Some(reason) => DisconnectCounts(g1, id, reason, io);
        case None => PromoteCounts(g1, id, res.outbound, now);
      }
    }
  }

  lemma DisconnectCounts(g: Host, id: nat, reason: DisconnectReason, io: Transport)
    ensures var g' := Disconnect(g, id, reason, io); g'.nextId == g.nextId && g'.rejected == g.rejected
  {
  }

  lemma PromoteCounts(g: Host, id: nat, out: Option<OutboundControl>, now: nat)
    requires id in g.table && id in g.conns
    ensures var g' := Promote(Reply(g, id, out), id, now); g'.nextId == g.nextId && g'.rejected == g.rejected
  {
  }

  lemma RouteCounts(g: Host, dg: Datagram, now: nat, io: Transport)
    ensures var g' := Route(g, dg, now, io); g'.nextId == g.nextId && g'.rejected == g.rejected
  {
    hide DeserializeHandshake, DeserializeHeader, BuildPacket, TickPayload, MintToken, DropMember, DropRow, DropConn;
    if dg.from in g.route && g.route[dg.from] in g.table {
      DisconnectCounts(g.(table := g.table[g.route[dg.from] := g.table[g.route[dg.from]].(lastRecvTick := now)]),
                       g.route[dg.from], Graceful, io);
    }
  }

  lemma CountingSafe(nextId: nat, rejected: nat, now: nat, input: TickInput, io: Transport)
    requires input.accepted == []
    ensures StepSafe(Counting(nextId, rejected), now, input, io) && HandOverSafe(Counting(nextId, rejected))
  {
    hide Route, AdvanceOne;
    var P := Counting(nextId, rejected);
    forall g: Host, dg: Datagram | P(g) ensures P(Route(g, dg, now, io)) {
      RouteCounts(g, dg, now, io);
    }
    forall g: Host, id: nat | P(g) ensures P(AdvanceOne(g, id, now, input.authorize, io)) {
      AdvanceCounts(g, id, now, input.authorize, io);
    }
  }

  // ------------------------------------------------------------------------------- stop

  /** Stopping says Bye to every connection, and tells observers that its member has left. */
  lemma StopTellsEveryone(h: Host, io: Transport, id: nat, ep: u32)
    requires Inv(h) && id in h.conns && h.conns[id].endpoint == ep
    ensures Leaves(h, Stop(h, io), id, ep, Graceful)
  {
    StopEmpties(h, io);
    PeerShows(h, id, ep);
    ConnHolds(h, id, ep);
    hide Told;
    var d := DisconnectFrom(h, Ids(h), 0, Graceful, io);
    DisconnectFromServes(h, Ids(h), 0, Graceful, io, id, ep, h.limits, h.passes);
    ListedIffRow(h, id, ep);
    DroppedIs(PeerOf(h, id, ep), id, Graceful);
    hide InStep, Dropped, Of, Directs, Stop, DisconnectFrom;
    assert Stop(h, io) == d.(running := false);
  }

  lemma ConnHolds(h: Host, id: nat, ep: u32)
    requires InStep(h) && id in h.conns && h.conns[id].endpoint == ep
    ensures Holds(h, id, ep, h.limits, h.passes)
  {
    assert RowOk(h, id);
  }
}
