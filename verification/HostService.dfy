/** A tick serves every connection by the datagrams of its own endpoint alone. */
module HostService {
  import opened Prelude
  import opened Sorted
  import opened NetTypes
  import opened HostModel
  import opened HostInvariant
  import opened HostSteps
  import opened HostTheorems
  import T = HostTimeouts
  import opened HostPeers

  // ------------------------------------------------------------------------- the phases

  lemma AcceptServes(g: Host, e: u32, now: nat, io: Transport, id: nat, ep: u32, limits: Limits, pass: nat)
    requires InStep(g) && Holds(g, id, ep, limits, pass) && id in g.conns
    requires e !in g.route || |g.table| >= g.maxConnections
    ensures var g' := Accept(g, e, now, io);
      && Holds(g', id, ep, limits, pass) && id in g'.conns
      && PeerOf(g', id, ep) == if e == ep then PeerOf(g, id, ep).(direct := PeerOf(g, id, ep).direct + [BYE])
                               else PeerOf(g, id, ep)
  {
    hide Of, Directs;
    FreshId(g);
    DirectsSnoc(g.sends, SendRecord(e, BYE, io(|g.sends|), None), ep);
  }

  lemma {:induction false} AcceptFromServes(
    g: Host, p: Peer, eps: seq<u32>, i: nat, now: nat, io: Transport, id: nat, ep: u32, limits: Limits, pass: nat)
    requires Inv(g) && Holds(g, id, ep, limits, pass) && id in g.conns
    requires i <= |eps| && Welcome(g, eps, i, now, io)
    requires PeerOf(g, id, ep) == TurnedAway(p, ep, eps, i)
    ensures var g' := AcceptFrom(g, eps, i, now, io);
      && Inv(g') && Holds(g', id, ep, limits, pass)
      && PeerOf(g', id, ep) == TurnedAway(p, ep, eps, |eps|)
    decreases |eps| - i
  {
    if i < |eps| {
      hide Told, Holds, PeerOf, Accept;
      AcceptServes(g, eps[i], now, io, id, ep, limits, pass);
      AcceptKeeps(g, eps[i], now, io);
      AcceptFromServes(Accept(g, eps[i], now, io), p, eps, i + 1, now, io, id, ep, limits, pass);
    }
  }

  lemma {:induction false} RouteFromServes(
    g: Host, p: Peer, dgs: seq<Datagram>, i: nat, now: nat, io: Transport,
    id: nat, ep: u32, limits: Limits, pass: nat)
    requires Inv(g) && Holds(g, id, ep, limits, pass) && i <= |dgs|
    requires PeerOf(g, id, ep) == HearAll(p, id, ep, dgs, i, now)
    ensures var g' := RouteFrom(g, dgs, i, now, io);
      && Inv(g') && Holds(g', id, ep, limits, pass)
      && PeerOf(g', id, ep) == HearAll(p, id, ep, dgs, |dgs|, now)
    decreases |dgs| - i
  {
    if i < |dgs| {
      hide Told, Holds, PeerOf, Route, Hear;
      RouteServes(g, dgs[i], now, io, id, ep, limits, pass);
      RouteKeeps(g, dgs[i], now, io);
      RouteFromServes(Route(g, dgs[i], now, io), p, dgs, i + 1, now, io, id, ep, limits, pass);
    }
  }

  lemma DroppedTwice(p: Peer, id: nat, reason: DisconnectReason)
    ensures Dropped(Dropped(p, id, reason), id, reason) == Dropped(p, id, reason)
  {
  }

  lemma DropListed(p: Peer, ids: seq<nat>, i: nat, id: nat, reason: DisconnectReason)
    requires i < |ids|
    ensures var q := if ids[i] == id then Dropped(p, id, reason) else p;
      (if id in ids[i + 1..] then Dropped(q, id, reason) else q) == if id in ids[i..] then Dropped(p, id, reason) else p
  {
    hide Dropped;
    DroppedTwice(p, id, reason);
    assert ids[i..] == [ids[i]] + ids[i + 1..];
  }

  lemma {:induction false} DisconnectFromServes(
    g: Host, ids: seq<nat>, i: nat, reason: DisconnectReason, io: Transport,
    id: nat, ep: u32, limits: Limits, pass: nat)
    requires Inv(g) && Holds(g, id, ep, limits, pass) && i <= |ids|
    ensures var g' := DisconnectFrom(g, ids, i, reason, io);
      && Inv(g') && Holds(g', id, ep, limits, pass)
      && PeerOf(g', id, ep)
           == if id in ids[i..] then Dropped(PeerOf(g, id, ep), id, reason) else PeerOf(g, id, ep)
    decreases |ids| - i
  {
    if i < |ids| {
      hide InStep, Told, Holds, PeerOf, Disconnect, Dropped;
      DisconnectServes(g, ids[i], reason, io, id, ep, limits, pass);
      DisconnectKeeps(g, ids[i], reason, io);
      DisconnectFromServes(Disconnect(g, ids[i], reason, io), ids, i + 1, reason, io, id, ep, limits, pass);
      DropListed(PeerOf(g, id, ep), ids, i, id, reason);
    }
  }

  /** The overdue connection is among those the timeouts list. */
  lemma {:induction false} ExpireServes(g: Host, now: nat, io: Transport, id: nat, ep: u32, limits: Limits, pass: nat)
    requires Inv(g) && Holds(g, id, ep, limits, pass)
    ensures var g' := DisconnectFrom(g, TimedOut(g, now), 0, Timeout, io);
      && Inv(g') && Holds(g', id, ep, limits, pass)
      && PeerOf(g', id, ep) == Expire(PeerOf(g, id, ep), id, now, limits)
  {
    var ids := TimedOut(g, now);
    DisconnectFromServes(g, ids, 0, Timeout, io, id, ep, limits, pass);
    ListingIsAscending(Overdue(g.table, now, g.limits));
    assert ids[0..] == ids;
    assert id in ids <==> id in Elems(ids);
    PeerFields(g, id, ep);
  }

  lemma NotAgain(ids: seq<nat>, i: nat, id: nat)
    requires Ascending(ids) && i < |ids|
    ensures ids[i] !in ids[i + 1..]
    ensures id in ids[i..] <==> id == ids[i] || id in ids[i + 1..]
  {
    assert ids[i..] == [ids[i]] + ids[i + 1..];
  }

  lemma {:induction false} AdvanceFromServes(
    g: Host, ids: seq<nat>, i: nat, now: nat, authorize: Authenticator, io: Transport,
    id: nat, ep: u32, limits: Limits, pass: nat)
    requires Inv(g) && Holds(g, id, ep, limits, pass) && i <= |ids| && Ascending(ids)
    requires forall j :: i <= j < |ids| ==> Untouched(g, ids[j])
    ensures var g' := AdvanceFrom(g, ids, i, now, authorize, io);
      && Inv(g') && Holds(g', id, ep, limits, pass)
      && PeerOf(g', id, ep)
           == if id in ids[i..] then Shake(PeerOf(g, id, ep), id, now, pass, authorize) else PeerOf(g, id, ep)
    decreases |ids| - i
  {
    if i < |ids| {
      hide Inv, Holds, PeerOf, AdvanceOne, Shake, Untouched;
      AdvanceServes(g, ids[i], now, authorize, io, id, ep, limits, pass);
      AdvanceOneKeeps(g, ids[i], now, authorize, io);
      var g1 := AdvanceOne(g, ids[i], now, authorize, io);
      forall j | i + 1 <= j < |ids| ensures Untouched(g1, ids[j]) {
        AdvanceOneUntouched(g, ids[i], now, authorize, io, ids[j]);
      }
      AdvanceFromServes(g1, ids, i + 1, now, authorize, io, id, ep, limits, pass);
      NotAgain(ids, i, id);
    }
  }

  lemma {:induction false} HeartbeatFromServes(
    g: Host, ids: seq<nat>, i: nat, now: nat, id: nat, ep: u32, limits: Limits, pass: nat)
    requires Inv(g) && Holds(g, id, ep, limits, pass) && i <= |ids| && Ascending(ids)
    ensures var g' := HeartbeatFrom(g, ids, i, now);
      && Holds(g', id, ep, limits, pass)
      && PeerOf(g', id, ep) == if id in ids[i..] then Beat(PeerOf(g, id, ep), now, limits) else PeerOf(g, id, ep)
    decreases |ids| - i
  {
    if i < |ids| {
      hide Told, Holds, PeerOf, Heartbeat, Beat;
      HeartbeatServes(g, ids[i], now, id, ep, limits, pass);
      HeartbeatKeeps(g, ids[i], now);
      HeartbeatFromServes(Heartbeat(g, ids[i], now), ids, i + 1, now, id, ep, limits, pass);
      NotAgain(ids, i, id);
    }
  }

  /** The ids of the rows, and nobody else's turn matters: a connection that is gone is past all this. */
  lemma ListedIffRow(g: Host, id: nat, ep: u32)
    requires InStep(g)
    ensures Ascending(Ids(g)) && Ids(g)[0..] == Ids(g) && (id in Ids(g) <==> PeerOf(g, id, ep).row.Some?)
  {
    ListingIsAscending(g.table.Keys);
    assert id in Ids(g) <==> id in Elems(Ids(g));
  }

  lemma ProgressServes(g: Host, now: nat, authorize: Authenticator, io: Transport,
                       id: nat, ep: u32, limits: Limits, pass: nat)
    requires Inv(g) && Unpaced(g) && Holds(g, id, ep, limits, pass)
    ensures PeerOf(Progress(g, now, authorize, io), id, ep)
         == Beat(Shake(PeerOf(g, id, ep), id, now, pass, authorize), now, limits)
  {
    hide Told, Holds, PeerOf, Routed, Rows, Membership;
    ListedIffRow(g, id, ep);
    AdvanceFromServes(g, Ids(g), 0, now, authorize, io, id, ep, limits, pass);
    var g1 := AdvanceFrom(g, Ids(g), 0, now, authorize, io);
    ListedIffRow(g1, id, ep);
    HeartbeatFromServes(g1, Ids(g1), 0, now, id, ep, limits, pass);
  }

  lemma HandOverServes(id: nat, ep: u32, p: Peer)
    ensures HandOverSafe((g: Host) => PeerOf(g, id, ep) == p)
  {
    hide Of, Directs;
    forall g: Host, k: nat, o: TransportOutcome | PeerOf(g, id, ep) == p && k in g.conns && g.conns[k].outbox != []
      ensures PeerOf(HandOver(g, k, o), id, ep) == p
    {
      DirectsSnoc(g.sends, SendRecord(g.conns[k].endpoint, g.conns[k].outbox[0], o, Some(k)), ep);
    }
  }

  lemma DrainServes(g: Host, io: Transport, id: nat, ep: u32)
    ensures PeerOf(Drain(g, io), id, ep) == PeerOf(g, id, ep)
  {
    var p := PeerOf(g, id, ep);
    HandOverServes(id, ep, p);
    DrainFromRule((h: Host) => PeerOf(h, id, ep) == p, g, Ids(g), 0, 0, io);
  }

  // ---------------------------------------------------------------------------- the tick

  /** The phases behind the accepts, for any connection that is there when they begin. */
  lemma {:induction false} RestServes(a: Host, now: nat, input: TickInput, io: Transport,
                                      id: nat, ep: u32, limits: Limits, pass: nat)
    requires Inv(a) && Unpaced(a) && Holds(a, id, ep, limits, pass)
    ensures var r := RouteFrom(a, input.received, 0, now, io);
      var h1 := DisconnectFrom(r, TimedOut(r, now), 0, Timeout, io);
      PeerOf(Drain(Progress(h1, now, input.authorize, io), io), id, ep)
        == Served(PeerOf(a, id, ep), id, ep, input.received, now, pass, input.authorize, limits)
  {
    hide Told, Holds, PeerOf, InStep, Untouched, Progress, Hear, Expire, Shake, Beat;
    RouteFromServes(a, PeerOf(a, id, ep), input.received, 0, now, io, id, ep, limits, pass);
    var r := RouteFrom(a, input.received, 0, now, io);
    ExpireServes(r, now, io, id, ep, limits, pass);
    var h1 := DisconnectFrom(r, TimedOut(r, now), 0, Timeout, io);
    RouteFromKeeps(a, input.received, 0, now, io);
    DisconnectFromKeeps(r, TimedOut(r, now), 0, Timeout, io);
    SamePassUnpaced(a, h1);
    ProgressServes(h1, now, input.authorize, io, id, ep, limits, pass);
    DrainServes(Progress(h1, now, input.authorize, io), io, id, ep);
  }

  lemma {:induction false} TickPhases(h: Host, now: nat, input: TickInput, io: Transport)
    requires h.running
    ensures var a := AcceptFrom(h.(passes := h.passes + 1), input.accepted, 0, now, io);
      var r := RouteFrom(a, input.received, 0, now, io);
      var h1 := DisconnectFrom(r, TimedOut(r, now), 0, Timeout, io);
      Tick(h, now, input, io) == Drain(Progress(h1, now, input.authorize, io), io)
  {
    hide AcceptFrom, RouteFrom, DisconnectFrom, TimedOut, Progress, Drain;
  }

  lemma LiveHolds(h: Host, id: nat, ep: u32)
    requires InStep(h) && id in h.conns && h.conns[id].endpoint == ep
    ensures var h0 := h.(passes := h.passes + 1);
      Holds(h0, id, ep, h.limits, h.passes + 1) && PeerOf(h0, id, ep) == PeerOf(h, id, ep)
  {
    assert RowOk(h, id);
  }

  /**
   * Whatever the other connections do, a tick of a running host does to a live connection what the datagrams of
   * its own endpoint, its own deadlines and its own waiting message call for, and nothing else.
   */
  lemma {:induction false} TickServes(h: Host, now: nat, input: TickInput, io: Transport, id: nat, ep: u32)
    requires Inv(h) && Orderly(h, now, input, io) && h.running && id in h.conns && h.conns[id].endpoint == ep
    ensures PeerOf(Tick(h, now, input, io), id, ep)
         == Served(TurnedAway(PeerOf(h, id, ep), ep, input.accepted, |input.accepted|), id, ep,
                             input.received, now, h.passes + 1, input.authorize, h.limits)
  {
    hide InStep, Told, Holds, PeerOf, Untouched, Progress, Drain, Tick, Served;
    var h0 := h.(passes := h.passes + 1);
    NewPass(h);
    LiveHolds(h, id, ep);
    AcceptFromServes(h0, PeerOf(h, id, ep), input.accepted, 0, now, io, id, ep, h.limits, h.passes + 1);
    AcceptFromKeeps(h0, input.accepted, 0, now, io);
    var a := AcceptFrom(h0, input.accepted, 0, now, io);
    SamePassUnpaced(h0, a);
    RestServes(a, now, input, io, id, ep, h.limits, h.passes + 1);
    TickPhases(h, now, input, io);
  }
}
