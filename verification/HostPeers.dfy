/**
 * One connection as its peer sees it, and what a tick does to it. Whatever the other connections do, a tick
 * serves each one by the datagrams of its own endpoint alone.
 */
module HostPeers {
  import opened Prelude
  import opened Sorted
  import opened NetTypes
  import opened HostModel
  import opened HostInvariant
  import opened HostSteps
  import opened HostTheorems
  import T = HostTimeouts

  /**
   * Everything the host keeps about one connection, whose endpoint is known: its row, None once it is gone,
   * what waits to be read, what was ever queued, consumed and told, since when it is a member, and the
   * packets sent to the endpoint outside any outbox.
   */
  datatype Peer = Peer(
    row: Option<Connection>, inbox: seq<HandshakeMessage>, outSequence: u16, queued: seq<OutPacket>,
    consumed: seq<Consumed>, told: seq<Notice>, joined: Option<nat>, direct: seq<OutPacket>)

  ghost function Directs(sends: seq<SendRecord>, ep: u32): seq<OutPacket> {
    if sends == [] then []
    else
      var n := |sends| - 1;
      Directs(sends[..n], ep) + if sends[n].source == None && sends[n].to == ep then [sends[n].packet] else []
  }

  lemma {:induction false} DirectsSnoc(sends: seq<SendRecord>, r: SendRecord, ep: u32)
    ensures Directs(sends + [r], ep) == Directs(sends, ep) + if r.source == None && r.to == ep then [r.packet] else []
  {
    SnocSplit(sends, r);
  }

  ghost function PeerOf(h: Host, id: nat, ep: u32): Peer {
    var queued, consumed, told := Of(h.queued, id), Of(h.consumed, id), Of(h.observed, id);
    if id in h.table && id in h.conns
    then Peer(Some(h.table[id]), h.conns[id].inbox, h.conns[id].outSequence, queued, consumed, told,
              if id in h.members then Some(h.members[id]) else None, Directs(h.sends, ep))
    else Peer(None, [], 0, queued, consumed, told, None, Directs(h.sends, ep))
  }

  // ------------------------------------------------------------------ what is done to one

  /** The connection is dropped: it gets a Bye, and observers hear of a leave if it was a member. */
  ghost function Dropped(p: Peer, id: nat, reason: DisconnectReason): Peer {
    if p.row.None? then p
    else
      var leave := if p.joined.Some? then [Left(reason, MintToken(id, p.joined.value))] else [];
      Peer(None, [], 0, p.queued, p.consumed, p.told + leave, None, p.direct + [BYE])
  }

  /** One more control packet is queued, under the next sequence number. */
  ghost function Posted(p: Peer, message: u16, payload: seq<u8>): Peer {
    p.(queued := p.queued + [OutPacket(Reliable, BuildPacket(message, Reliable, p.outSequence, payload))],
       outSequence := (p.outSequence + 1) % 0x1_0000)
  }

  /** A handshake message waits its turn, a ping is answered, a bye ends the connection; the rest is not for it. */
  ghost function Read(p: Peer, id: nat, message: u16, body: seq<u8>, now: nat): Peer {
    if IsHandshakeId(message) then
      var m := DeserializeHandshake(message, body);
      if m.None? then p else p.(inbox := p.inbox + [m.value])
    else if message == MSG_PING then Posted(p, MSG_PONG, TickPayload(now))
    else if message == MSG_BYE then Dropped(p, id, Graceful)
    else p
  }

  ghost function Stamped(p: Peer, now: nat): Peer
    requires p.row.Some?
  {
    p.(row := Some(p.row.value.(lastRecvTick := now)))
  }

  /** The host reads one datagram from the connection's endpoint. */
  ghost function Hear(p: Peer, id: nat, bytes: seq<u8>, now: nat): Peer {
    if p.row.None? || DeserializeHeader(bytes).None? then p
    else Read(Stamped(p, now), id, DeserializeHeader(bytes).value.messageId, bytes[HEADER_SIZE..], now)
  }

  /** Of the first n datagrams, those from its endpoint, in order. */
  ghost function HearAll(p: Peer, id: nat, ep: u32, dgs: seq<Datagram>, n: nat, now: nat): Peer
    requires n <= |dgs|
  {
    if n == 0 then p
    else
      var q := HearAll(p, id, ep, dgs, n - 1, now);
      if dgs[n - 1].from == ep then Hear(q, id, dgs[n - 1].bytes, now) else q
  }

  ghost function Expire(p: Peer, id: nat, now: nat, limits: Limits): Peer {
    if p.row.Some? && Expired(p.row.value, now, limits) then Dropped(p, id, Timeout) else p
  }

  /** An established connection becomes a member. */
  ghost function Joins(p: Peer, now: nat): Peer
    requires p.row.Some?
  {
    p.(row := Some(p.row.value.(state := Connected, establishedTick := now, lastSendTick := now)),
       joined := if p.joined.Some? then p.joined else Some(now),
       told := if p.joined.Some? then p.told else p.told + [Joined(now)])
  }

  /** The oldest waiting message is read, and acts on the handshake. */
  ghost function ReadNext(p: Peer, id: nat, pass: nat, allow: bool): Peer
    requires p.row.Some? && p.inbox != []
  {
    var c, m := p.row.value, p.inbox[0];
    var res := Advance(id, c.handshake, m, allow);
    p.(row := Some(c.(handshake := res.state)), inbox := p.inbox[1..],
       consumed := p.consumed + [Consumed(pass, m, allow, c.handshake, res.state)])
  }

  ghost function Replied(p: Peer, out: Option<OutboundControl>): Peer {
    if out.Some? then Posted(p, out.value.id, HandshakePayload(out.value.nonce)) else p
  }

  ghost function Settled(p: Peer, res: HandshakeResult, now: nat): Peer {
    if res.state == Established && p.row.Some? then Joins(p, now) else p
  }

  /** At most one waiting message moves the handshake on, or ends the connection. */
  ghost function Shake(p: Peer, id: nat, now: nat, pass: nat, authorize: Authenticator): Peer {
    if p.row.None? || p.inbox == [] then p
    else
      var allow := authorize(p.row.value, p.inbox[0].nonce);
      var res := Advance(id, p.row.value.handshake, p.inbox[0], allow);
      var read := ReadNext(p, id, pass, allow);
      if res.drop.Some? then Dropped(read, id, res.drop.value)
      else Settled(Replied(read, res.outbound), res, now)
  }

  /** A Connected peer that was sent nothing for the interval is pinged. */
  ghost function Beat(p: Peer, now: nat, limits: Limits): Peer {
    if p.row.Some? && p.row.value.state == Connected && now >= p.row.value.lastSendTick + limits.heartbeatTicks
    then Posted(p, MSG_PING, TickPayload(now)).(row := Some(p.row.value.(lastSendTick := now)))
    else p
  }

  /** All of a tick, once its accepts are done. */
  ghost function Served(p: Peer, id: nat, ep: u32, dgs: seq<Datagram>, now: nat, pass: nat,
                        authorize: Authenticator, limits: Limits): Peer
  {
    Beat(Shake(Expire(HearAll(p, id, ep, dgs, |dgs|, now), id, now, limits), id, now, pass, authorize), now, limits)
  }

  /** Every time its endpoint surfaces again it is turned away with a Bye. */
  ghost function TurnedAway(p: Peer, ep: u32, eps: seq<u32>, n: nat): Peer
    requires n <= |eps|
  {
    if n == 0 then p
    else
      var q := TurnedAway(p, ep, eps, n - 1);
      if eps[n - 1] == ep then q.(direct := q.direct + [BYE]) else q
  }

  // ------------------------------------------------------------------- the steps, on one

  /** Connection id has the endpoint, or had it and nobody has it now; limits and pass are these. */
  ghost predicate Holds(g: Host, id: nat, ep: u32, limits: Limits, pass: nat) {
    && id < g.nextId && g.limits == limits && g.passes == pass
    && (id in g.conns ==> g.conns[id].endpoint == ep)
    && (forall k :: k in g.conns && g.conns[k].endpoint == ep ==> k == id)
  }

  lemma DisconnectAbsent(g: Host, k: nat, reason: DisconnectReason, io: Transport)
    requires InStep(g) && k !in g.table
    ensures Disconnect(g, k, reason, io) == g
  {
  }

  /** The member's leave, among what observers hear. */
  lemma {:induction false} LeaveTold(g: Host, k: nat, reason: DisconnectReason, id: nat)
    requires k in g.members
    ensures Of(g.observed + [Entry(k, Left(reason, MintToken(k, g.members[k])))], id)
         == Of(g.observed, id) + if k == id then [Left(reason, MintToken(k, g.members[k]))] else []
  {
    OfSnoc(g.observed, Entry(k, Left(reason, MintToken(k, g.members[k]))), id);
  }

  lemma {:induction false} RemovedServes(g: Host, g': Host, k: nat, reason: DisconnectReason, bye: SendRecord,
                                         id: nat, ep: u32, limits: Limits, pass: nat)
    requires InStep(g) && Holds(g, id, ep, limits, pass) && k in g.table && Removed(g, g', k)
    requires g'.limits == g.limits && g'.sends == g.sends + [bye] && bye.source == None && bye.packet == BYE
    requires bye.to == g.table[k].endpoint
    requires Of(g'.observed, id) == Of(g.observed, id)
      + if k == id && k in g.members then [Left(reason, MintToken(k, g.members[k]))] else []
    ensures Holds(g', id, ep, limits, pass)
    ensures PeerOf(g', id, ep) == if k == id then Dropped(PeerOf(g, id, ep), id, reason) else PeerOf(g, id, ep)
  {
    hide Of, MintToken, Directs, Routed, Membership;
    assert RowOk(g, k);
    DirectsSnoc(g.sends, bye, ep);
  }

  lemma DisconnectServes(g: Host, k: nat, reason: DisconnectReason, io: Transport,
                         id: nat, ep: u32, limits: Limits, pass: nat)
    requires InStep(g) && Holds(g, id, ep, limits, pass)
    ensures var g' := Disconnect(g, k, reason, io);
      && Holds(g', id, ep, limits, pass)
      && PeerOf(g', id, ep) == if k == id then Dropped(PeerOf(g, id, ep), id, reason) else PeerOf(g, id, ep)
  {
    if k !in g.table {
      DisconnectAbsent(g, k, reason, io);
    } else {
      var g' := Disconnect(g, k, reason, io);
      DisconnectRemoves(g, k, reason, io);
      DisconnectLimits(g, k, reason, io);
      if k in g.members {
        LeaveTold(g, k, reason, id);
      }
      hide Holds, InStep, Disconnect, Removed, PeerOf, Of, Dropped;
      RemovedServes(g, g', k, reason, SendRecord(g.table[k].endpoint, BYE, io(|g.sends|), None),
                    id, ep, limits, pass);
    }
  }

  lemma DisconnectLimits(g: Host, k: nat, reason: DisconnectReason, io: Transport)
    ensures Disconnect(g, k, reason, io).limits == g.limits
  {
  }

  lemma EnqueueServes(g: Host, k: nat, message: u16, payload: seq<u8>, id: nat, ep: u32, limits: Limits, pass: nat)
    requires g.conns.Keys == g.table.Keys && k in g.conns && Holds(g, id, ep, limits, pass)
    ensures var g' := Enqueue(g, k, message, payload);
      && Holds(g', id, ep, limits, pass)
      && PeerOf(g', id, ep) == if k == id then Posted(PeerOf(g, id, ep), message, payload) else PeerOf(g, id, ep)
  {
    var c := g.conns[k];
    OfSnoc(g.queued, Entry(k, OutPacket(Reliable, BuildPacket(message, Reliable, c.outSequence, payload))), id);
  }

  /** Only the endpoint's own datagrams are routed to the connection. */
  lemma RoutedTo(g: Host, from: u32, id: nat, ep: u32, limits: Limits, pass: nat)
    requires InStep(g) && Holds(g, id, ep, limits, pass)
    ensures from in g.route && g.route[from] == id <==> from == ep && id in g.conns
    ensures from in g.route ==> g.route[from] in g.table
  {
  }

  /** The row of connection k is stamped. */
  lemma StampServes(g: Host, k: nat, now: nat, id: nat, ep: u32, limits: Limits, pass: nat)
    requires InStep(g) && Holds(g, id, ep, limits, pass) && k in g.table
    ensures var g' := g.(table := g.table[k := g.table[k].(lastRecvTick := now)]);
      && InStep(g') && Holds(g', id, ep, limits, pass)
      && PeerOf(g', id, ep) == if k == id then PeerOf(g, id, ep).(row := Some(g.table[id].(lastRecvTick := now)))
                               else PeerOf(g, id, ep)
  {
    SameShapeInStep(g, g.(table := g.table[k := g.table[k].(lastRecvTick := now)]));
  }

  lemma DeliverServes(g: Host, k: nat, message: u16, body: seq<u8>, now: nat, io: Transport,
                      id: nat, ep: u32, limits: Limits, pass: nat)
    requires InStep(g) && Holds(g, id, ep, limits, pass) && k in g.conns
    ensures var g' := Deliver(g, k, message, body, now, io);
      && Holds(g', id, ep, limits, pass)
      && PeerOf(g', id, ep) == if k == id then Read(PeerOf(g, id, ep), id, message, body, now) else PeerOf(g, id, ep)
  {
    if IsHandshakeId(message) {
    } else if message == MSG_PING {
      hide InStep, Holds, PeerOf, Enqueue, Posted, Disconnect, Dropped;
      EnqueueServes(g, k, MSG_PONG, TickPayload(now), id, ep, limits, pass);
    } else if message == MSG_BYE {
      hide InStep, Holds, PeerOf, Enqueue, Posted, Disconnect, Dropped;
      DisconnectServes(g, k, Graceful, io, id, ep, limits, pass);
    }
  }

  lemma RouteIs(g: Host, dg: Datagram, now: nat, io: Transport)
    requires InStep(g) && dg.from in g.route && DeserializeHeader(dg.bytes).Some?
    ensures var k := g.route[dg.from];
      && k in g.table && k in g.conns
      && Route(g, dg, now, io)
           == Deliver(g.(table := g.table[k := g.table[k].(lastRecvTick := now)]), k,
                      DeserializeHeader(dg.bytes).value.messageId, dg.bytes[HEADER_SIZE..], now, io)
  {
  }

  /** What is not for anybody, or not readable, is for nobody. */
  lemma RouteDrops(g: Host, dg: Datagram, now: nat, io: Transport, id: nat, ep: u32, limits: Limits, pass: nat)
    requires InStep(g) && Holds(g, id, ep, limits, pass)
    requires dg.from !in g.route || DeserializeHeader(dg.bytes).None?
    ensures var g' := Route(g, dg, now, io);
      Holds(g', id, ep, limits, pass) && PeerOf(g', id, ep) == PeerOf(g, id, ep)
  {
  }

  lemma RouteServes(g: Host, dg: Datagram, now: nat, io: Transport, id: nat, ep: u32, limits: Limits, pass: nat)
    requires InStep(g) && Holds(g, id, ep, limits, pass)
    ensures var g' := Route(g, dg, now, io);
      && Holds(g', id, ep, limits, pass)
      && PeerOf(g', id, ep) == if dg.from == ep then Hear(PeerOf(g, id, ep), id, dg.bytes, now) else PeerOf(g, id, ep)
  {
    RoutedTo(g, dg.from, id, ep, limits, pass);
    Rowless(g, id, ep);
    if dg.from in g.route && DeserializeHeader(dg.bytes).Some? {
      var k := g.route[dg.from];
      RouteIs(g, dg, now, io);
      hide InStep, Holds, PeerOf, Deliver, Route, Read;
      StampServes(g, k, now, id, ep, limits, pass);
      var g1 := g.(table := g.table[k := g.table[k].(lastRecvTick := now)]);
      DeliverServes(g1, k, DeserializeHeader(dg.bytes).value.messageId, dg.bytes[HEADER_SIZE..], now, io,
                    id, ep, limits, pass);
    } else {
      RouteDrops(g, dg, now, io, id, ep, limits, pass);
    }
  }

  /** Without a connection there is no row. */
  lemma Rowless(g: Host, id: nat, ep: u32)
    requires InStep(g)
    ensures PeerOf(g, id, ep).row.Some? <==> id in g.conns
    ensures id in g.conns ==> PeerOf(g, id, ep).row == Some(g.table[id])
  {
  }

  // ------------------------------------------------------------------ the handshake step

  lemma ConsumeServes(g: Host, k: nat, allow: bool, id: nat, ep: u32, limits: Limits, pass: nat)
    requires g.conns.Keys == g.table.Keys && k in g.conns && g.conns[k].inbox != [] && Holds(g, id, ep, limits, pass)
    ensures var g', p := Consume(g, k, allow), PeerOf(g, id, ep);
      && g'.conns.Keys == g'.table.Keys == g.table.Keys && g'.members == g.members && g'.maxMembers == g.maxMembers
      && Holds(g', id, ep, limits, pass)
      && PeerOf(g', id, ep) == if k == id then ReadNext(p, id, pass, allow) else p
  {
    var c, m := g.table[k], g.conns[k].inbox[0];
    var res := Advance(k, c.handshake, m, allow);
    OfSnoc(g.consumed, Entry(k, Consumed(g.passes, m, allow, c.handshake, res.state)), id);
  }

  lemma PromoteServes(g: Host, k: nat, now: nat, id: nat, ep: u32, limits: Limits, pass: nat)
    requires g.conns.Keys == g.table.Keys && k in g.table && Holds(g, id, ep, limits, pass)
    requires g.table[k].handshake == Established ==> k !in g.members && |g.members| < g.maxMembers
    ensures var g', p := Promote(g, k, now), PeerOf(g, id, ep);
      && Holds(g', id, ep, limits, pass)
      && PeerOf(g', id, ep) == if k == id && g.table[id].handshake == Established then Joins(p, now) else p
  {
    if g.table[k].handshake == Established {
      OfSnoc(g.observed, Entry(k, Joined(now)), id);
    }
  }

  /** A refused message leaves the stores in step. */
  lemma RefusedInStep(g: Host, k: nat, allow: bool)
    requires InStep(g) && k in g.table && g.conns[k].inbox != []
    requires Advance(k, g.table[k].handshake, g.conns[k].inbox[0], allow).drop.Some?
    ensures InStep(Consume(g, k, allow))
  {
    RefusedShakes(g, k, allow);
    SameShapeInStep(g, Consume(g, k, allow));
  }

  lemma ReplyServes(g: Host, k: nat, out: Option<OutboundControl>, id: nat, ep: u32, limits: Limits, pass: nat)
    requires g.conns.Keys == g.table.Keys && k in g.conns && Holds(g, id, ep, limits, pass)
    ensures var g', p := Reply(g, k, out), PeerOf(g, id, ep);
      && g'.conns.Keys == g'.table.Keys == g.table.Keys && g'.table == g.table
      && g'.members == g.members && g'.maxMembers == g.maxMembers
      && Holds(g', id, ep, limits, pass)
      && PeerOf(g', id, ep) == if k == id then Replied(p, out) else p
  {
    match out {
      case None =>
      case Some(o) => EnqueueServes(g, k, o.id, HandshakePayload(o.nonce), id, ep, limits, pass);
    }
  }

  lemma AdvancedRoom(g: Host, k: nat, allow: bool)
    requires Inv(g) && k in g.table && g.conns[k].inbox != []
    requires Advance(k, g.table[k].handshake, g.conns[k].inbox[0], allow).drop.None?
    ensures Advance(k, g.table[k].handshake, g.conns[k].inbox[0], allow).state == Established ==>
      k !in g.members && |g.members| < g.maxMembers
  {
    AdvanceOrDrop(g, k, allow);
    assert RowOk(g, k);
    RoomForMember(g, k);
  }

  lemma AdvanceIsDrop(g: Host, k: nat, now: nat, authorize: Authenticator, io: Transport)
    requires k in g.table && k in g.conns && g.conns[k].inbox != []
    ensures var allow := authorize(g.table[k], g.conns[k].inbox[0].nonce);
      var res, g1 := Advance(k, g.table[k].handshake, g.conns[k].inbox[0], allow), Consume(g, k, allow);
      && g1.table[k].handshake == res.state
      && AdvanceOne(g, k, now, authorize, io)
           == if res.drop.Some? then Disconnect(g1, k, res.drop.value, io)
              else Promote(Reply(g1, k, res.outbound), k, now)
  {
  }

  /** What of the stores the peer shows. */
  lemma PeerFields(g: Host, id: nat, ep: u32)
    requires InStep(g)
    ensures g.conns.Keys == g.table.Keys
    ensures var p := PeerOf(g, id, ep);
      && (p.row.Some? <==> id in g.table) && (id in g.table <==> id in g.conns)
      && (id in g.table ==> p.row.value == g.table[id] && p.inbox == g.conns[id].inbox)
  {
  }

  lemma RefusalServes(g: Host, k: nat, allow: bool, reason: DisconnectReason, io: Transport,
                      id: nat, ep: u32, limits: Limits, pass: nat)
    requires InStep(g) && Holds(g, id, ep, limits, pass) && k in g.table && g.conns[k].inbox != []
    requires Advance(k, g.table[k].handshake, g.conns[k].inbox[0], allow).drop == Some(reason)
    ensures var g', p := Disconnect(Consume(g, k, allow), k, reason, io), PeerOf(g, id, ep);
      && Holds(g', id, ep, limits, pass)
      && (k != id ==> PeerOf(g', id, ep) == p)
      && (k == id ==> p.row.Some? && p.inbox != []
                      && PeerOf(g', id, ep) == Dropped(ReadNext(p, id, pass, allow), id, reason))
  {
    PeerFields(g, id, ep);
    RefusedInStep(g, k, allow);
    hide Holds, Consume, Disconnect, Advance, ReadNext, Dropped, PeerOf;
    ConsumeServes(g, k, allow, id, ep, limits, pass);
    DisconnectServes(Consume(g, k, allow), k, reason, io, id, ep, limits, pass);
  }

  lemma AdvanceStepServes(g: Host, k: nat, now: nat, allow: bool, id: nat, ep: u32, limits: Limits, pass: nat)
    requires Inv(g) && Holds(g, id, ep, limits, pass) && k in g.table && g.conns[k].inbox != []
    requires Advance(k, g.table[k].handshake, g.conns[k].inbox[0], allow).drop.None?
    ensures var res := Advance(k, g.table[k].handshake, g.conns[k].inbox[0], allow);
      var g1 := Consume(g, k, allow);
      k in g1.conns && k in g1.table && k in Reply(g1, k, res.outbound).table
    ensures var res := Advance(k, g.table[k].handshake, g.conns[k].inbox[0], allow);
      var g', p := Promote(Reply(Consume(g, k, allow), k, res.outbound), k, now), PeerOf(g, id, ep);
      && Holds(g', id, ep, limits, pass)
      && (k != id ==> PeerOf(g', id, ep) == p)
      && (k == id ==> p.row.Some? && p.inbox != []
                      && PeerOf(g', id, ep) == Settled(Replied(ReadNext(p, id, pass, allow), res.outbound), res, now))
  {
    PeerFields(g, id, ep);
    AdvancedRoom(g, k, allow);
    var res := Advance(k, g.table[k].handshake, g.conns[k].inbox[0], allow);
    var g1 := Consume(g, k, allow);
    assert g1.table[k].handshake == res.state;
    hide Inv, Holds, Consume, Promote, Reply, Advance, ReadNext, Replied, Joins, PeerOf;
    ConsumeServes(g, k, allow, id, ep, limits, pass);
    ReplyServes(g1, k, res.outbound, id, ep, limits, pass);
    PromoteServes(Reply(g1, k, res.outbound), k, now, id, ep, limits, pass);
  }

  lemma AdvanceServes(g: Host, k: nat, now: nat, authorize: Authenticator, io: Transport,
                      id: nat, ep: u32, limits: Limits, pass: nat)
    requires Inv(g) && Holds(g, id, ep, limits, pass)
    ensures var g' := AdvanceOne(g, k, now, authorize, io);
      && Holds(g', id, ep, limits, pass)
      && PeerOf(g', id, ep)
           == if k == id then Shake(PeerOf(g, id, ep), id, now, pass, authorize) else PeerOf(g, id, ep)
  {
    hide InStep, Told;
    assert InStep(g);
    PeerFields(g, id, ep);
    if k in g.table && g.conns[k].inbox != [] {
      var allow := authorize(g.table[k], g.conns[k].inbox[0].nonce);
      var res := Advance(k, g.table[k].handshake, g.conns[k].inbox[0], allow);
      hide AdvanceOne;
      AdvanceIsDrop(g, k, now, authorize, io);
      hide Inv, Holds, Consume, Promote, Reply, AdvanceOne, Disconnect, Advance, ReadNext, Replied, Dropped, Settled,
           PeerOf;
      if res.drop.Some? {
        RefusalServes(g, k, allow, res.drop.value, io, id, ep, limits, pass);
      } else {
        AdvanceStepServes(g, k, now, allow, id, ep, limits, pass);
      }
    }
  }

  lemma HeartbeatServes(g: Host, k: nat, now: nat, id: nat, ep: u32, limits: Limits, pass: nat)
    requires InStep(g) && Holds(g, id, ep, limits, pass)
    ensures var g' := Heartbeat(g, k, now);
      && Holds(g', id, ep, limits, pass)
      && PeerOf(g', id, ep) == if k == id then Beat(PeerOf(g, id, ep), now, limits) else PeerOf(g, id, ep)
  {
    if k in g.table {
      EnqueueServes(g, k, MSG_PING, TickPayload(now), id, ep, limits, pass);
    }
  }
}
