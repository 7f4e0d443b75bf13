/** What a peer gets for what it sends: the laws of one tick, connection by connection. */
module HostLaws {
  import opened Prelude
  import opened Sorted
  import opened Wire
  import opened NetTypes
  import opened HostModel
  import opened HostInvariant
  import opened HostSteps
  import opened HostTheorems
  import opened HostPeers
  import opened HostService

  // --------------------------------------------------------------------- what was received

  /** The datagrams of one endpoint, in order. */
  ghost function From(dgs: seq<Datagram>, ep: u32): seq<seq<u8>> {
    if dgs == [] then []
    else
      var n := |dgs| - 1;
      From(dgs[..n], ep) + if dgs[n].from == ep then [dgs[n].bytes] else []
  }

  ghost function HearList(p: Peer, id: nat, list: seq<seq<u8>>, now: nat): Peer {
    if list == [] then p else Hear(HearList(p, id, list[..|list| - 1], now), id, list[|list| - 1], now)
  }

  lemma {:induction false} HearListSnoc(p: Peer, id: nat, list: seq<seq<u8>>, bytes: seq<u8>, now: nat)
    ensures HearList(p, id, list + [bytes], now) == Hear(HearList(p, id, list, now), id, bytes, now)
  {
    SnocSplit(list, bytes);
  }

  lemma {:induction false} HeardIsFrom(p: Peer, id: nat, ep: u32, dgs: seq<Datagram>, n: nat, now: nat)
    requires n <= |dgs|
    ensures HearAll(p, id, ep, dgs, n, now) == HearList(p, id, From(dgs[..n], ep), now)
  {
    if n > 0 {
      hide Hear;
      HeardIsFrom(p, id, ep, dgs, n - 1, now);
      assert dgs[..n][..n - 1] == dgs[..n - 1];
      var list := From(dgs[..n - 1], ep);
      if dgs[n - 1].from == ep {
        HearListSnoc(p, id, list, dgs[n - 1].bytes, now);
      } else {
        assert list + [] == list;
      }
    }
  }

  lemma {:induction false} HeardOne(p: Peer, id: nat, bytes: seq<u8>, now: nat)
    ensures HearList(p, id, [], now) == p && HearList(p, id, [bytes], now) == Hear(p, id, bytes, now)
  {
    assert [bytes][..0] == [];
  }

  lemma {:induction false} TurnedAwayOnly(p: Peer, ep: u32, eps: seq<u32>, n: nat)
    requires n <= |eps|
    ensures TurnedAway(p, ep, eps, n) == p.(direct := TurnedAway(p, ep, eps, n).direct)
    ensures ep !in eps ==> TurnedAway(p, ep, eps, n) == p
  {
    if n > 0 {
      TurnedAwayOnly(p, ep, eps, n - 1);
    }
  }

  /** The tick as the peer sees it: what came from its endpoint, its deadlines, its waiting message. */
  ghost function Ticked(p: Peer, id: nat, list: seq<seq<u8>>, now: nat, pass: nat, authorize: Authenticator,
                        limits: Limits): Peer
  {
    Beat(Shake(Expire(HearList(p, id, list, now), id, now, limits), id, now, pass, authorize), now, limits)
  }

  /** A live connection of a running host, and a tick that turns nobody away at its endpoint. */
  ghost predicate Live(h: Host, now: nat, input: TickInput, io: Transport, id: nat, ep: u32) {
    && Inv(h) && Orderly(h, now, input, io) && h.running && id in h.conns && h.conns[id].endpoint == ep
    && ep !in input.accepted
  }

  lemma {:induction false} TickIs(h: Host, now: nat, input: TickInput, io: Transport, id: nat, ep: u32)
    requires Live(h, now, input, io, id, ep)
    ensures PeerOf(Tick(h, now, input, io), id, ep)
         == Ticked(PeerOf(h, id, ep), id, From(input.received, ep), now, h.passes + 1, input.authorize, h.limits)
  {
    hide Inv, Orderly, Tick, PeerOf, Hear, Expire, Shake, Beat;
    TickServes(h, now, input, io, id, ep);
    TurnedAwayOnly(PeerOf(h, id, ep), ep, input.accepted, |input.accepted|);
    HeardIsFrom(PeerOf(h, id, ep), id, ep, input.received, |input.received|, now);
    assert input.received[..|input.received|] == input.received;
  }

  /**
   * Nothing that others do matters: on two hosts that keep the same of a connection, ticks that bring the same
   * datagrams from its endpoint leave the same of it.
   */
  lemma {:induction false} TicksIsolate(g: Host, h: Host, now: nat, i: TickInput, j: TickInput,
                                        io: Transport, jo: Transport, id: nat, ep: u32)
    requires Live(g, now, i, io, id, ep) && Live(h, now, j, jo, id, ep)
    requires PeerOf(g, id, ep) == PeerOf(h, id, ep) && g.limits == h.limits && g.passes == h.passes
    requires From(i.received, ep) == From(j.received, ep) && i.authorize == j.authorize
    ensures PeerOf(Tick(g, now, i, io), id, ep) == PeerOf(Tick(h, now, j, jo), id, ep)
  {
    hide Live, Tick, PeerOf, Ticked, From;
    TickIs(g, now, i, io, id, ep);
    TickIs(h, now, j, jo, id, ep);
  }

  // ------------------------------------------------------------------------- what is read

  /** A readable header for this message, and a body. */
  ghost predicate Sent(bytes: seq<u8>, header: PacketHeader, message: u16, body: seq<u8>) {
    HeaderAcceptable(header) && header.messageId == message && bytes == HeaderBytes(header) + body
  }

  lemma SentReads(bytes: seq<u8>, header: PacketHeader, message: u16, body: seq<u8>)
    requires Sent(bytes, header, message, body)
    ensures DeserializeHeader(bytes) == Some(header) && bytes[HEADER_SIZE..] == body
  {
    HeaderRoundTrip(header, body);
  }

  /** The body of a handshake message: version, nonce, and whatever follows. */
  function Body(version: u16, nonce: u32, rest: seq<u8>): seq<u8> {
    LE(version, 2) + LE(nonce, 4) + rest
  }

  lemma BodyReads(message: u16, version: u16, nonce: u32, rest: seq<u8>)
    ensures DeserializeHandshake(message, Body(version, nonce, rest))
         == Some(HandshakeMessage(message, version, nonce))
  {
    var b := Body(version, nonce, rest);
    assert b[0..2] == LE(version, 2) && b[2..6] == LE(nonce, 4);
    Widths();
    LittleEndianRoundTrip(version, 2);
    LittleEndianRoundTrip(nonce, 4);
  }

  /** A packet the peer can read: for this message, under this sequence number, with this body. */
  ghost predicate Reads(packet: OutPacket, message: u16, sequence: u16, body: seq<u8>) {
    && packet.channel == Reliable && DeserializeHeader(packet.bytes).Some?
    && DeserializeHeader(packet.bytes).value.messageId == message
    && DeserializeHeader(packet.bytes).value.sequence == sequence
    && packet.bytes[HEADER_SIZE..] == body
  }

  lemma PostedReads(p: Peer, message: u16, payload: seq<u8>)
    ensures var q := Posted(p, message, payload);
      && |q.queued| == |p.queued| + 1 && q.queued[..|p.queued|] == p.queued
      && Reads(q.queued[|p.queued|], message, p.outSequence, payload)
      && q == p.(queued := q.queued, outSequence := (p.outSequence + 1) % 0x1_0000)
  {
    BuildPacketReadsBack(message, Reliable, p.outSequence, payload);
  }

  lemma PostedThenPinged(p: Peer, message: u16, payload: seq<u8>, ping: seq<u8>)
    ensures var one := Posted(p, message, payload); var two := Posted(one, MSG_PING, ping);
      && |one.queued| == |p.queued| + 1 && |two.queued| == |p.queued| + 2
      && one.queued[..|p.queued|] == p.queued && two.queued[..|p.queued|] == p.queued
      && Reads(one.queued[|p.queued|], message, p.outSequence, payload)
      && two.queued[|p.queued|] == one.queued[|p.queued|]
  {
    PostedReads(p, message, payload);
    PostedReads(Posted(p, message, payload), MSG_PING, ping);
  }

  // ----------------------------------------------------------------- from peer to host

  /** What the stores show of a connection that is there. */
  ghost predicate There(h: Host, p: Peer, id: nat) {
    && p.row.Some? && id in h.table && id in h.conns && h.table[id] == p.row.value
    && h.conns[id].inbox == p.inbox && h.conns[id].outSequence == p.outSequence
    && (id in h.members <==> p.joined.Some?) && (id in h.members ==> p.joined == Some(h.members[id]))
  }

  ghost predicate Away(h: Host, p: Peer, id: nat) {
    p.row.None? && id !in h.table && id !in h.conns && id !in h.members
  }

  ghost predicate Histories(h: Host, p: Peer, id: nat, ep: u32) {
    Of(h.queued, id) == p.queued && Of(h.observed, id) == p.told && Directs(h.sends, ep) == p.direct
  }

  lemma PeerShows(h: Host, id: nat, ep: u32)
    requires InStep(h)
    ensures var p := PeerOf(h, id, ep); (There(h, p, id) || Away(h, p, id)) && Histories(h, p, id, ep)
  {
  }

  /** A live connection, before and after. */
  lemma {:induction false} LiveShows(h: Host, now: nat, input: TickInput, io: Transport, id: nat, ep: u32)
    requires Live(h, now, input, io, id, ep)
    ensures var p, h' := PeerOf(h, id, ep), Tick(h, now, input, io);
      var p' := PeerOf(h', id, ep);
      && There(h, p, id) && Histories(h, p, id, ep)
      && (There(h', p', id) || Away(h', p', id)) && Histories(h', p', id, ep)
      && p' == Ticked(p, id, From(input.received, ep), now, h.passes + 1, input.authorize, h.limits)
    ensures RowOk(h, id) && Told(h, id)
  {
    TickIs(h, now, input, io, id, ep);
    TickKeeps(h, now, input, io);
    PeerShows(h, id, ep);
    PeerShows(Tick(h, now, input, io), id, ep);
    assert RowOk(h, id);
  }

  // --------------------------------------------------------------------- the handshake

  /** A handshake message from a connection that is still in time waits to be read. */
  lemma HandshakeHeard(p: Peer, id: nat, bytes: seq<u8>, header: PacketHeader, message: u16, version: u16, nonce: u32,
                       rest: seq<u8>, now: nat, limits: Limits)
    requires p.row.Some? && p.inbox == [] && IsHandshakeId(message)
    requires p.row.value.handshake == Established || now <= p.row.value.createdTick + limits.handshakeTicks
    requires Sent(bytes, header, message, Body(version, nonce, rest))
    ensures Expire(Hear(p, id, bytes, now), id, now, limits)
         == p.(row := Some(p.row.value.(lastRecvTick := now)), inbox := [HandshakeMessage(message, version, nonce)])
  {
    SentReads(bytes, header, message, Body(version, nonce, rest));
    BodyReads(message, version, nonce, rest);
    hide DeserializeHeader, DeserializeHandshake, HeaderBytes, HeaderAcceptable, Body, Sent;
  }

  lemma HelloTicked(p: Peer, id: nat, bytes: seq<u8>, header: PacketHeader, nonce: u32, rest: seq<u8>,
                    now: nat, pass: nat, authorize: Authenticator, limits: Limits)
    requires p.row.Some? && p.row.value.handshake == NoHandshake && p.row.value.state == Handshaking && p.inbox == []
    requires now <= p.row.value.createdTick + limits.handshakeTicks
    requires Sent(bytes, header, MSG_HELLO, Body(PROTOCOL_VERSION, nonce, rest))
    ensures var q := Ticked(p, id, [bytes], now, pass, authorize, limits);
      && q.row == Some(p.row.value.(lastRecvTick := now, handshake := ChallengeSent))
      && q.inbox == [] && q.told == p.told && q.joined == p.joined && q.direct == p.direct
      && q.queued == Posted(p, MSG_CHALLENGE, HandshakePayload(ServerNonce(id))).queued
  {
    hide Hear, Expire, Sent, ServerNonce, HandshakePayload, BuildPacket;
    HeardOne(p, id, bytes, now);
    HandshakeHeard(p, id, bytes, header, MSG_HELLO, PROTOCOL_VERSION, nonce, rest, now, limits);
  }

  /**
   * A Hello of the protocol's version is answered within the tick: the connection has been challenged, and the
   * one packet queued for it is a Challenge with its server nonce.
   */
  lemma {:induction false} HelloIsAnswered(h: Host, now: nat, input: TickInput, io: Transport, id: nat, ep: u32,
                                           bytes: seq<u8>, header: PacketHeader, nonce: u32, rest: seq<u8>)
    requires Live(h, now, input, io, id, ep) && id in h.table
    requires h.table[id].handshake == NoHandshake && h.conns[id].inbox == []
    requires now <= h.table[id].createdTick + h.limits.handshakeTicks
    requires From(input.received, ep) == [bytes]
    requires Sent(bytes, header, MSG_HELLO, Body(PROTOCOL_VERSION, nonce, rest))
    ensures var h' := Tick(h, now, input, io);
      && id in h'.table && id in h'.conns && id !in h'.members && h'.conns[id].inbox == []
      && h'.table[id] == h.table[id].(lastRecvTick := now, handshake := ChallengeSent)
      && |Of(h'.queued, id)| == |Of(h.queued, id)| + 1 && Of(h'.queued, id)[..|Of(h.queued, id)|] == Of(h.queued, id)
      && Reads(Of(h'.queued, id)[|Of(h.queued, id)|], MSG_CHALLENGE, h.conns[id].outSequence,
               HandshakePayload(ServerNonce(id)))
      && DeserializeHandshake(MSG_CHALLENGE, HandshakePayload(ServerNonce(id)))
           == Some(HandshakeMessage(MSG_CHALLENGE, 0, ServerNonce(id)))
      && Of(h'.observed, id) == Of(h.observed, id)
  {
    LiveShows(h, now, input, io, id, ep);
    LiveMembers(h, now, input, io, id, ep);
    hide Live, Told, Tick, PeerOf, Ticked, Of, Directs, From, Sent, Body, Reads, ServerNonce, RowOk;
    var p := PeerOf(h, id, ep);
    HelloTicked(p, id, bytes, header, nonce, rest, now, h.passes + 1, input.authorize, h.limits);
    PostedReads(p, MSG_CHALLENGE, HandshakePayload(ServerNonce(id)));
    HandshakePayloadReadsBack(MSG_CHALLENGE, ServerNonce(id));
  }

  lemma {:induction false} LiveMembers(h: Host, now: nat, input: TickInput, io: Transport, id: nat, ep: u32)
    requires Live(h, now, input, io, id, ep) && id in h.table
    ensures id in h.members <==> h.table[id].handshake == Established
    ensures h.table[id].handshake != Established ==> Of(h.observed, id) == []
  {
    assert RowOk(h, id) && Told(h, id);
  }

  lemma ResponseShakes(p: Peer, id: nat, m: HandshakeMessage, now: nat, pass: nat, authorize: Authenticator)
    requires p.row.Some? && p.row.value.handshake == ChallengeSent && p.inbox == [m] && p.joined.None?
    requires m.id == MSG_RESPONSE && m.nonce == ServerNonce(id) && authorize(p.row.value, m.nonce)
    ensures var q := Shake(p, id, now, pass, authorize);
      && q.row == Some(p.row.value.(handshake := Established, state := Connected,
                                    establishedTick := now, lastSendTick := now))
      && q.inbox == [] && q.told == p.told + [Joined(now)] && q.joined == Some(now) && q.direct == p.direct
      && q.queued == Posted(p, MSG_ESTABLISHED, HandshakePayload(0)).queued
      && q.outSequence == Posted(p, MSG_ESTABLISHED, HandshakePayload(0)).outSequence
  {
    hide HandshakePayload, BuildPacket, ServerNonce;
  }

  lemma ResponseTicked(p: Peer, id: nat, bytes: seq<u8>, header: PacketHeader, version: u16, rest: seq<u8>,
                       now: nat, pass: nat, authorize: Authenticator, limits: Limits)
    requires p.row.Some? && p.row.value.handshake == ChallengeSent && p.inbox == [] && p.joined.None?
    requires now <= p.row.value.createdTick + limits.handshakeTicks
    requires Sent(bytes, header, MSG_RESPONSE, Body(version, ServerNonce(id), rest))
    requires authorize(p.row.value.(lastRecvTick := now), ServerNonce(id))
    ensures var q := Ticked(p, id, [bytes], now, pass, authorize, limits);
      var answered := Posted(p, MSG_ESTABLISHED, HandshakePayload(0));
      && q.row == Some(p.row.value.(lastRecvTick := now, handshake := Established, state := Connected,
                                    establishedTick := now, lastSendTick := now))
      && q.inbox == [] && q.told == p.told + [Joined(now)] && q.joined == Some(now) && q.direct == p.direct
      && q.queued == (if limits.heartbeatTicks > 0 then answered
                      else Posted(answered, MSG_PING, TickPayload(now))).queued
  {
    hide Hear, Expire, Shake, Sent, ServerNonce, HandshakePayload, TickPayload, BuildPacket;
    HeardOne(p, id, bytes, now);
    HandshakeHeard(p, id, bytes, header, MSG_RESPONSE, version, ServerNonce(id), rest, now, limits);
    var m := HandshakeMessage(MSG_RESPONSE, version, ServerNonce(id));
    ResponseShakes(p.(row := Some(p.row.value.(lastRecvTick := now)), inbox := [m]), id, m, now, pass, authorize);
  }

  /**
   * An authorised Response with the server's nonce admits within the tick: the connection is Connected and a
   * member, observers hear of exactly one join, and the next packet queued for it says so.
   */
  lemma {:induction false} ResponseAdmits(h: Host, now: nat, input: TickInput, io: Transport, id: nat, ep: u32,
                                          bytes: seq<u8>, header: PacketHeader, version: u16, rest: seq<u8>)
    requires Live(h, now, input, io, id, ep) && id in h.table
    requires h.table[id].handshake == ChallengeSent && h.conns[id].inbox == []
    requires now <= h.table[id].createdTick + h.limits.handshakeTicks
    requires From(input.received, ep) == [bytes]
    requires Sent(bytes, header, MSG_RESPONSE, Body(version, ServerNonce(id), rest))
    requires input.authorize(h.table[id].(lastRecvTick := now), ServerNonce(id))
    ensures var h' := Tick(h, now, input, io);
      && id in h'.table && id in h'.conns && id in h'.members && h'.members[id] == now
      && h'.table[id] == h.table[id].(lastRecvTick := now, handshake := Established, state := Connected,
                                      establishedTick := now, lastSendTick := now)
      && h'.conns[id].inbox == [] && Of(h'.observed, id) == [Joined(now)]
      && |Of(h'.queued, id)| == |Of(h.queued, id)| + (if h.limits.heartbeatTicks > 0 then 1 else 2)
      && Of(h'.queued, id)[..|Of(h.queued, id)|] == Of(h.queued, id)
      && Reads(Of(h'.queued, id)[|Of(h.queued, id)|], MSG_ESTABLISHED, h.conns[id].outSequence, HandshakePayload(0))
  {
    LiveShows(h, now, input, io, id, ep);
    LiveMembers(h, now, input, io, id, ep);
    hide Live, Told, Tick, PeerOf, Ticked, Of, Directs, From, Sent, Body, Reads, ServerNonce, HandshakePayload, RowOk;
    var p := PeerOf(h, id, ep);
    ResponseTicked(p, id, bytes, header, version, rest, now, h.passes + 1, input.authorize, h.limits);
    hide There, Away;
    PostedThenPinged(p, MSG_ESTABLISHED, HandshakePayload(0), TickPayload(now));
    assert [] + [Joined(now)] == [Joined(now)];
  }

  /** What a Hello and a Response have to be at their turn. */
  predicate InOrder(id: nat, c: Connection, m: HandshakeMessage, allow: bool) {
    || (c.handshake == NoHandshake && m.id == MSG_HELLO && m.version == PROTOCOL_VERSION)
    || (c.handshake == ChallengeSent && m.id == MSG_RESPONSE && m.nonce == ServerNonce(id) && allow)
  }

  predicate Overdue(c: Connection, now: nat, limits: Limits) {
    if c.handshake != Established then now > c.createdTick + limits.handshakeTicks
    else c.state == Connected && now > c.lastRecvTick + limits.connectionTicks
  }

  lemma OverdueIff(c: Connection, now: nat, limits: Limits)
    ensures Overdue(c, now, limits) <==> Expired(c, now, limits)
  {
  }

  /** Observers hear of a leave exactly if the connection was a member. */
  ghost predicate Leaves(h: Host, h': Host, id: nat, ep: u32, reason: DisconnectReason) {
    && id !in h'.table && id !in h'.conns && id !in h'.members
    && Of(h'.queued, id) == Of(h.queued, id) && Directs(h'.sends, ep) == Directs(h.sends, ep) + [BYE]
    && Of(h'.observed, id) == Of(h.observed, id)
         + if id in h.members then [Left(reason, MintToken(id, h.members[id]))] else []
  }

  /** The tick's outcome, as the stores show it. */
  ghost predicate Shown(h: Host, p: Peer, id: nat, ep: u32) {
    (There(h, p, id) || Away(h, p, id)) && Histories(h, p, id, ep)
  }

  lemma LeavesFrom(h: Host, h': Host, p: Peer, q: Peer, id: nat, ep: u32, reason: DisconnectReason)
    requires There(h, p, id) && Histories(h, p, id, ep) && Shown(h', q, id, ep)
    requires q.row.None? && q.queued == p.queued && q.direct == p.direct + [BYE]
    requires q.told == p.told + if p.joined.None? then [] else [Left(reason, MintToken(id, p.joined.value))]
    ensures Leaves(h, h', id, ep, reason)
  {
    hide Of, Directs, MintToken;
  }

  lemma DroppedIs(p: Peer, id: nat, reason: DisconnectReason)
    requires p.row.Some?
    ensures var q := Dropped(p, id, reason);
      && q.row.None? && q.queued == p.queued && q.direct == p.direct + [BYE]
      && q.told == p.told + if p.joined.None? then [] else [Left(reason, MintToken(id, p.joined.value))]
  {
    hide MintToken;
    assert p.told + [] == p.told;
  }

  lemma ThereFrom(h: Host, q: Peer, id: nat, ep: u32)
    requires Shown(h, q, id, ep) && q.row.Some?
    ensures There(h, q, id) && Histories(h, q, id, ep)
  {
  }

  lemma ThereFields(h: Host, q: Peer, id: nat)
    requires There(h, q, id)
    ensures id in h.table && id in h.conns && q.row == Some(h.table[id]) && h.conns[id].inbox == q.inbox
    ensures id in h.members <==> q.joined.Some?
  {
  }

  lemma {:induction false} HistoryFields(h: Host, q: Peer, id: nat, ep: u32)
    requires Histories(h, q, id, ep)
    ensures Of(h.queued, id) == q.queued && Of(h.observed, id) == q.told && Directs(h.sends, ep) == q.direct
  {
  }

  lemma LiveRow(h: Host, now: nat, input: TickInput, io: Transport, id: nat, ep: u32)
    requires Live(h, now, input, io, id, ep)
    ensures id in h.table
  {
  }

  lemma {:induction false} TickShows(h: Host, now: nat, input: TickInput, io: Transport, id: nat, ep: u32)
    requires Live(h, now, input, io, id, ep) && id in h.table
    ensures var p, h' := PeerOf(h, id, ep), Tick(h, now, input, io);
      && There(h, p, id) && Histories(h, p, id, ep)
      && Shown(h', Ticked(p, id, From(input.received, ep), now, h.passes + 1, input.authorize, h.limits), id, ep)
      && p.row == Some(h.table[id]) && h.conns[id].inbox == p.inbox
      && h.table[id].handshake in {NoHandshake, ChallengeSent, Established}
      && (p.inbox != [] ==> IsHandshakeId(p.inbox[0].id))
  {
    LiveShows(h, now, input, io, id, ep);
    ShakenStates(h, id);
    var p := PeerOf(h, id, ep);
    if p.inbox != [] {
      assert h.conns[id].inbox[0] in h.conns[id].inbox;
    }
  }

  lemma ShakeInOrder(p: Peer, id: nat, now: nat, pass: nat, authorize: Authenticator)
    requires p.row.Some? && p.inbox != [] && IsHandshakeId(p.inbox[0].id)
    requires p.row.value.handshake in {NoHandshake, ChallengeSent, Established}
    ensures var c, m := p.row.value, p.inbox[0];
      var allow := authorize(c, m.nonce);
      var q := Shake(p, id, now, pass, authorize);
      if InOrder(id, c, m, allow) then
        && q.row.Some? && q.inbox == p.inbox[1..] && q.direct == p.direct
        && q.row.value.handshake == if c.handshake == NoHandshake then ChallengeSent else Established
      else
        && q.row.None? && q.queued == p.queued && q.direct == p.direct + [BYE]
        && q.told == p.told + if p.joined.None? then []
             else [Left(if c.handshake == ChallengeSent && m.id == MSG_RESPONSE && m.nonce == ServerNonce(id)
                        then Rejected else ProtocolError, MintToken(id, p.joined.value))]
  {
    hide ServerNonce, MintToken, HandshakePayload, BuildPacket;
    assert p.told + [] == p.told;
  }

  lemma SilentTicked(p: Peer, id: nat, now: nat, pass: nat, authorize: Authenticator, limits: Limits)
    requires p.row.Some?
    ensures Ticked(p, id, [], now, pass, authorize, limits)
         == if Overdue(p.row.value, now, limits) then Dropped(p, id, Timeout)
            else Beat(Shake(p, id, now, pass, authorize), now, limits)
  {
    hide MintToken, BuildPacket;
    HeardOne(p, id, [], now);
    OverdueIff(p.row.value, now, limits);
  }

  lemma BeatOnly(p: Peer, now: nat, limits: Limits)
    ensures var q := Beat(p, now, limits);
      && q.inbox == p.inbox && q.told == p.told && q.joined == p.joined && q.direct == p.direct
      && (p.row.None? ==> q == p)
      && (p.row.Some? ==> q.row.Some? && q.row.value.handshake == p.row.value.handshake)
  {
    hide BuildPacket, TickPayload;
  }

  /**
   * A waiting handshake message that comes at its turn moves the handshake one stage on; any other ends the
   * connection, as rejected if it was refused authorisation, else as a protocol error.
   */
  lemma {:induction false} WaitingMessageActs(h: Host, now: nat, input: TickInput, io: Transport, id: nat, ep: u32)
    requires Live(h, now, input, io, id, ep) && id in h.table && h.conns[id].inbox != []
    requires From(input.received, ep) == [] && !Overdue(h.table[id], now, h.limits)
    ensures var h', c, m := Tick(h, now, input, io), h.table[id], h.conns[id].inbox[0];
      if InOrder(id, c, m, input.authorize(c, m.nonce)) then
        && id in h'.table && id in h'.conns && h'.conns[id].inbox == h.conns[id].inbox[1..]
        && h'.table[id].handshake == (if c.handshake == NoHandshake then ChallengeSent else Established)
      else
        Leaves(h, h', id, ep, if c.handshake == ChallengeSent && m.id == MSG_RESPONSE && m.nonce == ServerNonce(id)
                              then Rejected else ProtocolError)
  {
    hide Live, Tick, PeerOf, From, Ticked, Shown, There, Away, Histories, Leaves, Shake, Beat, InOrder, ServerNonce,
         MintToken, Overdue, Of, Directs;
    TickShows(h, now, input, io, id, ep);
    var p := PeerOf(h, id, ep);
    var shaken := Shake(p, id, now, h.passes + 1, input.authorize);
    var q := Beat(shaken, now, h.limits);
    SilentTicked(p, id, now, h.passes + 1, input.authorize, h.limits);
    ShakeInOrder(p, id, now, h.passes + 1, input.authorize);
    BeatOnly(shaken, now, h.limits);
    var c, m := h.table[id], h.conns[id].inbox[0];
    if InOrder(id, c, m, input.authorize(c, m.nonce)) {
      ThereFrom(Tick(h, now, input, io), q, id, ep);
      ThereFields(Tick(h, now, input, io), q, id);
    } else {
      LeavesFrom(h, Tick(h, now, input, io), p, q, id, ep,
                 if c.handshake == ChallengeSent && m.id == MSG_RESPONSE && m.nonce == ServerNonce(id)
                 then Rejected else ProtocolError);
    }
  }

  lemma ShakenStates(h: Host, id: nat)
    requires Told(h, id) && id in h.table
    ensures h.table[id].handshake in {NoHandshake, ChallengeSent, Established}
  {
  }

  // ----------------------------------------------------------------- pings, byes, silence

  /** Whatever follows, what is queued stays queued. */
  lemma RestAppends(p: Peer, id: nat, now: nat, pass: nat, authorize: Authenticator, limits: Limits)
    ensures var q := Beat(Shake(Expire(p, id, now, limits), id, now, pass, authorize), now, limits);
      |q.queued| >= |p.queued| && q.queued[..|p.queued|] == p.queued
  {
    hide HandshakePayload, BuildPacket, TickPayload, MintToken;
  }

  /** A Ping is answered within the tick: the next packet queued is a Pong that carries the host's tick. */
  lemma {:induction false} PingIsAnswered(h: Host, now: nat, input: TickInput, io: Transport, id: nat, ep: u32,
                                          bytes: seq<u8>, header: PacketHeader, body: seq<u8>)
    requires Live(h, now, input, io, id, ep) && From(input.received, ep) == [bytes]
    requires Sent(bytes, header, MSG_PING, body)
    ensures var n, queued := |Of(h.queued, id)|, Of(Tick(h, now, input, io).queued, id);
      && |queued| > n && queued[..n] == Of(h.queued, id)
      && Reads(queued[n], MSG_PONG, h.conns[id].outSequence, TickPayload(now))
  {
    LiveShows(h, now, input, io, id, ep);
    hide Live, Told, Tick, PeerOf, Of, Directs, From, RowOk, Shake, Expire, Beat, TickPayload, Reads, Sent;
    var p := PeerOf(h, id, ep);
    HeardOne(p, id, bytes, now);
    PingHeard(p, id, bytes, header, body, now);
    PostedReads(p, MSG_PONG, TickPayload(now));
    RestAppends(Hear(p, id, bytes, now), id, now, h.passes + 1, input.authorize, h.limits);
    hide Hear, Posted, There, Away;
    PrefixOfPrefix(Of(Tick(h, now, input, io).queued, id), Hear(p, id, bytes, now).queued, |p.queued|);
  }

  lemma PrefixOfPrefix<T>(s: seq<T>, t: seq<T>, n: nat)
    requires n < |t| <= |s| && s[..|t|] == t
    ensures s[..n] == t[..n] && s[n] == t[n]
  {
    assert s[..|t|][..n] == s[..n] && s[..|t|][n] == s[n];
  }

  lemma PingHeard(p: Peer, id: nat, bytes: seq<u8>, header: PacketHeader, body: seq<u8>, now: nat)
    requires p.row.Some? && Sent(bytes, header, MSG_PING, body)
    ensures Hear(p, id, bytes, now).queued == Posted(p, MSG_PONG, TickPayload(now)).queued
  {
    SentReads(bytes, header, MSG_PING, body);
  }

  /** The tick as the peer decodes it: the low word, then the high word. */
  lemma TickPayloadReads(tick: nat)
    requires tick < 0x1_0000_0000_0000_0000
    ensures |TickPayload(tick)| == 8
    ensures Field(TickPayload(tick), 0, 4) + 0x1_0000_0000 * Field(TickPayload(tick), 4, 4) == tick
  {
    var low, high := tick % 0x1_0000_0000, tick / 0x1_0000_0000;
    var b := TickPayload(tick);
    Widths();
    assert b[0..4] == LE(low, 4) && b[4..8] == LE(high, 4);
    LittleEndianRoundTrip(low, 4);
    LittleEndianRoundTrip(high, 4);
  }

  lemma ByeTicked(p: Peer, id: nat, bytes: seq<u8>, header: PacketHeader, body: seq<u8>,
                  now: nat, pass: nat, authorize: Authenticator, limits: Limits)
    requires p.row.Some? && Sent(bytes, header, MSG_BYE, body)
    ensures Ticked(p, id, [bytes], now, pass, authorize, limits) == Dropped(p, id, Graceful)
  {
    HeardOne(p, id, bytes, now);
    SentReads(bytes, header, MSG_BYE, body);
    hide DeserializeHeader, HeaderBytes, HeaderAcceptable, Sent, MintToken, HearList;
  }

  /** A Bye ends the connection within the tick, for every store and every observer, and is answered with one. */
  lemma {:induction false} ByeLeaves(h: Host, now: nat, input: TickInput, io: Transport, id: nat, ep: u32,
                                     bytes: seq<u8>, header: PacketHeader, body: seq<u8>)
    requires Live(h, now, input, io, id, ep) && From(input.received, ep) == [bytes]
    requires Sent(bytes, header, MSG_BYE, body)
    ensures Leaves(h, Tick(h, now, input, io), id, ep, Graceful)
  {
    hide Live, Tick, PeerOf, From, Ticked, Shown, There, Away, Histories, Leaves, MintToken, Of, Directs, Sent, Dropped;
    LiveRow(h, now, input, io, id, ep);
    TickShows(h, now, input, io, id, ep);
    var p := PeerOf(h, id, ep);
    ByeTicked(p, id, bytes, header, body, now, h.passes + 1, input.authorize, h.limits);
    DroppedIs(p, id, Graceful);
    LeavesFrom(h, Tick(h, now, input, io), p, Dropped(p, id, Graceful), id, ep, Graceful);
  }

  /** The Bye a peer gets is one it can read. */
  lemma ByeReads()
    ensures Reads(BYE, MSG_BYE, 0, [])
  {
    BuildPacketReadsBack(MSG_BYE, Reliable, 0, []);
  }

  /** Nothing changes but perhaps the time of the last ping, which is then one more packet queued. */
  ghost predicate Waits(h: Host, h': Host, id: nat, ep: u32, now: nat)
    requires id in h.table && id in h.conns
  {
    var c := h.table[id];
    var due := c.state == Connected && now >= c.lastSendTick + h.limits.heartbeatTicks;
    && id in h'.table && id in h'.conns && h'.conns[id].inbox == h.conns[id].inbox
    && (id in h'.members <==> id in h.members) && Of(h'.observed, id) == Of(h.observed, id)
    && Directs(h'.sends, ep) == Directs(h.sends, ep)
    && h'.table[id] == (if due then c.(lastSendTick := now) else c)
    && (!due ==> Of(h'.queued, id) == Of(h.queued, id))
    && (due ==>
          && |Of(h'.queued, id)| == |Of(h.queued, id)| + 1
          && Of(h'.queued, id)[..|Of(h.queued, id)|] == Of(h.queued, id)
          && Reads(Of(h'.queued, id)[|Of(h.queued, id)|], MSG_PING, h.conns[id].outSequence, TickPayload(now)))
  }

  lemma IdleShake(p: Peer, id: nat, now: nat, pass: nat, authorize: Authenticator)
    requires p.inbox == []
    ensures Shake(p, id, now, pass, authorize) == p
  {
  }

  lemma WaitsFrom(h: Host, h': Host, p: Peer, id: nat, ep: u32, now: nat)
    requires There(h, p, id) && Histories(h, p, id, ep) && Shown(h', Beat(p, now, h.limits), id, ep)
    ensures Waits(h, h', id, ep, now)
  {
    hide Of, Directs, TickPayload, Reads;
    PostedReads(p, MSG_PING, TickPayload(now));
  }

  /**
   * A connection nothing comes from, and with nothing to read, ends exactly when it is overdue. Otherwise it stays
   * as it was, and is sent a Ping exactly if it is Connected and the heartbeat is due.
   */
  lemma {:induction false} SilenceEndsOverdue(h: Host, now: nat, input: TickInput, io: Transport, id: nat, ep: u32)
    requires Live(h, now, input, io, id, ep) && id in h.table && h.conns[id].inbox == []
    requires From(input.received, ep) == []
    ensures var h' := Tick(h, now, input, io);
      if Overdue(h.table[id], now, h.limits) then Leaves(h, h', id, ep, Timeout) else Waits(h, h', id, ep, now)
  {
    hide Live, Tick, PeerOf, From, Ticked, Shown, There, Away, Histories, Leaves, Waits, Shake, Beat, MintToken,
         Overdue, Of, Directs, Dropped;
    TickShows(h, now, input, io, id, ep);
    var p := PeerOf(h, id, ep);
    SilentTicked(p, id, now, h.passes + 1, input.authorize, h.limits);
    IdleShake(p, id, now, h.passes + 1, input.authorize);
    if Overdue(h.table[id], now, h.limits) {
      DroppedIs(p, id, Timeout);
      LeavesFrom(h, Tick(h, now, input, io), p, Dropped(p, id, Timeout), id, ep, Timeout);
    } else {
      WaitsFrom(h, Tick(h, now, input, io), p, id, ep, now);
    }
  }

  lemma DataTicked(p: Peer, id: nat, bytes: seq<u8>, header: PacketHeader, message: u16, body: seq<u8>,
                   now: nat, pass: nat, authorize: Authenticator, limits: Limits)
    requires p.row.Some? && p.row.value.handshake == Established && p.inbox == []
    requires Sent(bytes, header, message, body) && !IsHandshakeId(message) && message != MSG_BYE
    ensures var q := Ticked(p, id, [bytes], now, pass, authorize, limits);
      && q.row.Some? && q.row.value.lastRecvTick == now && q.told == p.told && q.joined == p.joined
  {
    HeardOne(p, id, bytes, now);
    SentReads(bytes, header, message, body);
    hide DeserializeHeader, HeaderBytes, HeaderAcceptable, Sent, BuildPacket, TickPayload, HearList;
  }

  /** A member that is heard from, by anything readable but a Bye or a handshake message, stays. */
  lemma {:induction false} HeardStays(h: Host, now: nat, input: TickInput, io: Transport, id: nat, ep: u32,
                                      bytes: seq<u8>, header: PacketHeader, message: u16, body: seq<u8>)
    requires Live(h, now, input, io, id, ep) && id in h.table && h.conns[id].inbox == []
    requires h.table[id].handshake == Established
    requires From(input.received, ep) == [bytes] && Sent(bytes, header, message, body)
    requires !IsHandshakeId(message) && message != MSG_BYE
    ensures var h' := Tick(h, now, input, io);
      && id in h'.table && id in h'.members && h'.table[id].lastRecvTick == now
      && Of(h'.observed, id) == Of(h.observed, id)
  {
    hide Live, Tick, PeerOf, From, Ticked, Shown, There, Away, Histories, Of, Directs, Sent;
    TickShows(h, now, input, io, id, ep);
    LiveMembers(h, now, input, io, id, ep);
    var p := PeerOf(h, id, ep);
    var q := Ticked(p, id, [bytes], now, h.passes + 1, input.authorize, h.limits);
    DataTicked(p, id, bytes, header, message, body, now, h.passes + 1, input.authorize, h.limits);
    ThereFrom(Tick(h, now, input, io), q, id, ep);
    ThereFields(Tick(h, now, input, io), q, id);
    ThereFields(h, p, id);
    HistoryFields(h, p, id, ep);
    HistoryFields(Tick(h, now, input, io), q, id, ep);
  }
}
