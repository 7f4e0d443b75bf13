/**
 * The host's tick as a function on values.
 *
 * The connection table and the session are maps here; the classes in HostServer.dfy keep them as
 * sorted vectors with hash accelerators and are proved to compute these functions. Loops are
 * "the rest of the loop" functions: FromF(h, ids, i) finishes a loop that stands at position i.
 *
 * `io` is the transport's answer to its n-th Send of the run: any function, so any transport.
 * The fields after `passes` are history: what was sent, queued, consumed and told to observers.
 */
module HostModel {
  import opened Prelude
  import opened Sorted
  import opened NetTypes

  datatype OutPacket = OutPacket(channel: Channel, bytes: seq<u8>)

  datatype HostConn = HostConn(
    endpoint: u32, outSequence: u16, inbox: seq<HandshakeMessage>, outbox: seq<OutPacket>)

  datatype Datagram = Datagram(from: u32, bytes: seq<u8>)

  datatype Limits = Limits(handshakeTicks: nat, connectionTicks: nat, heartbeatTicks: nat, maxBytesPerTick: nat)

  /** One line of a history log that concerns connection `id`. */
  datatype Entry<T> = Entry(id: nat, item: T)

  /** A Send call. `source` is the connection whose outbox it came from, None for a direct Bye. */
  datatype SendRecord = SendRecord(to: u32, packet: OutPacket, outcome: TransportOutcome, source: Option<nat>)

  /** What session observers are told about a member. */
  datatype Notice = Joined(tick: nat) | Left(reason: DisconnectReason, token: u64)

  /** A handshake message taken from an inbox, in which tick pass, and what it did. */
  datatype Consumed = Consumed(
    pass: nat, message: HandshakeMessage, allowed: bool, before: HandshakeState, after: HandshakeState)

  datatype Host = Host(
    running: bool,
    limits: Limits,
    maxConnections: nat,
    maxMembers: nat,
    table: map<nat, Connection>,
    nextId: nat,
    members: map<nat, nat>,
    conns: map<nat, HostConn>,
    route: map<u32, nat>,
    dropped: nat,
    rejected: nat,
    passes: nat,
    sends: seq<SendRecord>,
    queued: seq<Entry<OutPacket>>,
    consumed: seq<Entry<Consumed>>,
    observed: seq<Entry<Notice>>)

  type Transport = nat -> TransportOutcome
  type Authenticator = (Connection, u32) -> bool

  /** The table's ids, ascending. */
  ghost function Ids(h: Host): seq<nat> { Listing(h.table.Keys) }

  ghost function InitialHost(maxConnections: nat, maxMembers: nat): Host {
    Host(false, Limits(1, 1, 1, 262144), maxConnections, maxMembers,
         map[], 1, map[], map[], map[], 0, 0, 0, [], [], [], [])
  }

  // -------------------------------------------------------------------- small steps

  const BYE: OutPacket := OutPacket(Reliable, BuildPacket(MSG_BYE, Reliable, 0, []))

  ghost function SendDirect(h: Host, to: u32, io: Transport): Host {
    h.(sends := h.sends + [SendRecord(to, BYE, io(|h.sends|), None)])
  }

  /** The 16-bit increment. */
  function NextSequence(s: u16): u16 { if s == 0xFFFF then 0 else s + 1 }

  /** EnqueueControl: build a packet with the connection's next sequence number and queue it. */
  ghost function Enqueue(h: Host, id: nat, message: u16, payload: seq<u8>): Host
    requires id in h.conns
  {
    var c := h.conns[id];
    var p := OutPacket(Reliable, BuildPacket(message, Reliable, c.outSequence, payload));
    h.(conns := h.conns[id := c.(outbox := c.outbox + [p], outSequence := NextSequence(c.outSequence))],
       queued := h.queued + [Entry(id, p)])
  }

  /** BeginDisconnect, the best-effort Bye, Session::Remove and the host's own two maps. */
  ghost function DropRow(h: Host, id: nat, io: Transport): Host {
    if id in h.table
    then SendDirect(h.(table := h.table - {id}), h.table[id].endpoint, io)
    else h
  }

  ghost function DropMember(h: Host, id: nat, reason: DisconnectReason): Host {
    if id in h.members
    then h.(members := h.members - {id},
            observed := h.observed + [Entry(id, Left(reason, MintToken(id, h.members[id])))])
    else h
  }

  ghost function DropConn(h: Host, id: nat): Host {
    if id in h.conns
    then h.(route := h.route - {h.conns[id].endpoint}, conns := h.conns - {id})
    else h
  }

  ghost function Disconnect(h: Host, id: nat, reason: DisconnectReason, io: Transport): Host {
    DropConn(DropMember(DropRow(h, id, io), id, reason), id)
  }

  ghost function DisconnectFrom(h: Host, ids: seq<nat>, i: nat, reason: DisconnectReason, io: Transport): Host
    requires i <= |ids|
    decreases |ids| - i
  {
    if i == |ids| then h else DisconnectFrom(Disconnect(h, ids[i], reason, io), ids, i + 1, reason, io)
  }

  // ------------------------------------------------------------------ phase 2: accept

  ghost function Accept(h: Host, ep: u32, now: nat, io: Transport): Host {
    if |h.table| >= h.maxConnections
    then SendDirect(h, ep, io).(rejected := h.rejected + 1)
    else
      var id := h.nextId;
      h.(table := h.table[id := Connection(id, ep, Handshaking, NoHandshake, now, now, 0, 0)],
         nextId := id + 1,
         conns := if id in h.conns then h.conns else h.conns[id := HostConn(ep, 0, [], [])],
         route := h.route[ep := id])
  }

  ghost function AcceptFrom(h: Host, eps: seq<u32>, i: nat, now: nat, io: Transport): Host
    requires i <= |eps|
    decreases |eps| - i
  {
    if i == |eps| then h else AcceptFrom(Accept(h, eps[i], now, io), eps, i + 1, now, io)
  }

  // ------------------------------------------------------------------- phase 3: route

  ghost function Deliver(h: Host, id: nat, message: u16, body: seq<u8>, now: nat, io: Transport): Host
    requires id in h.conns
  {
    if IsHandshakeId(message) then
      match DeserializeHandshake(message, body)
      case None => h.(dropped := h.dropped + 1)
      case Some(m) => h.(conns := h.conns[id := h.conns[id].(inbox := h.conns[id].inbox + [m])])
    else if message == MSG_PING then Enqueue(h, id, MSG_PONG, TickPayload(now))
    else if message == MSG_BYE then Disconnect(h, id, Graceful, io)
    else h
  }

  ghost function Route(h: Host, dg: Datagram, now: nat, io: Transport): Host {
    if dg.from !in h.route then h.(dropped := h.dropped + 1)
    else
      var id := h.route[dg.from];
      if id !in h.table then h
      else
        match DeserializeHeader(dg.bytes)
        case None => h.(dropped := h.dropped + 1)
        case Some(header) =>
          var h1 := h.(table := h.table[id := h.table[id].(lastRecvTick := now)]);
          if id !in h.conns then h1
          else Deliver(h1, id, header.messageId, dg.bytes[HEADER_SIZE..], now, io)
  }

  ghost function RouteFrom(h: Host, dgs: seq<Datagram>, i: nat, now: nat, io: Transport): Host
    requires i <= |dgs|
    decreases |dgs| - i
  {
    if i == |dgs| then h else RouteFrom(Route(h, dgs[i], now, io), dgs, i + 1, now, io)
  }

  // --------------------------------------------------------------- phase 4a: timeouts

  predicate Expired(c: Connection, now: nat, limits: Limits) {
    if !IsHandshakeComplete(c.handshake)
    then now >= c.createdTick && now - c.createdTick > limits.handshakeTicks
    else c.state == Connected && now >= c.lastRecvTick && now - c.lastRecvTick > limits.connectionTicks
  }

  ghost function Overdue(table: map<nat, Connection>, now: nat, limits: Limits): set<nat> {
    set id | id in table && Expired(table[id], now, limits)
  }

  /** ConnectionTable::ScanTimeouts, ascending. */
  ghost function TimedOut(h: Host, now: nat): seq<nat> {
    Listing(Overdue(h.table, now, h.limits))
  }

  // ---------------------------------------------------------- phase 4b: one handshake step

  /** Session::Admit: refused when full or already a member. */
  ghost function Admit(h: Host, id: nat, now: nat): Host {
    if |h.members| >= h.maxMembers || id in h.members then h
    else h.(members := h.members[id := now], observed := h.observed + [Entry(id, Joined(now))])
  }

  ghost function Promote(h: Host, id: nat, now: nat): Host
    requires id in h.table
  {
    var c := h.table[id];
    if c.handshake == Established
    then Admit(h.(table := h.table[id := c.(state := Connected, establishedTick := now, lastSendTick := now)]),
               id, now)
    else h
  }

  ghost function Reply(h: Host, id: nat, out: Option<OutboundControl>): Host
    requires id in h.conns
  {
    match out
    case None => h
    case Some(o) => Enqueue(h, id, o.id, HandshakePayload(o.nonce))
  }

  /** Takes the oldest message of the inbox and records what it does to the handshake. */
  ghost function Consume(h: Host, id: nat, allow: bool): Host
    requires id in h.conns && id in h.table && h.conns[id].inbox != []
  {
    var c := h.conns[id];
    var res := Advance(id, h.table[id].handshake, c.inbox[0], allow);
    h.(conns := h.conns[id := c.(inbox := c.inbox[1..])],
       table := h.table[id := h.table[id].(handshake := res.state)],
       consumed := h.consumed
         + [Entry(id, Consumed(h.passes, c.inbox[0], allow, h.table[id].handshake, res.state))])
  }

  ghost function AdvanceOne(h: Host, id: nat, now: nat, authorize: Authenticator, io: Transport): Host {
    if id !in h.conns || h.conns[id].inbox == [] || id !in h.table then h
    else
      var m := h.conns[id].inbox[0];
      var allow := authorize(h.table[id], m.nonce);
      var res := Advance(id, h.table[id].handshake, m, allow);
      var h1 := Consume(h, id, allow);
      match res.drop
      case Some(reason) => Disconnect(h1, id, reason, io)
      case None => Promote(Reply(h1, id, res.outbound), id, now)
  }

  ghost function AdvanceFrom(
    h: Host, ids: seq<nat>, i: nat, now: nat, authorize: Authenticator, io: Transport): Host
    requires i <= |ids|
    decreases |ids| - i
  {
    if i == |ids| then h else AdvanceFrom(AdvanceOne(h, ids[i], now, authorize, io), ids, i + 1, now, authorize, io)
  }

  // ---------------------------------------------------------------- phase 5: heartbeat

  ghost function Heartbeat(h: Host, id: nat, now: nat): Host {
    if id !in h.table || h.table[id].state != Connected then h
    else if now < h.table[id].lastSendTick + h.limits.heartbeatTicks || id !in h.conns then h
    else
      var h1 := Enqueue(h, id, MSG_PING, TickPayload(now));
      h1.(table := h1.table[id := h1.table[id].(lastSendTick := now)])
  }

  ghost function HeartbeatFrom(h: Host, ids: seq<nat>, i: nat, now: nat): Host
    requires i <= |ids|
    decreases |ids| - i
  {
    if i == |ids| then h else HeartbeatFrom(Heartbeat(h, ids[i], now), ids, i + 1, now)
  }

  // -------------------------------------------------------------------- phase 6: drain

  datatype Drained = Drained(host: Host, sent: nat, stop: bool)

  /** The front packet of an outbox was handed over and answered `outcome`. */
  ghost function HandOver(h: Host, id: nat, outcome: TransportOutcome): Host
    requires id in h.conns && h.conns[id].outbox != []
  {
    var c := h.conns[id];
    var h1 := h.(sends := h.sends + [SendRecord(c.endpoint, c.outbox[0], outcome, Some(id))]);
    if outcome == WouldBlock then h1 else h1.(conns := h1.conns[id := c.(outbox := c.outbox[1..])])
  }

  ghost function DrainConn(h: Host, id: nat, sent: nat, io: Transport): Drained
    requires id in h.conns
    decreases |h.conns[id].outbox|
  {
    var c := h.conns[id];
    if c.outbox == [] then Drained(h, sent, false)
    else
      var size := |c.outbox[0].bytes|;
      if sent + size > h.limits.maxBytesPerTick then Drained(h, sent, true)
      else
        var outcome := io(|h.sends|);
        var h1 := HandOver(h, id, outcome);
        if outcome == WouldBlock then Drained(h1, sent, true) else DrainConn(h1, id, sent + size, io)
  }

  ghost function DrainFrom(h: Host, ids: seq<nat>, i: nat, sent: nat, io: Transport): Host
    requires i <= |ids|
    decreases |ids| - i
  {
    if i == |ids| then h
    else if ids[i] !in h.conns then DrainFrom(h, ids, i + 1, sent, io)
    else
      var r := DrainConn(h, ids[i], sent, io);
      if r.stop then r.host else DrainFrom(r.host, ids, i + 1, r.sent, io)
  }

  // -------------------------------------------------------------------------- the pump

  /** What the transport surfaces in one tick, and how the authenticator answers in it. */
  datatype TickInput = TickInput(accepted: seq<u32>, received: seq<Datagram>, authorize: Authenticator)

  /** Phases 2 to 4a: accept, route, time out. */
  ghost function Intake(h: Host, now: nat, input: TickInput, io: Transport): Host {
    var h1 := AcceptFrom(h, input.accepted, 0, now, io);
    var h2 := RouteFrom(h1, input.received, 0, now, io);
    DisconnectFrom(h2, TimedOut(h2, now), 0, Timeout, io)
  }

  /** Phases 4b and 5: one handshake step each, then heartbeats. */
  ghost function Progress(h: Host, now: nat, authorize: Authenticator, io: Transport): Host {
    var h1 := AdvanceFrom(h, Ids(h), 0, now, authorize, io);
    HeartbeatFrom(h1, Ids(h1), 0, now)
  }

  /** Phases 2 to 5. */
  ghost function Churn(h: Host, now: nat, input: TickInput, io: Transport): Host {
    Progress(Intake(h, now, input, io), now, input.authorize, io)
  }

  /** Phase 6: drain in ascending id order. */
  ghost function Drain(h: Host, io: Transport): Host { DrainFrom(h, Ids(h), 0, 0, io) }

  ghost function Pump(h: Host, now: nat, input: TickInput, io: Transport): Host {
    Drain(Churn(h, now, input, io), io)
  }

  ghost function Tick(h: Host, now: nat, input: TickInput, io: Transport): Host {
    if h.running then Pump(h.(passes := h.passes + 1), now, input, io) else h
  }

  ghost function Start(h: Host, limits: Limits, enabled: bool, bound: bool, listening: bool): Host {
    h.(limits := limits, running := h.running || !enabled || (bound && listening))
  }

  ghost function Stop(h: Host, io: Transport): Host {
    DisconnectFrom(h, Ids(h), 0, Graceful, io).(conns := map[], route := map[], running := false)
  }

  datatype HostEvent =
    | StartEvent(limits: Limits, enabled: bool, bound: bool, listening: bool)
    | TickEvent(now: nat, input: TickInput)
    | StopEvent

  ghost function Step(h: Host, e: HostEvent, io: Transport): Host {
    match e
    case StartEvent(limits, enabled, bound, listening) => Start(h, limits, enabled, bound, listening)
    case TickEvent(now, input) => Tick(h, now, input, io)
    case StopEvent => Stop(h, io)
  }

  ghost function Run(h: Host, events: seq<HostEvent>, io: Transport): Host {
    if events == [] then h
    else Step(Run(h, events[..|events| - 1], io), events[|events| - 1], io)
  }
}
