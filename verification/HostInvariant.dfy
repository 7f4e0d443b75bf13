/** What every step of the host keeps. */
module HostInvariant {
  import opened Prelude
  import opened NetTypes
  import opened HostModel

  // -------------------------------------------------------------- reading the histories

  /** The log lines about one connection, in order. */
  ghost function Of<T>(log: seq<Entry<T>>, id: nat): seq<T> {
    if log == [] then []
    else
      var n := |log| - 1;
      Of(log[..n], id) + if log[n].id == id then [log[n].item] else []
  }

  lemma {:induction false} OfSnoc<T>(log: seq<Entry<T>>, e: Entry<T>, id: nat)
    ensures Of(log + [e], id) == Of(log, id) + if e.id == id then [e.item] else []
  {
    SnocSplit(log, e);
  }

  /** The packets of a connection's outbox that Send took: any answer but WouldBlock. */
  ghost function Taken(sends: seq<SendRecord>, id: nat): seq<OutPacket> {
    if sends == [] then []
    else
      var n := |sends| - 1;
      Taken(sends[..n], id)
      + if sends[n].source == Some(id) && sends[n].outcome != WouldBlock then [sends[n].packet] else []
  }

  lemma {:induction false} TakenSnoc(sends: seq<SendRecord>, r: SendRecord, id: nat)
    ensures Taken(sends + [r], id)
         == Taken(sends, id) + if r.source == Some(id) && r.outcome != WouldBlock then [r.packet] else []
  {
    SnocSplit(sends, r);
  }

  // ------------------------------------------------------------------- the invariant

  /** The endpoint map is the exact inverse of the connections' endpoints. */
  ghost predicate Routed(h: Host) {
    && (forall id :: id in h.conns ==> h.conns[id].endpoint in h.route && h.route[h.conns[id].endpoint] == id)
    && (forall ep :: ep in h.route ==> h.route[ep] in h.conns && h.conns[h.route[ep]].endpoint == ep)
  }

  ghost predicate RowOk(h: Host, id: nat)
    requires id in h.table && id in h.conns
  {
    var c := h.table[id];
    && c.id == id && 0 < id < h.nextId
    && c.endpoint == h.conns[id].endpoint
    && (c.state == Connected || c.state == Handshaking)
    && (c.state == Connected <==> c.handshake == Established)
    && (forall m :: m in h.conns[id].inbox ==> IsHandshakeId(m.id))
  }

  ghost predicate Rows(h: Host)
    requires h.conns.Keys == h.table.Keys
  {
    forall id :: id in h.table ==> RowOk(h, id)
  }

  /** The session's members are the connected rows. */
  ghost predicate Membership(h: Host) {
    forall id :: id in h.members <==> id in h.table && h.table[id].state == Connected
  }

  /** Table, session, connection map and endpoint map agree. */
  ghost predicate InStep(h: Host) {
    && h.conns.Keys == h.table.Keys
    && Routed(h)
    && Rows(h)
    && Membership(h)
    && |h.table.Keys| <= h.maxConnections <= h.maxMembers
    && 0 < h.nextId
  }

  /** Observers hear nothing, one join, or one join and then one leave; and this matches the session. */
  ghost predicate Lifetime(h: Host, id: nat) {
    var told := Of(h.observed, id);
    if id in h.members then told == [Joined(h.members[id])]
    else if id in h.table || id >= h.nextId then told == []
    else
      || told == []
      || (|told| == 2 && told[0].Joined? && told[1].Left? && told[1].token == MintToken(id, told[0].tick))
  }

  /** A packet whose header carries the sequence number of the k-th packet of a connection. */
  ghost predicate Stamped(p: OutPacket, k: nat) {
    DeserializeHeader(p.bytes).Some? && DeserializeHeader(p.bytes).value.sequence == SequenceAt(k)
  }

  /** The sequence number after k packets. */
  ghost function SequenceAt(k: nat): u16 {
    if k == 0 then 0 else NextSequence(SequenceAt(k - 1))
  }

  lemma {:induction false} SequenceWraps(k: nat)
    ensures SequenceAt(k) == k % 0x1_0000
  {
    if k > 0 {
      SequenceWraps(k - 1);
    }
  }

  /** Packets numbered 0, 1, 2, ... modulo the 16-bit sequence field. */
  ghost predicate Numbered(all: seq<OutPacket>) {
    all == [] || (Numbered(all[..|all| - 1]) && Stamped(all[|all| - 1], |all| - 1))
  }

  lemma {:induction false} NumberedAt(all: seq<OutPacket>, k: nat)
    requires Numbered(all) && k < |all|
    ensures Stamped(all[k], k)
  {
    if k < |all| - 1 {
      NumberedAt(all[..|all| - 1], k);
    }
  }

  lemma {:induction false} NumberedSnoc(all: seq<OutPacket>, p: OutPacket)
    requires Numbered(all) && Stamped(p, |all|)
    ensures Numbered(all + [p])
  {
    SnocSplit(all, p);
  }

  /** Taken packets followed by the outbox are the queued packets, numbered 0, 1, 2, ... */
  ghost predicate Fifo(h: Host, id: nat) {
    var all := Of(h.queued, id);
    var taken := Taken(h.sends, id);
    && Numbered(all)
    && (id in h.conns ==> all == taken + h.conns[id].outbox && h.conns[id].outSequence == SequenceAt(|all|))
    && taken <= all
    && (id >= h.nextId ==> all == [])
  }

  ghost predicate GoodHello(c: Consumed) {
    && c.message.id == MSG_HELLO && c.message.version == PROTOCOL_VERSION
    && c.before == NoHandshake && c.after == ChallengeSent
  }

  ghost predicate GoodResponse(c: Consumed, id: nat) {
    && c.message.id == MSG_RESPONSE && c.message.nonce == ServerNonce(id) && c.allowed
    && c.before == ChallengeSent && c.after == Established
  }

  /** Consumed messages of a connection come from ever later passes. */
  ghost predicate Paced(h: Host, id: nat) {
    var trace := Of(h.consumed, id);
    && (forall i, j :: 0 <= i < j < |trace| ==> trace[i].pass < trace[j].pass)
    && (forall i :: 0 <= i < |trace| ==> trace[i].pass <= h.passes)
    && (id >= h.nextId ==> trace == [])
  }

  /** The handshake state of a live connection is the record of the messages it consumed. */
  ghost predicate Shaken(h: Host, id: nat)
    requires id in h.table
  {
    var trace := Of(h.consumed, id);
    match h.table[id].handshake
    case NoHandshake => trace == []
    case ChallengeSent => |trace| == 1 && GoodHello(trace[0])
    case Established => |trace| == 2 && GoodHello(trace[0]) && GoodResponse(trace[1], id)
    case _ => false
  }

  ghost predicate Told(h: Host, id: nat) {
    Lifetime(h, id) && Fifo(h, id) && Paced(h, id) && (id in h.table ==> Shaken(h, id))
  }

  ghost predicate Inv(h: Host) { InStep(h) && forall id: nat :: Told(h, id) }

  /** No handshake message of this connection was consumed in the current pass. */
  ghost predicate Untouched(h: Host, id: nat) {
    forall c :: c in Of(h.consumed, id) ==> c.pass < h.passes
  }

  // --------------------------------------------------------------------- small steps

  /** A step that is not about connection k. */
  ghost predicate SameFor(h: Host, h': Host, k: nat) {
    && Of(h'.observed, k) == Of(h.observed, k)
    && Of(h'.queued, k) == Of(h.queued, k)
    && Of(h'.consumed, k) == Of(h.consumed, k)
    && Taken(h'.sends, k) == Taken(h.sends, k)
    && (k in h'.table <==> k in h.table)
    && (k in h.table ==> h'.table[k].handshake == h.table[k].handshake)
    && (k in h'.conns <==> k in h.conns)
    && (k in h.conns ==> h'.conns[k].outbox == h.conns[k].outbox)
    && (k in h.conns ==> h'.conns[k].outSequence == h.conns[k].outSequence)
    && (k in h'.members <==> k in h.members)
    && (k in h.members ==> h'.members[k] == h.members[k])
    && h.nextId <= h'.nextId && h.passes <= h'.passes
  }

  lemma SameTold(h: Host, h': Host, k: nat)
    requires Told(h, k) && SameFor(h, h', k)
    ensures Told(h', k)
  {
  }

  /** Only time stamps, inboxes and outboxes changed. */
  ghost predicate SameShape(h: Host, h': Host) {
    && h'.table.Keys == h.table.Keys && h'.conns.Keys == h.conns.Keys
    && h'.members == h.members && h'.route == h.route && h'.nextId == h.nextId
    && h'.maxConnections == h.maxConnections && h'.maxMembers == h.maxMembers
    && (forall k :: k in h.table ==>
          && h'.table[k].id == h.table[k].id && h'.table[k].endpoint == h.table[k].endpoint
          && h'.table[k].state == h.table[k].state && h'.table[k].handshake == h.table[k].handshake)
    && (forall k :: k in h.conns ==> h'.conns[k].endpoint == h.conns[k].endpoint)
    && (forall k, m :: k in h'.conns && m in h'.conns[k].inbox ==> m in h.conns[k].inbox || IsHandshakeId(m.id))
  }

  lemma SameShapeInStep(h: Host, h': Host)
    requires InStep(h) && SameShape(h, h')
    ensures InStep(h')
  {
    forall k | k in h'.table ensures RowOk(h', k) {
      assert RowOk(h, k);
    }
  }

  lemma InitialHostInv(maxConnections: nat, maxMembers: nat)
    requires maxConnections <= maxMembers
    ensures Inv(InitialHost(maxConnections, maxMembers))
  {
  }

  /** Removing one connection from all four stores at once. */
  ghost predicate Removed(h: Host, h': Host, id: nat)
    requires id in h.conns
  {
    && h'.table == h.table - {id}
    && h'.members == h.members - {id}
    && h'.conns == h.conns - {id}
    && h'.route == h.route - {h.conns[id].endpoint}
    && h'.nextId == h.nextId && h'.passes == h.passes
    && h'.maxConnections == h.maxConnections && h'.maxMembers == h.maxMembers
    && h'.queued == h.queued && h'.consumed == h.consumed
  }

  lemma DisconnectRemoves(h: Host, id: nat, reason: DisconnectReason, io: Transport)
    requires id in h.table && id in h.conns
    ensures var h' := Disconnect(h, id, reason, io);
            && Removed(h, h', id)
            && h'.sends == h.sends + [SendRecord(h.table[id].endpoint, BYE, io(|h.sends|), None)]
            && h'.observed == if id in h.members
                              then h.observed + [Entry(id, Left(reason, MintToken(id, h.members[id])))]
                              else h.observed
  {
  }

  lemma RemovedRouted(h: Host, h': Host, id: nat)
    requires Routed(h) && id in h.conns && Removed(h, h', id)
    ensures Routed(h')
  {
  }

  lemma RemovedRows(h: Host, h': Host, id: nat)
    requires h.conns.Keys == h.table.Keys && Rows(h) && id in h.conns && Removed(h, h', id)
    ensures h'.conns.Keys == h'.table.Keys == h.table.Keys - {id} && Rows(h')
  {
    assert h'.table.Keys == h.table.Keys - {id};
    assert h'.conns.Keys == h.conns.Keys - {id};
    forall k | k in h'.table ensures RowOk(h', k) {
      assert RowOk(h, k);
    }
  }

  lemma RemovedInStep(h: Host, h': Host, id: nat)
    requires InStep(h) && id in h.conns && Removed(h, h', id)
    ensures InStep(h')
  {
    hide Routed, RowOk;
    RemovedRouted(h, h', id);
    RemovedRows(h, h', id);
  }

  lemma {:induction false} RemovedTold(h: Host, h': Host, id: nat, bye: SendRecord, k: nat)
    requires InStep(h) && id in h.conns && Removed(h, h', id)
    requires h'.sends == h.sends + [bye] && bye.source == None
    requires k != id || id !in h.members ==> Of(h'.observed, k) == Of(h.observed, k)
    requires k == id && id in h.members ==>
      exists reason :: Of(h'.observed, id)
        == Of(h.observed, id) + [Left(reason, MintToken(id, h.members[id]))]
    requires Lifetime(h, k) && Fifo(h, k) && Paced(h, k) && (k in h.table && k != id ==> Shaken(h, k))
    ensures Told(h', k)
  {
    hide Numbered, Of, Taken, GoodHello, GoodResponse, Routed;
    TakenSnoc(h.sends, bye, k);
    assert Taken(h'.sends, k) == Taken(h.sends, k);
    assert 0 < id < h.nextId by {
      assert RowOk(h, id);
    }
    hide InStep;
  }

  /** Disconnecting keeps the invariant, even when the row's own handshake record is out of date. */
  lemma DisconnectRestores(h: Host, id: nat, reason: DisconnectReason, io: Transport)
    requires InStep(h) && id in h.table
    requires forall k: nat ::
      Lifetime(h, k) && Fifo(h, k) && Paced(h, k) && (k in h.table && k != id ==> Shaken(h, k))
    ensures Inv(Disconnect(h, id, reason, io))
    ensures Removed(h, Disconnect(h, id, reason, io), id)
  {
    var h' := Disconnect(h, id, reason, io);
    DisconnectRemoves(h, id, reason, io);
    RemovedInStep(h, h', id);
    forall k: nat ensures Told(h', k) {
      if id in h.members {
        OfSnoc(h.observed, Entry(id, Left(reason, MintToken(id, h.members[id]))), k);
      }
      assert Lifetime(h, k);
      RemovedTold(h, h', id, SendRecord(h.table[id].endpoint, BYE, io(|h.sends|), None), k);
    }
  }

  lemma DisconnectKeeps(h: Host, id: nat, reason: DisconnectReason, io: Transport)
    requires Inv(h)
    ensures Inv(Disconnect(h, id, reason, io))
  {
    if id in h.table {
      forall k: nat
        ensures Lifetime(h, k) && Fifo(h, k) && Paced(h, k) && (k in h.table && k != id ==> Shaken(h, k))
      {
        assert Told(h, k);
      }
      DisconnectRestores(h, id, reason, io);
    }
  }

  lemma EnqueueInStep(h: Host, id: nat, message: u16, payload: seq<u8>)
    requires InStep(h) && id in h.conns
    ensures InStep(Enqueue(h, id, message, payload))
  {
    SameShapeInStep(h, Enqueue(h, id, message, payload));
  }

  /** One more numbered packet at the end of the log and of the outbox. */
  lemma {:induction false} FifoSnoc(h: Host, h': Host, id: nat, p: OutPacket)
    requires id in h.conns && id in h'.conns && Fifo(h, id) && id < h.nextId
    requires Of(h'.queued, id) == Of(h.queued, id) + [p] && h'.sends == h.sends
    requires h'.conns[id].outbox == h.conns[id].outbox + [p]
    requires h'.conns[id].outSequence == NextSequence(h.conns[id].outSequence)
    requires h'.nextId == h.nextId
    requires Stamped(p, |Of(h.queued, id)|)
    ensures Fifo(h', id)
  {
    var all, taken := Of(h.queued, id), Taken(h.sends, id);
    NumberedSnoc(all, p);
    assert all + [p] == taken + (h.conns[id].outbox + [p]);
  }

  lemma BuiltIsStamped(message: u16, sequence: u16, payload: seq<u8>, n: nat)
    requires sequence == SequenceAt(n)
    ensures Stamped(OutPacket(Reliable, BuildPacket(message, Reliable, sequence, payload)), n)
  {
    BuildPacketReadsBack(message, Reliable, sequence, payload);
  }

  lemma EnqueueOwnTold(h: Host, id: nat, message: u16, payload: seq<u8>)
    requires InStep(h) && id in h.conns && Told(h, id)
    ensures Told(Enqueue(h, id, message, payload), id)
  {
    assert RowOk(h, id);
    hide InStep, BuildPacket, Stamped, Lifetime, Paced, Shaken;
    var c := h.conns[id];
    var p := OutPacket(Reliable, BuildPacket(message, Reliable, c.outSequence, payload));
    var h' := Enqueue(h, id, message, payload);
    OfSnoc(h.queued, Entry(id, p), id);
    BuiltIsStamped(message, c.outSequence, payload, |Of(h.queued, id)|);
    FifoSnoc(h, h', id, p);
    OwnSame(h, h', id);
  }

  /** What Fifo is not about. */
  lemma OwnSame(h: Host, h': Host, id: nat)
    requires h' == h.(conns := h'.conns, queued := h'.queued)
    ensures (Lifetime(h', id) <==> Lifetime(h, id)) && (Paced(h', id) <==> Paced(h, id))
    ensures id in h.table ==> (Shaken(h', id) <==> Shaken(h, id))
  {
  }

  lemma EnqueueOtherTold(h: Host, id: nat, message: u16, payload: seq<u8>, k: nat)
    requires id in h.conns && k != id && Told(h, k)
    ensures Told(Enqueue(h, id, message, payload), k)
  {
    hide Told, BuildPacket;
    var p := OutPacket(Reliable, BuildPacket(message, Reliable, h.conns[id].outSequence, payload));
    OfSnoc(h.queued, Entry(id, p), k);
    assert Of(h.queued, k) + [] == Of(h.queued, k);
    SameTold(h, Enqueue(h, id, message, payload), k);
  }

  lemma EnqueueTold(h: Host, id: nat, message: u16, payload: seq<u8>, k: nat)
    requires InStep(h) && id in h.conns && Told(h, k)
    ensures Told(Enqueue(h, id, message, payload), k)
  {
    hide InStep, Told, Enqueue;
    if k == id {
      EnqueueOwnTold(h, id, message, payload);
    } else {
      EnqueueOtherTold(h, id, message, payload, k);
    }
  }

  lemma EnqueueKeeps(h: Host, id: nat, message: u16, payload: seq<u8>)
    requires Inv(h) && id in h.conns
    ensures Inv(Enqueue(h, id, message, payload))
  {
    EnqueueInStep(h, id, message, payload);
    forall k: nat ensures Told(Enqueue(h, id, message, payload), k) {
      EnqueueTold(h, id, message, payload, k);
    }
  }

  /** Changing a row's time stamps only. */
  lemma StampKeeps(h: Host, id: nat, c: Connection)
    requires Inv(h) && id in h.table
    requires c.id == id && c.endpoint == h.table[id].endpoint
    requires c.state == h.table[id].state && c.handshake == h.table[id].handshake
    ensures Inv(h.(table := h.table[id := c]))
  {
    var h' := h.(table := h.table[id := c]);
    SameShapeInStep(h, h');
    forall k: nat ensures Told(h', k) {
      assert Told(h, k);
      SameTold(h, h', k);
    }
  }

  /** Buffering a handshake message. */
  lemma BufferKeeps(h: Host, id: nat, m: HandshakeMessage)
    requires Inv(h) && id in h.conns && IsHandshakeId(m.id)
    ensures Inv(h.(conns := h.conns[id := h.conns[id].(inbox := h.conns[id].inbox + [m])]))
  {
    hide Told;
    var h' := h.(conns := h.conns[id := h.conns[id].(inbox := h.conns[id].inbox + [m])]);
    SameShapeInStep(h, h');
    forall k: nat ensures Told(h', k) {
      assert Told(h, k);
      SameTold(h, h', k);
    }
  }

  // -------------------------------------------------------------------- accept, route

  /** h' is h with a connection of id h.nextId at endpoint ep. */
  ghost predicate Newcomer(h: Host, h': Host, ep: u32, now: nat) {
    var id := h.nextId;
    && h'.table == h.table[id := Connection(id, ep, Handshaking, NoHandshake, now, now, 0, 0)]
    && h'.conns == h.conns[id := HostConn(ep, 0, [], [])]
    && h'.route == h.route[ep := id]
    && h'.nextId == id + 1 && h'.members == h.members && h'.passes == h.passes
    && h'.maxConnections == h.maxConnections && h'.maxMembers == h.maxMembers
    && h'.observed == h.observed && h'.queued == h.queued
    && h'.consumed == h.consumed && h'.sends == h.sends
  }

  lemma NewcomerRouted(h: Host, h': Host, ep: u32, now: nat)
    requires Routed(h) && ep !in h.route && h.nextId !in h.conns && Newcomer(h, h', ep, now)
    ensures Routed(h')
  {
  }

  lemma NewcomerRows(h: Host, h': Host, ep: u32, now: nat)
    requires h.conns.Keys == h.table.Keys && Rows(h) && h.nextId > 0 && Newcomer(h, h', ep, now)
    ensures h'.conns.Keys == h'.table.Keys == h.table.Keys + {h.nextId} && Rows(h')
  {
    assert h'.table.Keys == h.table.Keys + {h.nextId};
    assert h'.conns.Keys == h.conns.Keys + {h.nextId};
    forall k | k in h'.table ensures RowOk(h', k) {
      assert k != h.nextId ==> RowOk(h, k);
    }
  }

  lemma NewcomerInStep(h: Host, h': Host, ep: u32, now: nat)
    requires InStep(h) && ep !in h.route && h.nextId !in h.table && |h.table| < h.maxConnections
    requires Newcomer(h, h', ep, now)
    ensures InStep(h')
  {
    hide Routed, RowOk;
    NewcomerRouted(h, h', ep, now);
    NewcomerRows(h, h', ep, now);
  }

  lemma FreshId(h: Host)
    requires InStep(h)
    ensures h.nextId !in h.table
  {
    assert h.nextId in h.table ==> RowOk(h, h.nextId);
  }

  lemma AcceptInStep(h: Host, ep: u32, now: nat, io: Transport)
    requires InStep(h) && (ep !in h.route || |h.table| >= h.maxConnections)
    ensures InStep(Accept(h, ep, now, io))
  {
    var h' := Accept(h, ep, now, io);
    FreshId(h);
    if |h.table| < h.maxConnections {
      NewcomerInStep(h, h', ep, now);
    } else {
      SameShapeInStep(h, h');
    }
  }

  /** The new connection starts with empty histories. */
  lemma NewcomerTold(h: Host, h': Host, ep: u32, now: nat)
    requires Told(h, h.nextId) && h.nextId !in h.members && Newcomer(h, h', ep, now)
    ensures Told(h', h.nextId)
  {
    assert Of(h.queued, h.nextId) == [];
    assert Taken(h.sends, h.nextId) == [];
  }

  lemma AcceptTold(h: Host, ep: u32, now: nat, io: Transport, k: nat)
    requires InStep(h) && Told(h, k)
    ensures Told(Accept(h, ep, now, io), k)
  {
    hide Told, Routed, RowOk;
    var id := h.nextId;
    var h' := Accept(h, ep, now, io);
    FreshId(h);
    if |h.table| >= h.maxConnections {
      TakenSnoc(h.sends, SendRecord(ep, BYE, io(|h.sends|), None), k);
      SameTold(h, h', k);
    } else if k == id {
      NewcomerTold(h, h', ep, now);
    } else {
      SameTold(h, h', k);
    }
  }

  lemma AcceptKeeps(h: Host, ep: u32, now: nat, io: Transport)
    requires Inv(h) && (ep !in h.route || |h.table| >= h.maxConnections)
    ensures Inv(Accept(h, ep, now, io))
  {
    AcceptInStep(h, ep, now, io);
    forall k: nat ensures Told(Accept(h, ep, now, io), k) {
      AcceptTold(h, ep, now, io, k);
    }
  }

  /**
   * What the transport must promise: a second accept of a live endpoint is harmless exactly when the
   * table is full. With room, two connections would share one endpoint.
   */
  lemma AcceptInStepIff(h: Host, ep: u32, now: nat, io: Transport)
    requires InStep(h)
    ensures InStep(Accept(h, ep, now, io)) <==> ep !in h.route || |h.table| >= h.maxConnections
  {
    if ep in h.route && |h.table| < h.maxConnections {
      FreshId(h);
      var h' := Accept(h, ep, now, io);
      assert h'.conns[h.route[ep]].endpoint == ep && h'.route[ep] == h.nextId;
    } else {
      AcceptInStep(h, ep, now, io);
    }
  }

  lemma DeliverKeeps(h: Host, id: nat, message: u16, body: seq<u8>, now: nat, io: Transport)
    requires Inv(h) && id in h.conns
    ensures Inv(Deliver(h, id, message, body, now, io))
  {
    if IsHandshakeId(message) {
      match DeserializeHandshake(message, body) {
        case None => CounterKeeps(h, h.(dropped := h.dropped + 1));
        case Some(m) => BufferKeeps(h, id, m);
      }
    } else if message == MSG_PING {
      EnqueueKeeps(h, id, MSG_PONG, TickPayload(now));
    } else if message == MSG_BYE {
      DisconnectKeeps(h, id, Graceful, io);
    }
  }

  /** Nothing but a counter, the limits or the running flag changes. */
  lemma CounterKeeps(h: Host, h': Host)
    requires Inv(h)
    requires exists dropped, limits, running ::
      h' == h.(dropped := dropped, limits := limits, running := running)
    ensures Inv(h')
  {
    SameShapeInStep(h, h');
    forall k: nat ensures Told(h', k) {
      assert Told(h, k);
      SameTold(h, h', k);
    }
  }

  lemma RouteKeeps(h: Host, dg: Datagram, now: nat, io: Transport)
    requires Inv(h)
    ensures Inv(Route(h, dg, now, io))
  {
    hide Told, Deliver;
    if dg.from !in h.route || h.route[dg.from] !in h.table || DeserializeHeader(dg.bytes).None? {
      CounterKeeps(h, h.(dropped := h.dropped + 1));
    } else {
      var id := h.route[dg.from];
      assert RowOk(h, id);
      var h1 := h.(table := h.table[id := h.table[id].(lastRecvTick := now)]);
      StampKeeps(h, id, h.table[id].(lastRecvTick := now));
      DeliverKeeps(h1, id, DeserializeHeader(dg.bytes).value.messageId, dg.bytes[HEADER_SIZE..], now, io);
    }
  }
}
