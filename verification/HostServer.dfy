/**
 * HostServer.cpp: the per-tick pump over the transport, the connection table and the session.
 * Every method is proved to compute the step of HostModel.dfy that it stands for.
 */
module HostServers {
  import opened Prelude
  import opened NetTypes
  import opened ConnectionTables
  import opened Sessions
  import M = HostModel

  /** ITransport: `answers` is what its n-th Send returns, any function at all. */
  class TransportSeam {
    const answers: M.Transport
    var sends: seq<M.SendRecord>
    var acceptedReady: seq<u32>
    var receivedReady: seq<M.Datagram>

    constructor (answers: M.Transport)
      ensures this.answers == answers && sends == [] && acceptedReady == [] && receivedReady == []
    {
      this.answers := answers;
      sends, acceptedReady, receivedReady := [], [], [];
    }

    method Send(to: u32, packet: M.OutPacket, source: Option<nat>) returns (outcome: TransportOutcome)
      modifies this`sends
      ensures outcome == answers(old(|sends|))
      ensures sends == old(sends) + [M.SendRecord(to, packet, outcome, source)]
    {
      outcome := answers(|sends|);
      sends := sends + [M.SendRecord(to, packet, outcome, source)];
    }

    method Accepted() returns (eps: seq<u32>)
      modifies this`acceptedReady
      ensures eps == old(acceptedReady) && acceptedReady == []
    {
      eps, acceptedReady := acceptedReady, [];
    }

    method Received() returns (dgs: seq<M.Datagram>)
      modifies this`receivedReady
      ensures dgs == old(receivedReady) && receivedReady == []
    {
      dgs, receivedReady := receivedReady, [];
    }
  }

  class HostServer {
    var running: bool
    var limits: M.Limits
    var conns: map<nat, M.HostConn>
    var route: map<u32, nat>
    var droppedDatagrams: nat
    var rejectedCapacity: nat
    ghost var passes: nat
    ghost var queued: seq<M.Entry<M.OutPacket>>
    ghost var consumed: seq<M.Entry<M.Consumed>>

    /** The state of the host and of the three objects it pumps, as one value. */
    ghost function Abs(io: TransportSeam, table: ConnectionTable, session: Session): M.Host
      reads this, io, table, session
    {
      M.Host(running, limits, table.maxConnections, session.maxMembers, table.Rows(), table.nextId,
             session.Members(), conns, route, droppedDatagrams, rejectedCapacity, passes,
             io.sends, queued, consumed, session.told)
    }

    constructor ()
      ensures !running && limits == M.Limits(1, 1, 1, 262144) && conns == map[] && route == map[]
      ensures droppedDatagrams == rejectedCapacity == passes == 0 && queued == [] && consumed == []
    {
      running, limits, conns, route := false, M.Limits(1, 1, 1, 262144), map[], map[];
      droppedDatagrams, rejectedCapacity, passes, queued, consumed := 0, 0, 0, [], [];
    }

    method Start(limits: M.Limits, enabled: bool, bound: bool, listening: bool,
                 io: TransportSeam, table: ConnectionTable, session: Session)
      modifies this
      ensures Abs(io, table, session) == M.Start(old(Abs(io, table, session)), limits, enabled, bound, listening)
    {
      this.limits := limits;
      if !enabled {
        running := true;
        return;
      }
      if !bound {
        return;
      }
      if !listening {
        return;
      }
      running := true;
    }

    method EnqueueControl(id: nat, message: u16, payload: seq<u8>,
                          io: TransportSeam, table: ConnectionTable, session: Session)
      requires id in conns
      modifies this`conns, this`queued
      ensures Abs(io, table, session) == M.Enqueue(old(Abs(io, table, session)), id, message, payload)
    {
      var c := conns[id];
      var p := M.OutPacket(Reliable, BuildPacket(message, Reliable, c.outSequence, payload));
      c := c.(outSequence := M.NextSequence(c.outSequence));
      conns := conns[id := c.(outbox := c.outbox + [p])];
      queued := queued + [M.Entry(id, p)];
    }

    /** First part of Disconnect: the table row and the best-effort Bye. */
    method DropRow(id: nat, io: TransportSeam, table: ConnectionTable, session: Session)
      requires table.Valid()
      modifies io`sends, table
      ensures table.Valid()
      ensures Abs(io, table, session) == M.DropRow(old(Abs(io, table, session)), id, io.answers)
    {
      var performed, endpoint := table.BeginDisconnect(id);
      if performed {
        var _ := io.Send(endpoint, M.BYE, None);
      } else {
        assert table.Rows() == old(table.Rows());
      }
    }

    /** Second part: the member, if it is one. */
    method DropMember(id: nat, reason: DisconnectReason, io: TransportSeam, table: ConnectionTable, session: Session)
      requires session.Valid()
      modifies session
      ensures session.Valid()
      ensures Abs(io, table, session) == M.DropMember(old(Abs(io, table, session)), id, reason)
    {
      session.Remove(id, reason);
      assert id !in old(session.Members()) ==> session.Members() == old(session.Members());
    }

    /** Last part: the host's own two maps. */
    method DropConn(id: nat, io: TransportSeam, table: ConnectionTable, session: Session)
      modifies this`conns, this`route
      ensures Abs(io, table, session) == M.DropConn(old(Abs(io, table, session)), id)
    {
      if id in conns {
        route := route - {conns[id].endpoint};
        conns := conns - {id};
      }
    }

    method Disconnect(id: nat, reason: DisconnectReason, io: TransportSeam, table: ConnectionTable, session: Session)
      requires table.Valid() && session.Valid()
      modifies this`conns, this`route, io`sends, table, session
      ensures table.Valid() && session.Valid()
      ensures Abs(io, table, session) == M.Disconnect(old(Abs(io, table, session)), id, reason, io.answers)
    {
      DropRow(id, io, table, session);
      DropMember(id, reason, io, table, session);
      DropConn(id, io, table, session);
    }

    /** The two per-tick loops that disconnect a list of ids: timeouts and Stop. */
    method DisconnectAll(ids: seq<nat>, reason: DisconnectReason,
                         io: TransportSeam, table: ConnectionTable, session: Session)
      requires table.Valid() && session.Valid()
      modifies this`conns, this`route, io`sends, table, session
      ensures table.Valid() && session.Valid()
      ensures Abs(io, table, session) == M.DisconnectFrom(old(Abs(io, table, session)), ids, 0, reason, io.answers)
    {
      ghost var goal := M.DisconnectFrom(Abs(io, table, session), ids, 0, reason, io.answers);
      for i := 0 to |ids|
        invariant table.Valid() && session.Valid()
        invariant M.DisconnectFrom(Abs(io, table, session), ids, i, reason, io.answers) == goal
      {
        Disconnect(ids[i], reason, io, table, session);
      }
    }

    method Stop(io: TransportSeam, table: ConnectionTable, session: Session)
      requires table.Valid() && session.Valid()
      modifies this`conns, this`route, this`running, io`sends, table, session
      ensures table.Valid() && session.Valid()
      ensures Abs(io, table, session) == M.Stop(old(Abs(io, table, session)), io.answers)
    {
      hide ConnectionTable.Valid, Session.Valid;
      var ids := table.Ids();
      DisconnectAll(ids, Graceful, io, table, session);
      conns := map[];
      route := map[];
      running := false;
    }

    // ---------------------------------------------------------------- the tick phases

    /** Add a row and fill it in through the pointer; None is the full table. */
    method OpenRow(ep: u32, now: nat, table: ConnectionTable) returns (added: Option<nat>)
      requires table.Valid()
      modifies table
      ensures table.Valid()
      ensures |old(table.Rows())| >= table.maxConnections ==>
                added == None && table.Rows() == old(table.Rows()) && table.nextId == old(table.nextId)
      ensures |old(table.Rows())| < table.maxConnections ==>
                && added == Some(old(table.nextId)) && table.nextId == old(table.nextId) + 1
                && table.Rows() == old(table.Rows())[old(table.nextId) :=
                     Connection(old(table.nextId), ep, Handshaking, NoHandshake, now, now, 0, 0)]
    {
      added := table.Add(ep);
      if added == None {
        return;
      }
      var slot := table.FindMutable(added.value);
      if slot.Some? {
        var c := table.entries[slot.value];
        table.Put(slot.value, c.(endpoint := ep, state := Handshaking, createdTick := now, lastRecvTick := now));
      }
    }

    method AcceptOne(ep: u32, now: nat, io: TransportSeam, table: ConnectionTable, session: Session)
      requires table.Valid()
      modifies this`conns, this`route, this`rejectedCapacity, io`sends, table
      ensures table.Valid()
      ensures Abs(io, table, session) == M.Accept(old(Abs(io, table, session)), ep, now, io.answers)
    {
      hide ConnectionTable.Valid, ConnectionTable.Rows, Session.Members;
      var added := OpenRow(ep, now, table);
      if added == None {
        rejectedCapacity := rejectedCapacity + 1;
        var _ := io.Send(ep, M.BYE, None);
        return;
      }
      var id := added.value;
      if id !in conns {
        conns := conns[id := M.HostConn(ep, 0, [], [])];
      }
      route := route[ep := id];
    }

    method Deliver(id: nat, message: u16, body: seq<u8>, now: nat,
                   io: TransportSeam, table: ConnectionTable, session: Session)
      requires table.Valid() && session.Valid() && id in conns
      modifies this`conns, this`route, this`droppedDatagrams, this`queued, io`sends, table, session
      ensures table.Valid() && session.Valid()
      ensures Abs(io, table, session) == M.Deliver(old(Abs(io, table, session)), id, message, body, now, io.answers)
    {
      if IsHandshakeId(message) {
        var msg := DeserializeHandshake(message, body);
        if msg == None {
          droppedDatagrams := droppedDatagrams + 1;
          return;
        }
        conns := conns[id := conns[id].(inbox := conns[id].inbox + [msg.value])];
      } else if message == MSG_PING {
        EnqueueControl(id, MSG_PONG, TickPayload(now), io, table, session);
      } else if message == MSG_BYE {
        Disconnect(id, Graceful, io, table, session);
      }
    }

    /** c->lastRecvTick = currentTick. */
    method Touch(id: nat, slot: nat, now: nat, io: TransportSeam, table: ConnectionTable, session: Session)
      requires table.Valid() && id in table.Rows() && slot < |table.entries|
      requires table.entries[slot].id == id && table.entries[slot] == table.Rows()[id]
      modifies table`entries
      ensures table.Valid()
      ensures var h := old(Abs(io, table, session));
              Abs(io, table, session) == h.(table := h.table[id := h.table[id].(lastRecvTick := now)])
    {
      table.Put(slot, table.entries[slot].(lastRecvTick := now));
    }

    method RouteOne(dg: M.Datagram, now: nat, io: TransportSeam, table: ConnectionTable, session: Session)
      requires table.Valid() && session.Valid()
      modifies this`conns, this`route, this`droppedDatagrams, this`queued, io`sends, table, session
      ensures table.Valid() && session.Valid()
      ensures Abs(io, table, session) == M.Route(old(Abs(io, table, session)), dg, now, io.answers)
    {
      hide ConnectionTable.Valid, Session.Valid;
      if dg.from !in route {
        droppedDatagrams := droppedDatagrams + 1;
        return;
      }
      var id := route[dg.from];
      var slot := table.FindMutable(id);
      if slot == None {
        return;
      }
      var header := DeserializeHeader(dg.bytes);
      if header == None {
        droppedDatagrams := droppedDatagrams + 1;
        return;
      }
      Touch(id, slot.value, now, io, table, session);
      if id !in conns {
        return;
      }
      Deliver(id, header.value.messageId, dg.bytes[HEADER_SIZE..], now, io, table, session);
    }

    /** Take one message from an inbox and let it act on the handshake of the row. */
    method ConsumeOne(id: nat, slot: nat, authorize: M.Authenticator,
                      io: TransportSeam, table: ConnectionTable, session: Session) returns (res: HandshakeResult)
      requires table.Valid() && session.Valid()
      requires id in conns && conns[id].inbox != [] && id in table.Rows()
      requires slot < |table.entries| && table.entries[slot].id == id && table.entries[slot] == table.Rows()[id]
      modifies this`conns, this`consumed, table
      ensures table.Valid() && session.Valid()
      ensures var h := old(Abs(io, table, session));
              var allow := authorize(h.table[id], h.conns[id].inbox[0].nonce);
              && res == Advance(id, h.table[id].handshake, h.conns[id].inbox[0], allow)
              && Abs(io, table, session) == M.Consume(h, id, allow)
    {
      var m := conns[id].inbox[0];
      conns := conns[id := conns[id].(inbox := conns[id].inbox[1..])];
      var c := table.entries[slot];
      var allow := authorize(c, m.nonce);
      res := Advance(id, c.handshake, m, allow);
      table.Put(slot, c.(handshake := res.state));
      consumed := consumed + [M.Entry(id, M.Consumed(passes, m, allow, c.handshake, res.state))];
    }

    method PromoteOne(id: nat, now: nat, io: TransportSeam, table: ConnectionTable, session: Session)
      requires table.Valid() && session.Valid() && id in table.Rows()
      modifies table, session
      ensures table.Valid() && session.Valid()
      ensures Abs(io, table, session) == M.Promote(old(Abs(io, table, session)), id, now)
    {
      var slot := table.FindMutable(id);
      var c := table.entries[slot.value];
      if c.handshake == Established {
        table.Put(slot.value, c.(state := Connected, establishedTick := now, lastSendTick := now));
        var _ := session.Admit(id, now);
      }
    }

    method AdvanceOne(id: nat, now: nat, authorize: M.Authenticator,
                      io: TransportSeam, table: ConnectionTable, session: Session)
      requires table.Valid() && session.Valid()
      modifies this`conns, this`route, this`consumed, this`queued, io`sends, table, session
      ensures table.Valid() && session.Valid()
      ensures Abs(io, table, session) == M.AdvanceOne(old(Abs(io, table, session)), id, now, authorize, io.answers)
    {
      if id !in conns || conns[id].inbox == [] {
        return;
      }
      var slot := table.FindMutable(id);
      if slot == None {
        return;
      }
      var res := ConsumeOne(id, slot.value, authorize, io, table, session);
      if res.drop.Some? {
        Disconnect(id, res.drop.value, io, table, session);
        return;
      }
      if res.outbound.Some? {
        EnqueueControl(id, res.outbound.value.id, HandshakePayload(res.outbound.value.nonce), io, table, session);
      }
      PromoteOne(id, now, io, table, session);
    }

    method HeartbeatOne(id: nat, now: nat, io: TransportSeam, table: ConnectionTable, session: Session)
      requires table.Valid() && session.Valid()
      modifies this`conns, this`queued, table
      ensures table.Valid() && session.Valid()
      ensures Abs(io, table, session) == M.Heartbeat(old(Abs(io, table, session)), id, now)
    {
      var slot := table.FindMutable(id);
      if slot == None || table.entries[slot.value].state != Connected {
        return;
      }
      var c := table.entries[slot.value];
      if now >= c.lastSendTick + limits.heartbeatTicks {
        if id in conns {
          EnqueueControl(id, MSG_PING, TickPayload(now), io, table, session);
          table.Put(slot.value, c.(lastSendTick := now));
        }
      }
    }

    /** Sends one outbox until it is empty, the budget is reached, or the transport would block. */
    method DrainOne(id: nat, sent: nat, io: TransportSeam, table: ConnectionTable, session: Session)
      returns (total: nat, stop: bool)
      requires id in conns
      modifies this`conns, io`sends
      ensures M.Drained(Abs(io, table, session), total, stop)
           == M.DrainConn(old(Abs(io, table, session)), id, sent, io.answers)
    {
      total, stop := sent, false;
      ghost var goal := M.DrainConn(Abs(io, table, session), id, sent, io.answers);
      while conns[id].outbox != []
        invariant id in conns
        invariant !stop && M.DrainConn(Abs(io, table, session), id, total, io.answers) == goal
        decreases |conns[id].outbox|
      {
        var front := conns[id].outbox[0];
        if total + |front.bytes| > limits.maxBytesPerTick {
          stop := true;
          break;
        }
        var outcome := io.Send(conns[id].endpoint, front, Some(id));
        if outcome == WouldBlock {
          stop := true;
          break;
        }
        total := total + |front.bytes|;
        conns := conns[id := conns[id].(outbox := conns[id].outbox[1..])];
      }
    }

    /** Phases 2 to 4a of a tick. */
    method Intake(now: nat, io: TransportSeam, table: ConnectionTable, session: Session,
                  ghost input: M.TickInput)
      requires table.Valid() && session.Valid()
      requires input.accepted == io.acceptedReady && input.received == io.receivedReady
      modifies this, io, table, session
      ensures table.Valid() && session.Valid() && running == old(running)
      ensures Abs(io, table, session) == M.Intake(old(Abs(io, table, session)), now, input, io.answers)
    {
      hide ConnectionTable.Valid, Session.Valid, ConnectionTable.Rows, Session.Members;
      var eps := io.Accepted();
      AcceptAll(eps, now, io, table, session);
      var dgs := io.Received();
      RouteAll(dgs, now, io, table, session);
      var late := table.ScanTimeouts(now, limits);
      DisconnectAll(late, Timeout, io, table, session);
    }

    method AcceptAll(eps: seq<u32>, now: nat, io: TransportSeam, table: ConnectionTable, session: Session)
      requires table.Valid()
      modifies this`conns, this`route, this`rejectedCapacity, io`sends, table
      ensures table.Valid()
      ensures Abs(io, table, session) == M.AcceptFrom(old(Abs(io, table, session)), eps, 0, now, io.answers)
    {
      ghost var goal := M.AcceptFrom(Abs(io, table, session), eps, 0, now, io.answers);
      for i := 0 to |eps|
        invariant table.Valid()
        invariant M.AcceptFrom(Abs(io, table, session), eps, i, now, io.answers) == goal
      {
        AcceptOne(eps[i], now, io, table, session);
      }
    }

    method RouteAll(dgs: seq<M.Datagram>, now: nat, io: TransportSeam, table: ConnectionTable, session: Session)
      requires table.Valid() && session.Valid()
      modifies this`conns, this`route, this`droppedDatagrams, this`queued, io`sends, table, session
      ensures table.Valid() && session.Valid()
      ensures Abs(io, table, session) == M.RouteFrom(old(Abs(io, table, session)), dgs, 0, now, io.answers)
    {
      ghost var goal := M.RouteFrom(Abs(io, table, session), dgs, 0, now, io.answers);
      for i := 0 to |dgs|
        invariant table.Valid() && session.Valid()
        invariant M.RouteFrom(Abs(io, table, session), dgs, i, now, io.answers) == goal
      {
        RouteOne(dgs[i], now, io, table, session);
      }
    }

    /** Phases 4b and 5 of a tick. */
    method Progress(now: nat, authorize: M.Authenticator, io: TransportSeam, table: ConnectionTable, session: Session)
      requires table.Valid() && session.Valid()
      modifies this`conns, this`route, this`consumed, this`queued, io`sends, table, session
      ensures table.Valid() && session.Valid()
      ensures Abs(io, table, session) == M.Progress(old(Abs(io, table, session)), now, authorize, io.answers)
    {
      AdvanceAll(now, authorize, io, table, session);
      HeartbeatAll(now, io, table, session);
    }

    method AdvanceAll(now: nat, authorize: M.Authenticator, io: TransportSeam, table: ConnectionTable, session: Session)
      requires table.Valid() && session.Valid()
      modifies this`conns, this`route, this`consumed, this`queued, io`sends, table, session
      ensures table.Valid() && session.Valid()
      ensures var h := old(Abs(io, table, session));
              Abs(io, table, session) == M.AdvanceFrom(h, M.Ids(h), 0, now, authorize, io.answers)
    {
      var ids := table.Ids();
      hide ConnectionTable.Valid, Session.Valid;
      ghost var goal := M.AdvanceFrom(Abs(io, table, session), ids, 0, now, authorize, io.answers);
      for i := 0 to |ids|
        invariant table.Valid() && session.Valid()
        invariant M.AdvanceFrom(Abs(io, table, session), ids, i, now, authorize, io.answers) == goal
      {
        AdvanceOne(ids[i], now, authorize, io, table, session);
      }
    }

    method HeartbeatAll(now: nat, io: TransportSeam, table: ConnectionTable, session: Session)
      requires table.Valid() && session.Valid()
      modifies this`conns, this`queued, table
      ensures table.Valid() && session.Valid()
      ensures var h := old(Abs(io, table, session));
              Abs(io, table, session) == M.HeartbeatFrom(h, M.Ids(h), 0, now)
    {
      var ids := table.Ids();
      ghost var goal := M.HeartbeatFrom(Abs(io, table, session), ids, 0, now);
      for i := 0 to |ids|
        invariant table.Valid() && session.Valid()
        invariant M.HeartbeatFrom(Abs(io, table, session), ids, i, now) == goal
      {
        HeartbeatOne(ids[i], now, io, table, session);
      }
    }

    method DrainAll(io: TransportSeam, table: ConnectionTable, session: Session)
      requires table.Valid()
      modifies this`conns, io`sends
      ensures var h := old(Abs(io, table, session));
              Abs(io, table, session) == M.DrainFrom(h, M.Ids(h), 0, 0, io.answers)
    {
      var ids := table.Ids();
      var sent, stop := 0, false;
      ghost var goal := M.DrainFrom(Abs(io, table, session), ids, 0, 0, io.answers);
      for i := 0 to |ids|
        invariant !stop && M.DrainFrom(Abs(io, table, session), ids, i, sent, io.answers) == goal
      {
        if ids[i] in conns {
          sent, stop := DrainOne(ids[i], sent, io, table, session);
          if stop {
            break;
          }
        }
      }
    }

    /** History: a new pass begins. */
    ghost method BeginPass(io: TransportSeam, table: ConnectionTable, session: Session)
      modifies this`passes
      ensures Abs(io, table, session) == old(Abs(io, table, session)).(passes := old(passes) + 1)
    {
      passes := passes + 1;
    }

    /** The body of a tick of a running host. */
    method Pump(now: nat, authorize: M.Authenticator, io: TransportSeam, table: ConnectionTable, session: Session,
                ghost input: M.TickInput)
      requires table.Valid() && session.Valid()
      requires input == M.TickInput(io.acceptedReady, io.receivedReady, authorize)
      modifies this, io, table, session
      ensures table.Valid() && session.Valid()
      ensures Abs(io, table, session) == M.Pump(old(Abs(io, table, session)), now, input, io.answers)
    {
      Intake(now, io, table, session, input);
      Progress(now, authorize, io, table, session);
      DrainAll(io, table, session);
    }

    /** One pass of the pump over what the transport has ready. */
    method Tick(now: nat, authorize: M.Authenticator, io: TransportSeam, table: ConnectionTable, session: Session)
      requires table.Valid() && session.Valid()
      modifies this, io, table, session
      ensures table.Valid() && session.Valid()
      ensures Abs(io, table, session)
           == M.Tick(old(Abs(io, table, session)), now,
                     M.TickInput(old(io.acceptedReady), old(io.receivedReady), authorize), io.answers)
    {
      hide ConnectionTable.Valid, Session.Valid, ConnectionTable.Rows, Session.Members;
      if running {
        ghost var input := M.TickInput(io.acceptedReady, io.receivedReady, authorize);
        ghost var h := Abs(io, table, session);
        assert M.Tick(h, now, input, io.answers) == M.Pump(h.(passes := h.passes + 1), now, input, io.answers);
        BeginPass(io, table, session);
        Pump(now, authorize, io, table, session, input);
      }
    }
  }
}
