/** The handshake, heartbeat and drain phases and the whole tick keep the invariant. */
module HostSteps {
  import opened Prelude
  import opened Sorted
  import opened NetTypes
  import opened HostModel
  import opened HostInvariant

  // ------------------------------------------------------------- one handshake advance

  /** h' is h after connection id consumed its oldest message and its row became c2. */
  ghost predicate Shook(h: Host, h': Host, id: nat, c2: Connection, seen: Consumed)
    requires id in h.conns && id in h.table && h.conns[id].inbox != []
  {
    var c := h.conns[id];
    && h'.table == h.table[id := c2]
    && h'.conns == h.conns[id := c.(inbox := c.inbox[1..])]
    && h'.route == h.route && h'.nextId == h.nextId && h'.passes == h.passes
    && h'.maxConnections == h.maxConnections && h'.maxMembers == h.maxMembers
    && h'.sends == h.sends && h'.queued == h.queued
    && h'.consumed == h.consumed + [Entry(id, seen)]
    && c2.id == h.table[id].id && c2.endpoint == h.table[id].endpoint
    && seen.pass == h.passes
  }

  lemma ShookRouted(h: Host, h': Host, id: nat, c2: Connection, seen: Consumed)
    requires Routed(h) && id in h.conns && id in h.table && h.conns[id].inbox != []
    requires Shook(h, h', id, c2, seen)
    ensures Routed(h')
  {
  }

  lemma ShookRows(h: Host, h': Host, id: nat, c2: Connection, seen: Consumed)
    requires InStep(h) && id in h.table && h.conns[id].inbox != [] && Shook(h, h', id, c2, seen)
    requires c2.state == Connected || c2.state == Handshaking
    requires c2.state == Connected <==> c2.handshake == Established
    ensures h'.conns.Keys == h'.table.Keys == h.table.Keys
    ensures Rows(h') && Routed(h')
  {
    hide Routed;
    ShookRouted(h, h', id, c2, seen);
    assert h'.table.Keys == h.table.Keys;
    assert h'.conns.Keys == h.conns.Keys;
    forall k | k in h'.table ensures RowOk(h', k) {
      assert RowOk(h, k);
    }
  }

  lemma ShookMembership(h: Host, h': Host, id: nat, c2: Connection, seen: Consumed)
    requires Membership(h) && id in h.table && id in h.conns && h.conns[id].inbox != []
    requires Shook(h, h', id, c2, seen)
    requires c2.state == h.table[id].state && h'.members == h.members
    ensures Membership(h')
  {
  }

  lemma {:induction false} ShookPaced(h: Host, h': Host, id: nat, c2: Connection, seen: Consumed, k: nat)
    requires InStep(h) && id in h.table && h.conns[id].inbox != [] && Shook(h, h', id, c2, seen)
    requires Paced(h, k) && Untouched(h, id)
    ensures Paced(h', k)
    ensures Of(h'.consumed, k) == Of(h.consumed, k) + if k == id then [seen] else []
  {
    OfSnoc(h.consumed, Entry(id, seen), k);
    assert RowOk(h, id);
  }

  lemma HelloEach(h: Host, h': Host, id: nat, c2: Connection, seen: Consumed, k: nat)
    requires InStep(h) && Told(h, k) && id in h.table && h.conns[id].inbox != [] && Shook(h, h', id, c2, seen)
    requires h.table[id].handshake == NoHandshake && Untouched(h, id)
    requires c2.state == h.table[id].state && c2.handshake == ChallengeSent && GoodHello(seen)
    requires h'.members == h.members && h'.observed == h.observed
    ensures Told(h', k)
  {
    assert RowOk(h, id);
    ShookPaced(h, h', id, c2, seen, k);
    if k != id {
      assert Of(h.consumed, k) + [] == Of(h.consumed, k);
      SameTold(h, h', k);
    } else {
      HelloTold(h, h', id, seen);
    }
  }

  /** A step that leaves the row connecting: the first message was an acceptable Hello. */
  lemma HelloKeeps(h: Host, h': Host, id: nat, c2: Connection, seen: Consumed)
    requires Inv(h) && id in h.table && h.conns[id].inbox != [] && Shook(h, h', id, c2, seen)
    requires h.table[id].handshake == NoHandshake && Untouched(h, id)
    requires c2.state == h.table[id].state && c2.handshake == ChallengeSent && GoodHello(seen)
    requires h'.members == h.members && h'.observed == h.observed
    ensures Inv(h')
  {
    assert RowOk(h, id);
    ShookRows(h, h', id, c2, seen);
    ShookMembership(h, h', id, c2, seen);
    forall k: nat ensures Told(h', k) {
      HelloEach(h, h', id, c2, seen, k);
    }
  }

  lemma {:induction false} HelloTold(h: Host, h': Host, id: nat, seen: Consumed)
    requires Told(h, id) && id in h.table && id in h.conns && id < h.nextId
    requires h.table[id].handshake == NoHandshake && GoodHello(seen)
    requires id in h'.table && h'.table[id].handshake == ChallengeSent && Paced(h', id)
    requires Of(h'.consumed, id) == Of(h.consumed, id) + [seen]
    requires id in h'.conns && h'.conns[id].outbox == h.conns[id].outbox
    requires h'.conns[id].outSequence == h.conns[id].outSequence
    requires h'.members == h.members && h'.observed == h.observed
    requires h'.sends == h.sends && h'.queued == h.queued && h'.nextId == h.nextId
    ensures Told(h', id)
  {
    assert Of(h.consumed, id) == [];
  }

  /** A proper subset is smaller. */
  lemma StrictSubsetSize(a: set<nat>, b: set<nat>, x: nat)
    requires a <= b && x in b && x !in a
    ensures |a| < |b|
  {
    assert b == a + (b - a) && x in b - a;
  }

  /** Admission cannot fail: the members are rows, and the connection's own row is not yet one. */
  lemma RoomForMember(h: Host, id: nat)
    requires InStep(h) && id in h.table && h.table[id].state != Connected
    ensures id !in h.members && |h.members| < h.maxMembers
  {
    assert h.members.Keys <= h.table.Keys;
    StrictSubsetSize(h.members.Keys, h.table.Keys, id);
    assert |h.members| == |h.members.Keys|;
  }

  /** The last step: the row becomes Connected and a member at once. */
  lemma ResponseKeeps(h: Host, h': Host, id: nat, c2: Connection, seen: Consumed, now: nat)
    requires Inv(h) && id in h.table && h.conns[id].inbox != [] && Shook(h, h', id, c2, seen)
    requires h.table[id].handshake == ChallengeSent && Untouched(h, id)
    requires c2.state == Connected && c2.handshake == Established && GoodResponse(seen, id)
    requires h'.members == h.members[id := now]
    requires h'.observed == h.observed + [Entry(id, Joined(now))]
    ensures Inv(h')
  {
    assert RowOk(h, id);
    ShookRows(h, h', id, c2, seen);
    assert Membership(h');
    forall k: nat ensures Told(h', k) {
      assert Told(h, k);
      ShookPaced(h, h', id, c2, seen, k);
      OfSnoc(h.observed, Entry(id, Joined(now)), k);
      if k != id {
        assert Of(h.consumed, k) + [] == Of(h.consumed, k);
        assert Of(h.observed, k) + [] == Of(h.observed, k);
        SameTold(h, h', k);
      } else {
        ResponseTold(h, h', id, seen, now);
      }
    }
  }

  lemma {:induction false} ResponseTold(h: Host, h': Host, id: nat, seen: Consumed, now: nat)
    requires Told(h, id) && id in h.table && id in h.conns && id < h.nextId && id !in h.members
    requires h.table[id].handshake == ChallengeSent && GoodResponse(seen, id) && Untouched(h, id)
    requires id in h'.table && h'.table[id].handshake == Established && Paced(h', id)
    requires Of(h'.consumed, id) == Of(h.consumed, id) + [seen] && seen.pass == h.passes
    requires Of(h'.observed, id) == Of(h.observed, id) + [Joined(now)]
    requires id in h'.members && h'.members[id] == now
    requires id in h'.conns && h'.conns[id].outbox == h.conns[id].outbox
    requires h'.conns[id].outSequence == h.conns[id].outSequence
    requires h'.sends == h.sends && h'.queued == h.queued && h'.nextId == h.nextId
    ensures Told(h', id)
  {
    assert Of(h.observed, id) == [];
    assert |Of(h.consumed, id)| == 1 && GoodHello(Of(h.consumed, id)[0]);
    assert Of(h.consumed, id)[0] in Of(h.consumed, id);
  }

  /** Enqueueing a reply and promoting the row touch different fields. */
  lemma ReplyThenPromote(h: Host, id: nat, o: OutboundControl, now: nat)
    requires id in h.conns && id in h.table
    ensures Promote(Reply(h, id, Some(o)), id, now)
         == Enqueue(Promote(h, id, now), id, o.id, HandshakePayload(o.nonce))
  {
  }

  lemma AcceptedHello(h: Host, id: nat, allow: bool, now: nat)
    requires Inv(h) && Untouched(h, id) && id in h.table && h.conns[id].inbox != []
    requires h.table[id].handshake == NoHandshake
    requires Advance(id, NoHandshake, h.conns[id].inbox[0], allow).advanced
    ensures Inv(Promote(Consume(h, id, allow), id, now)) && id in Promote(Consume(h, id, allow), id, now).conns
  {
    var h1 := Consume(h, id, allow);
    assert RowOk(h, id);
    HelloKeeps(h, h1, id, h1.table[id],
               Consumed(h.passes, h.conns[id].inbox[0], allow, NoHandshake, ChallengeSent));
  }

  lemma AcceptedResponse(h: Host, id: nat, allow: bool, now: nat)
    requires Inv(h) && Untouched(h, id) && id in h.table && h.conns[id].inbox != []
    requires h.table[id].handshake == ChallengeSent
    requires Advance(id, ChallengeSent, h.conns[id].inbox[0], allow).advanced
    ensures Inv(Promote(Consume(h, id, allow), id, now)) && id in Promote(Consume(h, id, allow), id, now).conns
  {
    var h2 := Promote(Consume(h, id, allow), id, now);
    assert RowOk(h, id);
    RoomForMember(h, id);
    var c2 := h.table[id].(handshake := Established, state := Connected, establishedTick := now, lastSendTick := now);
    assert h2.table == h.table[id := c2];
    ResponseKeeps(h, h2, id, c2,
                  Consumed(h.passes, h.conns[id].inbox[0], allow, ChallengeSent, Established), now);
  }

  /** On a live connection a buffered message is either an advance with a reply, or a refusal. */
  lemma AdvanceOrDrop(h: Host, id: nat, allow: bool)
    requires Inv(h) && id in h.table && h.conns[id].inbox != []
    ensures var res := Advance(id, h.table[id].handshake, h.conns[id].inbox[0], allow);
            res.drop.Some? != (res.advanced && res.outbound.Some?)
    ensures Advance(id, h.table[id].handshake, h.conns[id].inbox[0], allow).drop.None? ==>
              h.table[id].handshake == NoHandshake || h.table[id].handshake == ChallengeSent
  {
    assert RowOk(h, id) && Told(h, id);
    assert h.conns[id].inbox[0] in h.conns[id].inbox;
  }

  /** AdvanceOne when the message is accepted: promote, then queue the reply. */
  lemma AdvancedIs(h: Host, id: nat, now: nat, authorize: Authenticator, io: Transport)
    requires id in h.table && id in h.conns && h.conns[id].inbox != []
    requires var allow := authorize(h.table[id], h.conns[id].inbox[0].nonce);
      var res := Advance(id, h.table[id].handshake, h.conns[id].inbox[0], allow);
      res.drop.None? && res.outbound.Some?
    ensures var allow := authorize(h.table[id], h.conns[id].inbox[0].nonce);
      var o := Advance(id, h.table[id].handshake, h.conns[id].inbox[0], allow).outbound.value;
      AdvanceOne(h, id, now, authorize, io)
        == Enqueue(Promote(Consume(h, id, allow), id, now), id, o.id, HandshakePayload(o.nonce))
  {
    var allow := authorize(h.table[id], h.conns[id].inbox[0].nonce);
    var o := Advance(id, h.table[id].handshake, h.conns[id].inbox[0], allow).outbound.value;
    ReplyThenPromote(Consume(h, id, allow), id, o, now);
  }

  lemma AcceptedKeeps(h: Host, id: nat, allow: bool, now: nat, message: u16, payload: seq<u8>)
    requires Inv(h) && Untouched(h, id) && id in h.table && h.conns[id].inbox != []
    requires Advance(id, h.table[id].handshake, h.conns[id].inbox[0], allow).drop.None?
    ensures id in Promote(Consume(h, id, allow), id, now).conns
    ensures Inv(Enqueue(Promote(Consume(h, id, allow), id, now), id, message, payload))
  {
    AdvanceOrDrop(h, id, allow);
    if h.table[id].handshake == NoHandshake {
      AcceptedHello(h, id, allow, now);
    } else {
      AcceptedResponse(h, id, allow, now);
    }
    EnqueueKeeps(Promote(Consume(h, id, allow), id, now), id, message, payload);
  }

  lemma AdvanceOneKeeps(h: Host, id: nat, now: nat, authorize: Authenticator, io: Transport)
    requires Inv(h) && Untouched(h, id)
    ensures Inv(AdvanceOne(h, id, now, authorize, io))
  {
    if id in h.table && h.conns[id].inbox != [] {
      var allow := authorize(h.table[id], h.conns[id].inbox[0].nonce);
      var res := Advance(id, h.table[id].handshake, h.conns[id].inbox[0], allow);
      AdvanceOrDrop(h, id, allow);
      if res.drop.Some? {
        RefusedKeeps(h, id, allow, res.drop.value, io);
      } else {
        AdvancedIs(h, id, now, authorize, io);
        AcceptedKeeps(h, id, allow, now, res.outbound.value.id, HandshakePayload(res.outbound.value.nonce));
      }
    }
  }

  lemma RefusedEach(h: Host, h1: Host, id: nat, seen: Consumed, k: nat)
    requires InStep(h) && Told(h, k) && Untouched(h, id) && id in h.table && h.conns[id].inbox != []
    requires Shook(h, h1, id, h.table[id], seen) && h1.members == h.members && h1.observed == h.observed
    ensures Lifetime(h1, k) && Fifo(h1, k) && Paced(h1, k) && (k in h1.table && k != id ==> Shaken(h1, k))
  {
    ShookPaced(h, h1, id, h.table[id], seen, k);
    RefusedTold(h, h1, id, seen, k);
  }

  /** A refused message leaves the row as it was. */
  lemma RefusedShakes(h: Host, id: nat, allow: bool)
    requires id in h.conns && id in h.table && h.conns[id].inbox != []
    requires Advance(id, h.table[id].handshake, h.conns[id].inbox[0], allow).drop.Some?
    ensures var h1 := Consume(h, id, allow);
            var seen := Consumed(h.passes, h.conns[id].inbox[0], allow, h.table[id].handshake, h.table[id].handshake);
            && h1.table == h.table && h1.members == h.members && h1.observed == h.observed
            && Shook(h, h1, id, h.table[id], seen)
  {
    assert h.table[id := h.table[id]] == h.table;
  }

  /** A refused message: the row is dropped before anyone can see the longer record. */
  lemma RefusedKeeps(h: Host, id: nat, allow: bool, reason: DisconnectReason, io: Transport)
    requires Inv(h) && Untouched(h, id) && id in h.table && h.conns[id].inbox != []
    requires Advance(id, h.table[id].handshake, h.conns[id].inbox[0], allow).drop == Some(reason)
    ensures Inv(Disconnect(Consume(h, id, allow), id, reason, io))
  {
    hide Lifetime, Fifo, Paced, Shaken, Consume, Routed;
    var h1 := Consume(h, id, allow);
    var seen := Consumed(h.passes, h.conns[id].inbox[0], allow, h.table[id].handshake, h.table[id].handshake);
    assert RowOk(h, id);
    RefusedShakes(h, id, allow);
    ShookRows(h, h1, id, h.table[id], seen);
    forall k: nat
      ensures Lifetime(h1, k) && Fifo(h1, k) && Paced(h1, k) && (k in h1.table && k != id ==> Shaken(h1, k))
    {
      assert Told(h, k);
      RefusedEach(h, h1, id, seen, k);
    }
    DisconnectRestores(h1, id, reason, io);
  }

  lemma {:induction false} RefusedTold(h: Host, h1: Host, id: nat, seen: Consumed, k: nat)
    requires Told(h, k) && id in h.table && id in h.conns && h.conns[id].inbox != []
    requires Shook(h, h1, id, h.table[id], seen) && h1.members == h.members && h1.observed == h.observed
    requires Of(h1.consumed, k) == Of(h.consumed, k) + if k == id then [seen] else []
    ensures Lifetime(h1, k) && Fifo(h1, k) && (k in h1.table && k != id ==> Shaken(h1, k))
  {
    if k != id {
      assert Of(h.consumed, k) + [] == Of(h.consumed, k);
    }
  }

  // ---------------------------------------------------------------- the phases as folds

  /** Nobody has consumed a handshake message in this pass. */
  ghost predicate Unpaced(h: Host) {
    forall id: nat :: Untouched(h, id)
  }

  ghost predicate SamePass(h: Host, h': Host) {
    h'.consumed == h.consumed && h'.passes == h.passes
  }

  lemma SamePassUnpaced(h: Host, h': Host)
    requires Unpaced(h) && SamePass(h, h')
    ensures Unpaced(h')
  {
    forall id: nat ensures Untouched(h', id) {
      assert Untouched(h, id);
    }
  }

  lemma NewPass(h: Host)
    requires Inv(h)
    ensures Inv(h.(passes := h.passes + 1)) && Unpaced(h.(passes := h.passes + 1))
  {
    var h' := h.(passes := h.passes + 1);
    SameShapeInStep(h, h');
    forall k: nat ensures Told(h', k) && Untouched(h', k) {
      assert Told(h, k);
      SameTold(h, h', k);
    }
  }

  /** Each endpoint, when its turn comes, is not in use, or the table is full and it is turned away. */
  ghost predicate Welcome(h: Host, eps: seq<u32>, i: nat, now: nat, io: Transport)
    requires i <= |eps|
    decreases |eps| - i
  {
    i == |eps|
    || ((eps[i] !in h.route || |h.table| >= h.maxConnections)
        && Welcome(Accept(h, eps[i], now, io), eps, i + 1, now, io))
  }

  lemma {:induction false} AcceptFromKeeps(h: Host, eps: seq<u32>, i: nat, now: nat, io: Transport)
    requires Inv(h) && i <= |eps| && Welcome(h, eps, i, now, io)
    ensures Inv(AcceptFrom(h, eps, i, now, io)) && SamePass(h, AcceptFrom(h, eps, i, now, io))
    decreases |eps| - i
  {
    if i < |eps| {
      AcceptKeeps(h, eps[i], now, io);
      AcceptFromKeeps(Accept(h, eps[i], now, io), eps, i + 1, now, io);
    }
  }

  /** In step now and after each accept to come. */
  ghost predicate InStepThrough(h: Host, eps: seq<u32>, i: nat, now: nat, io: Transport)
    requires i <= |eps|
    decreases |eps| - i
  {
    InStep(h) && (i < |eps| ==> InStepThrough(Accept(h, eps[i], now, io), eps, i + 1, now, io))
  }

  /** The accept phase is in step throughout exactly when every endpoint is welcome. */
  lemma {:induction false} WelcomeIff(h: Host, eps: seq<u32>, i: nat, now: nat, io: Transport)
    requires InStep(h) && i <= |eps|
    ensures InStepThrough(h, eps, i, now, io) <==> Welcome(h, eps, i, now, io)
    decreases |eps| - i
  {
    if i < |eps| {
      AcceptInStepIff(h, eps[i], now, io);
      if InStep(Accept(h, eps[i], now, io)) {
        WelcomeIff(Accept(h, eps[i], now, io), eps, i + 1, now, io);
      }
    }
  }

  lemma RouteSamePass(h: Host, dg: Datagram, now: nat, io: Transport)
    ensures SamePass(h, Route(h, dg, now, io))
  {
  }

  lemma {:induction false} RouteFromKeeps(h: Host, dgs: seq<Datagram>, i: nat, now: nat, io: Transport)
    requires Inv(h) && i <= |dgs|
    ensures Inv(RouteFrom(h, dgs, i, now, io)) && SamePass(h, RouteFrom(h, dgs, i, now, io))
    decreases |dgs| - i
  {
    if i < |dgs| {
      RouteKeeps(h, dgs[i], now, io);
      RouteSamePass(h, dgs[i], now, io);
      RouteFromKeeps(Route(h, dgs[i], now, io), dgs, i + 1, now, io);
    }
  }

  lemma {:induction false} DisconnectFromKeeps(
    h: Host, ids: seq<nat>, i: nat, reason: DisconnectReason, io: Transport)
    requires Inv(h) && i <= |ids|
    ensures Inv(DisconnectFrom(h, ids, i, reason, io)) && SamePass(h, DisconnectFrom(h, ids, i, reason, io))
    decreases |ids| - i
  {
    if i < |ids| {
      DisconnectKeeps(h, ids[i], reason, io);
      DisconnectFromKeeps(Disconnect(h, ids[i], reason, io), ids, i + 1, reason, io);
    }
  }

  lemma PromoteSamePass(h: Host, id: nat, out: Option<OutboundControl>, now: nat)
    requires id in h.table && id in h.conns
    ensures SamePass(h, Promote(Reply(h, id, out), id, now))
  {
  }

  lemma DisconnectSamePass(h: Host, id: nat, reason: DisconnectReason, io: Transport)
    ensures SamePass(h, Disconnect(h, id, reason, io))
  {
  }

  /** AdvanceOne consumes at most one message, and only of its own connection. */
  lemma AdvanceOneTouches(h: Host, id: nat, now: nat, authorize: Authenticator, io: Transport)
    ensures var h' := AdvanceOne(h, id, now, authorize, io);
            && h'.passes == h.passes
            && (h'.consumed == h.consumed || exists c :: h'.consumed == h.consumed + [Entry(id, c)])
  {
    if id in h.conns && h.conns[id].inbox != [] && id in h.table {
      var m := h.conns[id].inbox[0];
      var allow := authorize(h.table[id], m.nonce);
      var res := Advance(id, h.table[id].handshake, m, allow);
      var h1 := Consume(h, id, allow);
      var c := Consumed(h.passes, m, allow, h.table[id].handshake, res.state);
      assert h1.consumed == h.consumed + [Entry(id, c)];
      match res.drop {
        case Some(reason) => DisconnectSamePass(h1, id, reason, io);
        case None => PromoteSamePass(h1, id, res.outbound, now);
      }
    }
  }

  lemma AdvanceOneUntouched(h: Host, id: nat, now: nat, authorize: Authenticator, io: Transport, k: nat)
    requires Untouched(h, k) && k != id
    ensures Untouched(AdvanceOne(h, id, now, authorize, io), k)
  {
    var h' := AdvanceOne(h, id, now, authorize, io);
    AdvanceOneTouches(h, id, now, authorize, io);
    if h'.consumed != h.consumed {
      var c :| h'.consumed == h.consumed + [Entry(id, c)];
      OfSnoc(h.consumed, Entry(id, c), k);
    }
  }

  lemma {:induction false} AdvanceFromKeeps(
    h: Host, ids: seq<nat>, i: nat, now: nat, authorize: Authenticator, io: Transport)
    requires Inv(h) && i <= |ids| && Ascending(ids)
    requires forall j :: i <= j < |ids| ==> Untouched(h, ids[j])
    ensures Inv(AdvanceFrom(h, ids, i, now, authorize, io))
    decreases |ids| - i
  {
    if i < |ids| {
      AdvanceOneKeeps(h, ids[i], now, authorize, io);
      var h1 := AdvanceOne(h, ids[i], now, authorize, io);
      forall j | i + 1 <= j < |ids| ensures Untouched(h1, ids[j]) {
        AdvanceOneUntouched(h, ids[i], now, authorize, io, ids[j]);
      }
      AdvanceFromKeeps(h1, ids, i + 1, now, authorize, io);
    }
  }

  lemma HeartbeatKeeps(h: Host, id: nat, now: nat)
    requires Inv(h)
    ensures Inv(Heartbeat(h, id, now))
  {
    if id in h.table {
      assert RowOk(h, id);
      EnqueueKeeps(h, id, MSG_PING, TickPayload(now));
      var h1 := Enqueue(h, id, MSG_PING, TickPayload(now));
      StampKeeps(h1, id, h1.table[id].(lastSendTick := now));
    }
  }

  lemma {:induction false} HeartbeatFromKeeps(h: Host, ids: seq<nat>, i: nat, now: nat)
    requires Inv(h) && i <= |ids|
    ensures Inv(HeartbeatFrom(h, ids, i, now))
    decreases |ids| - i
  {
    if i < |ids| {
      HeartbeatKeeps(h, ids[i], now);
      HeartbeatFromKeeps(Heartbeat(h, ids[i], now), ids, i + 1, now);
    }
  }

  /** The front of the outbox moves to the end of what was taken. */
  lemma {:induction false} FifoShift(h: Host, h': Host, id: nat)
    requires id in h.conns && id in h'.conns && Fifo(h, id) && h.conns[id].outbox != []
    requires Taken(h'.sends, id) == Taken(h.sends, id) + [h.conns[id].outbox[0]]
    requires h'.conns[id].outbox == h.conns[id].outbox[1..]
    requires h'.conns[id].outSequence == h.conns[id].outSequence
    requires h'.queued == h.queued && h'.nextId == h.nextId
    ensures Fifo(h', id)
  {
    var c := h.conns[id];
    assert Taken(h.sends, id) + [c.outbox[0]] + c.outbox[1..] == Taken(h.sends, id) + c.outbox;
  }

  lemma HandOverTold(h: Host, id: nat, outcome: TransportOutcome, k: nat)
    requires Told(h, k) && id in h.conns && h.conns[id].outbox != []
    ensures Told(HandOver(h, id, outcome), k)
  {
    var h' := HandOver(h, id, outcome);
    var c := h.conns[id];
    TakenSnoc(h.sends, SendRecord(c.endpoint, c.outbox[0], outcome, Some(id)), k);
    if k == id && outcome != WouldBlock {
      FifoShift(h, h', id);
    } else {
      assert Taken(h.sends, k) + [] == Taken(h.sends, k);
      SameTold(h, h', k);
    }
  }

  lemma HandOverShape(h: Host, id: nat, outcome: TransportOutcome)
    requires id in h.conns && h.conns[id].outbox != []
    ensures SameShape(h, HandOver(h, id, outcome))
  {
  }

  lemma HandOverKeeps(h: Host, id: nat, outcome: TransportOutcome)
    requires Inv(h) && id in h.conns && h.conns[id].outbox != []
    ensures Inv(HandOver(h, id, outcome))
  {
    HandOverShape(h, id, outcome);
    SameShapeInStep(h, HandOver(h, id, outcome));
    forall k: nat ensures Told(HandOver(h, id, outcome), k) {
      HandOverTold(h, id, outcome, k);
    }
  }

  /** A step that hands over the front of some outbox keeps P. */
  ghost predicate HandOverSafe(P: Host -> bool) {
    forall g: Host, id: nat, o: TransportOutcome ::
      P(g) && id in g.conns && g.conns[id].outbox != [] ==> P(HandOver(g, id, o))
  }

  /** The drain loops only ever hand over: what a hand-over keeps, they keep. */
  lemma {:induction false} DrainConnRule(P: Host -> bool, h: Host, id: nat, sent: nat, io: Transport)
    requires HandOverSafe(P) && P(h) && id in h.conns
    ensures P(DrainConn(h, id, sent, io).host)
    decreases |h.conns[id].outbox|
  {
    var c := h.conns[id];
    if c.outbox != [] && sent + |c.outbox[0].bytes| <= h.limits.maxBytesPerTick {
      var h1 := HandOver(h, id, io(|h.sends|));
      assert P(h1);
      if io(|h.sends|) != WouldBlock {
        DrainConnRule(P, h1, id, sent + |c.outbox[0].bytes|, io);
      }
    }
  }

  lemma {:induction false} DrainFromRule(P: Host -> bool, h: Host, ids: seq<nat>, i: nat, sent: nat, io: Transport)
    requires HandOverSafe(P) && P(h) && i <= |ids|
    ensures P(DrainFrom(h, ids, i, sent, io))
    decreases |ids| - i
  {
    if i < |ids| {
      if ids[i] !in h.conns {
        DrainFromRule(P, h, ids, i + 1, sent, io);
      } else {
        DrainConnRule(P, h, ids[i], sent, io);
        var r := DrainConn(h, ids[i], sent, io);
        if !r.stop {
          DrainFromRule(P, r.host, ids, i + 1, r.sent, io);
        }
      }
    }
  }

  lemma {:induction false} DrainFromKeeps(h: Host, ids: seq<nat>, i: nat, sent: nat, io: Transport)
    requires Inv(h) && i <= |ids|
    ensures Inv(DrainFrom(h, ids, i, sent, io))
  {
    var P := (g: Host) => Inv(g);
    forall g: Host, id: nat, o: TransportOutcome | P(g) && id in g.conns && g.conns[id].outbox != []
      ensures P(HandOver(g, id, o))
    {
      HandOverKeeps(g, id, o);
    }
    DrainFromRule(P, h, ids, i, sent, io);
  }

  /** What the transport must not do in a tick of a running host: surface a live endpoint while there is room. */
  ghost predicate Orderly(h: Host, now: nat, input: TickInput, io: Transport) {
    h.running ==> Welcome(h.(passes := h.passes + 1), input.accepted, 0, now, io)
  }

  lemma {:induction false} IntakeKeeps(h: Host, now: nat, input: TickInput, io: Transport)
    requires Inv(h) && Unpaced(h) && Welcome(h, input.accepted, 0, now, io)
    ensures Inv(Intake(h, now, input, io)) && Unpaced(Intake(h, now, input, io))
  {
    AcceptFromKeeps(h, input.accepted, 0, now, io);
    var h1 := AcceptFrom(h, input.accepted, 0, now, io);
    RouteFromKeeps(h1, input.received, 0, now, io);
    var h2 := RouteFrom(h1, input.received, 0, now, io);
    DisconnectFromKeeps(h2, TimedOut(h2, now), 0, Timeout, io);
    SamePassUnpaced(h, Intake(h, now, input, io));
  }

  lemma ProgressKeeps(h: Host, now: nat, authorize: Authenticator, io: Transport)
    requires Inv(h) && Unpaced(h)
    ensures Inv(Progress(h, now, authorize, io))
  {
    ListingIsAscending(h.table.Keys);
    AdvanceFromKeeps(h, Ids(h), 0, now, authorize, io);
    var h1 := AdvanceFrom(h, Ids(h), 0, now, authorize, io);
    HeartbeatFromKeeps(h1, Ids(h1), 0, now);
  }

  /** The state in which a tick starts to drain. */
  lemma BeforeDrain(h: Host, now: nat, input: TickInput, io: Transport) returns (h2: Host)
    requires Inv(h) && Orderly(h, now, input, io) && h.running
    ensures Inv(h2) && Tick(h, now, input, io) == Drain(h2, io)
  {
    var h0 := h.(passes := h.passes + 1);
    NewPass(h);
    IntakeKeeps(h0, now, input, io);
    var h1 := Intake(h0, now, input, io);
    ProgressKeeps(h1, now, input.authorize, io);
    h2 := Progress(h1, now, input.authorize, io);
  }

  lemma TickKeeps(h: Host, now: nat, input: TickInput, io: Transport)
    requires Inv(h) && Orderly(h, now, input, io)
    ensures Inv(Tick(h, now, input, io))
  {
    if h.running {
      var h2 := BeforeDrain(h, now, input, io);
      DrainFromKeeps(h2, Ids(h2), 0, 0, io);
    }
  }
}
