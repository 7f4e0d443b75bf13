/** What holds over every run of the host: starts, ticks and stops in any order. */
module HostTheorems {
  import opened Prelude
  import opened Sorted
  import opened NetTypes
  import opened HostModel
  import opened HostInvariant
  import opened HostSteps

  // ------------------------------------------------------------- rules for the phases

  /** Every small step of a tick, before the drain, keeps P. */
  ghost predicate StepSafe(P: Host -> bool, now: nat, input: TickInput, io: Transport) {
    && (forall g: Host, j: nat :: P(g) && j < |input.accepted| ==> P(Accept(g, input.accepted[j], now, io)))
    && (forall g: Host, dg: Datagram :: P(g) ==> P(Route(g, dg, now, io)))
    && (forall g: Host, id: nat :: P(g) ==> P(Disconnect(g, id, Timeout, io)))
    && (forall g: Host, id: nat :: P(g) ==> P(AdvanceOne(g, id, now, input.authorize, io)))
    && (forall g: Host, id: nat :: P(g) ==> P(Heartbeat(g, id, now)))
  }

  lemma {:induction false} AcceptFromRule(P: Host -> bool, h: Host, i: nat, now: nat, input: TickInput, io: Transport)
    requires StepSafe(P, now, input, io) && P(h) && i <= |input.accepted|
    ensures P(AcceptFrom(h, input.accepted, i, now, io))
    decreases |input.accepted| - i
  {
    if i < |input.accepted| {
      AcceptFromRule(P, Accept(h, input.accepted[i], now, io), i + 1, now, input, io);
    }
  }

  lemma {:induction false} RouteFromRule(P: Host -> bool, h: Host, i: nat, now: nat, input: TickInput, io: Transport)
    requires StepSafe(P, now, input, io) && P(h) && i <= |input.received|
    ensures P(RouteFrom(h, input.received, i, now, io))
    decreases |input.received| - i
  {
    if i < |input.received| {
      RouteFromRule(P, Route(h, input.received[i], now, io), i + 1, now, input, io);
    }
  }

  lemma {:induction false} DisconnectFromRule(
    P: Host -> bool, h: Host, ids: seq<nat>, i: nat, reason: DisconnectReason, io: Transport)
    requires (forall g: Host, id: nat :: P(g) ==> P(Disconnect(g, id, reason, io))) && P(h) && i <= |ids|
    ensures P(DisconnectFrom(h, ids, i, reason, io))
    decreases |ids| - i
  {
    if i < |ids| {
      DisconnectFromRule(P, Disconnect(h, ids[i], reason, io), ids, i + 1, reason, io);
    }
  }

  lemma {:induction false} AdvanceFromRule(
    P: Host -> bool, h: Host, ids: seq<nat>, i: nat, now: nat, input: TickInput, io: Transport)
    requires StepSafe(P, now, input, io) && P(h) && i <= |ids|
    ensures P(AdvanceFrom(h, ids, i, now, input.authorize, io))
    decreases |ids| - i
  {
    if i < |ids| {
      AdvanceFromRule(P, AdvanceOne(h, ids[i], now, input.authorize, io), ids, i + 1, now, input, io);
    }
  }

  lemma {:induction false} HeartbeatFromRule(
    P: Host -> bool, h: Host, ids: seq<nat>, i: nat, now: nat, input: TickInput, io: Transport)
    requires StepSafe(P, now, input, io) && P(h) && i <= |ids|
    ensures P(HeartbeatFrom(h, ids, i, now))
    decreases |ids| - i
  {
    if i < |ids| {
      HeartbeatFromRule(P, Heartbeat(h, ids[i], now), ids, i + 1, now, input, io);
    }
  }

  lemma IntakeRule(P: Host -> bool, h: Host, now: nat, input: TickInput, io: Transport)
    requires StepSafe(P, now, input, io) && P(h)
    ensures P(Intake(h, now, input, io))
  {
    AcceptFromRule(P, h, 0, now, input, io);
    var a := AcceptFrom(h, input.accepted, 0, now, io);
    RouteFromRule(P, a, 0, now, input, io);
    var r := RouteFrom(a, input.received, 0, now, io);
    DisconnectFromRule(P, r, TimedOut(r, now), 0, Timeout, io);
  }

  lemma ProgressRule(P: Host -> bool, h: Host, now: nat, input: TickInput, io: Transport)
    requires StepSafe(P, now, input, io) && P(h)
    ensures P(Progress(h, now, input.authorize, io))
  {
    AdvanceFromRule(P, h, Ids(h), 0, now, input, io);
    var v := AdvanceFrom(h, Ids(h), 0, now, input.authorize, io);
    HeartbeatFromRule(P, v, Ids(v), 0, now, input, io);
  }

  lemma {:induction false} TickDrains(h: Host, now: nat, input: TickInput, io: Transport, h1: Host, h2: Host)
    requires h.running && h1 == Intake(h.(passes := h.passes + 1), now, input, io)
    requires h2 == Progress(h1, now, input.authorize, io)
    ensures Tick(h, now, input, io) == DrainFrom(h2, Ids(h2), 0, 0, io)
  {
    assert h2 == Churn(h.(passes := h.passes + 1), now, input, io);
  }

  /** What every small step keeps, a tick has kept when it starts to drain. */
  lemma BeforeDrainRule(P: Host -> bool, h: Host, now: nat, input: TickInput, io: Transport) returns (h2: Host)
    requires StepSafe(P, now, input, io) && P(h.(passes := h.passes + 1)) && h.running
    ensures P(h2) && Tick(h, now, input, io) == DrainFrom(h2, Ids(h2), 0, 0, io)
  {
    var h0 := h.(passes := h.passes + 1);
    IntakeRule(P, h0, now, input, io);
    var h1 := Intake(h0, now, input, io);
    ProgressRule(P, h1, now, input, io);
    h2 := Progress(h1, now, input.authorize, io);
    TickDrains(h, now, input, io, h1, h2);
  }

  // -------------------------------------------------------------- endpoints and runs

  ghost function AcceptedBy(e: HostEvent): seq<u32> {
    if e.TickEvent? then e.input.accepted else []
  }

  /** Every endpoint the transport accepts in a run, in order. */
  ghost function AcceptedIn(events: seq<HostEvent>): seq<u32> {
    if events == [] then []
    else AcceptedIn(events[..|events| - 1]) + AcceptedBy(events[|events| - 1])
  }

  ghost function Within(bound: set<u32>): Host -> bool {
    (g: Host) => g.route.Keys <= bound
  }

  lemma DisconnectShrinks(g: Host, id: nat, reason: DisconnectReason, io: Transport)
    ensures Disconnect(g, id, reason, io).route.Keys <= g.route.Keys
  {
  }

  lemma RouteShrinks(g: Host, dg: Datagram, now: nat, io: Transport)
    ensures Route(g, dg, now, io).route.Keys <= g.route.Keys
  {
    if dg.from in g.route && g.route[dg.from] in g.table && DeserializeHeader(dg.bytes).Some? {
      var id := g.route[dg.from];
      DisconnectShrinks(g.(table := g.table[id := g.table[id].(lastRecvTick := now)]), id, Graceful, io);
    }
  }

  lemma AdvanceOneShrinks(g: Host, id: nat, now: nat, authorize: Authenticator, io: Transport)
    ensures AdvanceOne(g, id, now, authorize, io).route.Keys <= g.route.Keys
  {
    if id in g.conns && g.conns[id].inbox != [] && id in g.table {
      var m := g.conns[id].inbox[0];
      var allow := authorize(g.table[id], m.nonce);
      var res := Advance(id, g.table[id].handshake, m, allow);
      var h1 := Consume(g, id, allow);
      match res.drop {
        case Some(reason) => DisconnectShrinks(h1, id, reason, io);
        case None => assert Promote(Reply(h1, id, res.outbound), id, now).route == h1.route;
      }
    }
  }

  lemma EndpointsSafe(bound: set<u32>, now: nat, input: TickInput, io: Transport)
    requires Elems(input.accepted) <= bound
    ensures StepSafe(Within(bound), now, input, io)
  {
    var P := Within(bound);
    forall g: Host, j: nat | P(g) && j < |input.accepted| ensures P(Accept(g, input.accepted[j], now, io)) {
      assert input.accepted[j] in Elems(input.accepted);
    }
    forall g: Host, dg: Datagram | P(g) ensures P(Route(g, dg, now, io)) {
      RouteShrinks(g, dg, now, io);
    }
    forall g: Host, id: nat | P(g) ensures P(Disconnect(g, id, Timeout, io)) {
      DisconnectShrinks(g, id, Timeout, io);
    }
    forall g: Host, id: nat | P(g) ensures P(AdvanceOne(g, id, now, input.authorize, io)) {
      AdvanceOneShrinks(g, id, now, input.authorize, io);
    }
  }

  lemma HandOverEndpoints(bound: set<u32>)
    ensures HandOverSafe(Within(bound))
  {
  }

  /** Endpoints in use after a tick were in use before it or were accepted in it. */
  lemma TickEndpoints(h: Host, now: nat, input: TickInput, io: Transport)
    ensures Tick(h, now, input, io).route.Keys <= h.route.Keys + Elems(input.accepted)
  {
    if h.running {
      var bound := h.route.Keys + Elems(input.accepted);
      EndpointsSafe(bound, now, input, io);
      var h2 := BeforeDrainRule(Within(bound), h, now, input, io);
      HandOverEndpoints(bound);
      DrainFromRule(Within(bound), h2, Ids(h2), 0, 0, io);
    }
  }

  // ------------------------------------------------------------------- start and stop

  lemma DisconnectTable(h: Host, id: nat, reason: DisconnectReason, io: Transport)
    ensures Disconnect(h, id, reason, io).table == h.table - {id}
  {
    if id !in h.table {
      assert h.table - {id} == h.table;
    }
  }

  lemma {:induction false} DisconnectFromRemoves(
    h: Host, ids: seq<nat>, i: nat, reason: DisconnectReason, io: Transport)
    requires i <= |ids|
    ensures forall k :: k in DisconnectFrom(h, ids, i, reason, io).table ==> k in h.table && k !in ids[i..]
    decreases |ids| - i
  {
    if i < |ids| {
      var h1 := Disconnect(h, ids[i], reason, io);
      DisconnectTable(h, ids[i], reason, io);
      assert ids[i..] == [ids[i]] + ids[i + 1..];
      DisconnectFromRemoves(h1, ids, i + 1, reason, io);
    }
  }

  lemma EmptyTable(h: Host)
    requires InStep(h) && forall k :: k !in h.table
    ensures h.table == map[] && h.conns == map[] && h.route == map[] && h.members == map[]
  {
    assert h.table.Keys == {} && h.conns.Keys == {};
  }

  /** Stop leaves nothing behind: clearing the two maps at its end changes nothing. */
  lemma {:induction false} StopEmpties(h: Host, io: Transport)
    requires Inv(h)
    ensures Inv(Stop(h, io))
    ensures Stop(h, io).table == map[] && Stop(h, io).members == map[]
    ensures Stop(h, io) == DisconnectFrom(h, Ids(h), 0, Graceful, io).(running := false)
  {
    var ids := Ids(h);
    var h1 := DisconnectFrom(h, ids, 0, Graceful, io);
    DisconnectFromKeeps(h, ids, 0, Graceful, io);
    DisconnectFromRemoves(h, ids, 0, Graceful, io);
    ListingIsAscending(h.table.Keys);
    assert ids[0..] == ids;
    EmptyTable(h1);
    CounterKeeps(h1, h1.(running := false));
  }

  lemma StopEndpoints(h: Host, io: Transport)
    ensures Stop(h, io).route.Keys == {}
  {
  }

  // ------------------------------------------------------------------------- all runs

  lemma {:induction false} RunEndpoints(h: Host, events: seq<HostEvent>, io: Transport)
    requires h.route == map[]
    ensures Run(h, events, io).route.Keys <= Elems(AcceptedIn(events))
  {
    if events != [] {
      var n := |events| - 1;
      var g, e := Run(h, events[..n], io), events[n];
      RunEndpoints(h, events[..n], io);
      var before := AcceptedIn(events[..n]);
      assert forall ep :: ep in before + AcceptedBy(e) <==> ep in before || ep in AcceptedBy(e);
      match e {
        case StartEvent(_, _, _, _) =>
        case TickEvent(now, input) => TickEndpoints(g, now, input, io);
        case StopEvent => StopEndpoints(g, io);
      }
    }
  }

  /** Every tick of the run is orderly in the state it meets. */
  ghost predicate OrderlyRun(h: Host, events: seq<HostEvent>, io: Transport) {
    events == []
    || (var n := |events| - 1;
        && OrderlyRun(h, events[..n], io)
        && (events[n].TickEvent? ==> Orderly(Run(h, events[..n], io), events[n].now, events[n].input, io)))
  }

  /**
   * The invariant of every run. The transport may do anything except surface a live endpoint while the
   * table has room; the session must be able to hold as many members as the table holds connections.
   */
  lemma {:induction false} EveryRunKeepsInv(
    maxConnections: nat, maxMembers: nat, events: seq<HostEvent>, io: Transport)
    requires maxConnections <= maxMembers && OrderlyRun(InitialHost(maxConnections, maxMembers), events, io)
    ensures Inv(Run(InitialHost(maxConnections, maxMembers), events, io))
  {
    var h := InitialHost(maxConnections, maxMembers);
    if events == [] {
      InitialHostInv(maxConnections, maxMembers);
    } else {
      var n := |events| - 1;
      var g, e := Run(h, events[..n], io), events[n];
      EveryRunKeepsInv(maxConnections, maxMembers, events[..n], io);
      match e {
        case StartEvent(_, _, _, _) => CounterKeeps(g, Step(g, e, io));
        case TickEvent(now, input) => TickKeeps(g, now, input, io);
        case StopEvent => StopEmpties(g, io);
      }
    }
  }

  /** The state in which a tick starts: one more pass. */
  ghost function Counted(h: Host): Host { h.(passes := h.passes + 1) }

  /** A tick's accept phase is in step throughout. */
  ghost predicate InStepTick(h: Host, now: nat, input: TickInput, io: Transport) {
    h.running ==> InStepThrough(Counted(h), input.accepted, 0, now, io)
  }

  /** Every tick's accept phase is. */
  ghost predicate InStepRun(h: Host, events: seq<HostEvent>, io: Transport) {
    events == []
    || (var n := |events| - 1;
        && InStepRun(h, events[..n], io)
        && (events[n].TickEvent? ==> InStepTick(Run(h, events[..n], io), events[n].now, events[n].input, io)))
  }

  lemma InStepTickIff(h: Host, now: nat, input: TickInput, io: Transport)
    requires InStep(h)
    ensures InStepTick(h, now, input, io) <==> Orderly(h, now, input, io)
  {
    SameShapeInStep(h, Counted(h));
    WelcomeIff(Counted(h), input.accepted, 0, now, io);
  }

  /** Over a run the four stores stay in step through every accept exactly when the run is orderly. */
  lemma {:induction false} InStepRunIff(
    maxConnections: nat, maxMembers: nat, events: seq<HostEvent>, io: Transport)
    requires maxConnections <= maxMembers
    ensures var h := InitialHost(maxConnections, maxMembers);
      InStepRun(h, events, io) <==> OrderlyRun(h, events, io)
  {
    if events != [] {
      var n := |events| - 1;
      InStepRunIff(maxConnections, maxMembers, events[..n], io);
      if OrderlyRun(InitialHost(maxConnections, maxMembers), events[..n], io) && events[n].TickEvent? {
        EveryRunKeepsInv(maxConnections, maxMembers, events[..n], io);
        var g := Run(InitialHost(maxConnections, maxMembers), events[..n], io);
        InStepTickIff(g, events[n].now, events[n].input, io);
      }
    }
  }

  // ----------------------------------------------------- which transports make runs orderly

  ghost predicate Distinct(s: seq<u32>) {
    forall i, j :: 0 <= i < j < |s| ==> s[i] != s[j]
  }

  /** Endpoints that are not in use and surface once each are welcome. */
  lemma {:induction false} FreshAreWelcome(h: Host, eps: seq<u32>, i: nat, now: nat, io: Transport)
    requires i <= |eps| && Distinct(eps) && forall j :: i <= j < |eps| ==> eps[j] !in h.route
    ensures Welcome(h, eps, i, now, io)
    decreases |eps| - i
  {
    if i < |eps| {
      var h1 := Accept(h, eps[i], now, io);
      assert h1.route.Keys <= h.route.Keys + {eps[i]};
      FreshAreWelcome(h1, eps, i + 1, now, io);
    }
  }

  lemma FreshTickIsOrderly(h: Host, now: nat, input: TickInput, io: Transport)
    requires Distinct(input.accepted) && forall ep :: ep in input.accepted ==> ep !in h.route
    ensures Orderly(h, now, input, io)
  {
    FreshAreWelcome(Counted(h), input.accepted, 0, now, io);
  }

  /** In particular every transport that accepts an endpoint at most once over the whole run. */
  lemma {:induction false} AcceptedOnceIsOrderly(h: Host, events: seq<HostEvent>, io: Transport)
    requires h.route == map[] && Distinct(AcceptedIn(events))
    ensures OrderlyRun(h, events, io)
  {
    if events != [] {
      var n := |events| - 1;
      var before := AcceptedIn(events[..n]);
      assert AcceptedIn(events) == before + AcceptedBy(events[n]);
      FreshAfter(before, AcceptedBy(events[n]));
      assert before == AcceptedIn(events)[..|before|];
      AcceptedOnceIsOrderly(h, events[..n], io);
      if events[n].TickEvent? {
        RunEndpoints(h, events[..n], io);
        FreshTickIsOrderly(Run(h, events[..n], io), events[n].now, events[n].input, io);
      }
    }
  }

  lemma FreshAfter(before: seq<u32>, accepted: seq<u32>)
    requires Distinct(before + accepted)
    ensures Distinct(accepted) && forall ep :: ep in accepted ==> ep !in before
  {
    var all := before + accepted;
    forall i, j | 0 <= i < j < |accepted| ensures accepted[i] != accepted[j] {
      assert all[|before| + i] != all[|before| + j];
    }
    forall i, j | 0 <= i < |before| && 0 <= j < |accepted| ensures before[i] != accepted[j] {
      assert all[i] != all[|before| + j];
    }
  }

  /** The host after an orderly run from a fresh start. */
  ghost predicate Reached(h: Host, maxConnections: nat, maxMembers: nat, events: seq<HostEvent>, io: Transport) {
    && maxConnections <= maxMembers && OrderlyRun(InitialHost(maxConnections, maxMembers), events, io)
    && h == Run(InitialHost(maxConnections, maxMembers), events, io)
  }

  /** The four stores agree: same ids, inverse endpoint map, members = Connected = Established. */
  lemma StoresAgree(h: Host, maxConnections: nat, maxMembers: nat, events: seq<HostEvent>, io: Transport)
    requires Reached(h, maxConnections, maxMembers, events, io)
    ensures h.conns.Keys == h.table.Keys
    ensures forall ep, id :: ep in h.route && h.route[ep] == id <==> id in h.conns && h.conns[id].endpoint == ep
    ensures forall id :: id in h.table ==> h.table[id].endpoint == h.conns[id].endpoint
    ensures forall id :: id in h.members <==> id in h.table && h.table[id].state == Connected
    ensures forall id :: id in h.members <==> id in h.table && h.table[id].handshake == Established
  {
    EveryRunKeepsInv(maxConnections, maxMembers, events, io);
    forall id | id in h.table ensures RowOk(h, id) {
    }
  }

  /** Observers hear of each connection id: nothing, a join, or a join and then one leave. */
  lemma {:induction false} JoinedOnceLeftOnce(
    h: Host, maxConnections: nat, maxMembers: nat, events: seq<HostEvent>, io: Transport, id: nat)
    requires Reached(h, maxConnections, maxMembers, events, io)
    ensures var told := Of(h.observed, id);
            || (told == [] && id !in h.members)
            || (|told| == 1 && told[0].Joined? && id in h.members)
            || (|told| == 2 && told[0].Joined? && told[1].Left? && id !in h.members && id !in h.table)
  {
    EveryRunKeepsInv(maxConnections, maxMembers, events, io);
    assert Told(h, id);
    assert id in h.members ==> id in h.table;
  }

  /** Whoever is Connected said Hello, and in a later pass answered the challenge and was authorised. */
  lemma {:induction false} ConnectedMeansAuthorised(
    h: Host, maxConnections: nat, maxMembers: nat, events: seq<HostEvent>, io: Transport, id: nat)
    requires Reached(h, maxConnections, maxMembers, events, io)
    requires id in h.table && h.table[id].state == Connected
    ensures var seen := Of(h.consumed, id);
            && |seen| == 2 && seen[0].pass < seen[1].pass <= h.passes
            && seen[0].message.id == MSG_HELLO && seen[0].message.version == PROTOCOL_VERSION
            && seen[1].message.id == MSG_RESPONSE && seen[1].message.nonce == ServerNonce(id) && seen[1].allowed
  {
    EveryRunKeepsInv(maxConnections, maxMembers, events, io);
    assert Told(h, id) && RowOk(h, id);
  }

  /** No connection consumes two handshake messages, so advances two states, in one pass. */
  lemma {:induction false} OneStatePerPass(
    h: Host, maxConnections: nat, maxMembers: nat, events: seq<HostEvent>, io: Transport, id: nat, i: nat, j: nat)
    requires Reached(h, maxConnections, maxMembers, events, io)
    requires i < |Of(h.consumed, id)| && j < |Of(h.consumed, id)|
    requires Of(h.consumed, id)[i].pass == Of(h.consumed, id)[j].pass
    ensures i == j
  {
    EveryRunKeepsInv(maxConnections, maxMembers, events, io);
    assert Told(h, id);
  }

  /** For a live connection, the packets Send took and then its outbox are the packets queued for it, in order. */
  lemma {:induction false} SentThenQueued(
    h: Host, maxConnections: nat, maxMembers: nat, events: seq<HostEvent>, io: Transport, id: nat)
    requires Reached(h, maxConnections, maxMembers, events, io) && id in h.conns
    ensures Of(h.queued, id) == Taken(h.sends, id) + h.conns[id].outbox
  {
    EveryRunKeepsInv(maxConnections, maxMembers, events, io);
    assert Told(h, id);
  }

  /** The k-th packet queued for a live connection carries sequence number k modulo 65536. */
  lemma {:induction false} PacketsInOrder(
    h: Host, maxConnections: nat, maxMembers: nat, events: seq<HostEvent>, io: Transport, id: nat, k: nat)
    requires Reached(h, maxConnections, maxMembers, events, io)
    requires id in h.conns && k < |Of(h.queued, id)|
    ensures DeserializeHeader(Of(h.queued, id)[k].bytes).Some?
    ensures DeserializeHeader(Of(h.queued, id)[k].bytes).value.sequence == k % 0x1_0000
  {
    EveryRunKeepsInv(maxConnections, maxMembers, events, io);
    assert Told(h, id);
    NumberedAt(Of(h.queued, id), k);
    SequenceWraps(k);
  }

  // ------------------------------------------------------------------ the byte budget

  /** Bytes handed to Send from outboxes, answered WouldBlock or not. */
  ghost function OutboxBytes(sends: seq<SendRecord>): nat {
    if sends == [] then 0
    else
      var n := |sends| - 1;
      OutboxBytes(sends[..n]) + if sends[n].source.Some? then |sends[n].packet.bytes| else 0
  }

  lemma {:induction false} OutboxBytesSnoc(sends: seq<SendRecord>, r: SendRecord)
    ensures OutboxBytes(sends + [r]) == OutboxBytes(sends) + if r.source.Some? then |r.packet.bytes| else 0
  {
    SnocSplit(sends, r);
  }

  /** So many bytes were handed over so far, under these limits. */
  ghost function Spent(bytes: nat, limits: Limits): Host -> bool {
    (g: Host) => OutboxBytes(g.sends) == bytes && g.limits == limits
  }

  lemma DisconnectSpends(g: Host, id: nat, reason: DisconnectReason, io: Transport)
    ensures OutboxBytes(Disconnect(g, id, reason, io).sends) == OutboxBytes(g.sends)
    ensures Disconnect(g, id, reason, io).limits == g.limits
  {
    if id in g.table {
      OutboxBytesSnoc(g.sends, SendRecord(g.table[id].endpoint, BYE, io(|g.sends|), None));
    }
  }

  lemma RouteSpends(g: Host, dg: Datagram, now: nat, io: Transport)
    ensures OutboxBytes(Route(g, dg, now, io).sends) == OutboxBytes(g.sends)
    ensures Route(g, dg, now, io).limits == g.limits
  {
    if dg.from in g.route && g.route[dg.from] in g.table && DeserializeHeader(dg.bytes).Some? {
      var id := g.route[dg.from];
      DisconnectSpends(g.(table := g.table[id := g.table[id].(lastRecvTick := now)]), id, Graceful, io);
    }
  }

  lemma AdvanceOneSpends(g: Host, id: nat, now: nat, authorize: Authenticator, io: Transport)
    ensures OutboxBytes(AdvanceOne(g, id, now, authorize, io).sends) == OutboxBytes(g.sends)
    ensures AdvanceOne(g, id, now, authorize, io).limits == g.limits
  {
    if id in g.conns && g.conns[id].inbox != [] && id in g.table {
      var m := g.conns[id].inbox[0];
      var allow := authorize(g.table[id], m.nonce);
      var res := Advance(id, g.table[id].handshake, m, allow);
      var h1 := Consume(g, id, allow);
      match res.drop {
        case Some(reason) => DisconnectSpends(h1, id, reason, io);
        case None =>
          var h2 := Promote(Reply(h1, id, res.outbound), id, now);
          assert h2.sends == h1.sends && h2.limits == h1.limits;
      }
    }
  }

  lemma SpentSafe(bytes: nat, limits: Limits, now: nat, input: TickInput, io: Transport)
    ensures StepSafe(Spent(bytes, limits), now, input, io)
  {
    var P := Spent(bytes, limits);
    forall g: Host, j: nat | P(g) && j < |input.accepted| ensures P(Accept(g, input.accepted[j], now, io)) {
      OutboxBytesSnoc(g.sends, SendRecord(input.accepted[j], BYE, io(|g.sends|), None));
    }
    forall g: Host, dg: Datagram | P(g) ensures P(Route(g, dg, now, io)) {
      RouteSpends(g, dg, now, io);
    }
    forall g: Host, id: nat | P(g) ensures P(Disconnect(g, id, Timeout, io)) {
      DisconnectSpends(g, id, Timeout, io);
    }
    forall g: Host, id: nat | P(g) ensures P(AdvanceOne(g, id, now, input.authorize, io)) {
      AdvanceOneSpends(g, id, now, input.authorize, io);
    }
  }

  lemma HandOverBytes(h: Host, id: nat, outcome: TransportOutcome)
    requires id in h.conns && h.conns[id].outbox != []
    ensures var h1 := HandOver(h, id, outcome);
      OutboxBytes(h1.sends) == OutboxBytes(h.sends) + |h.conns[id].outbox[0].bytes| && h1.limits == h.limits
  {
    OutboxBytesSnoc(h.sends, SendRecord(h.conns[id].endpoint, h.conns[id].outbox[0], outcome, Some(id)));
  }

  /** The inner loop stays within the budget, and counts what the transport took. */
  lemma {:induction false} DrainConnBudget(h: Host, id: nat, sent: nat, io: Transport, start: nat)
    requires id in h.conns && sent <= h.limits.maxBytesPerTick && OutboxBytes(h.sends) == start + sent
    ensures var r := DrainConn(h, id, sent, io);
            && r.host.limits == h.limits
            && OutboxBytes(r.host.sends) <= start + h.limits.maxBytesPerTick
            && (!r.stop ==> OutboxBytes(r.host.sends) == start + r.sent && r.sent <= h.limits.maxBytesPerTick)
    decreases |h.conns[id].outbox|
  {
    var c := h.conns[id];
    if c.outbox != [] && sent + |c.outbox[0].bytes| <= h.limits.maxBytesPerTick {
      var outcome := io(|h.sends|);
      var h1 := HandOver(h, id, outcome);
      HandOverBytes(h, id, outcome);
      if outcome != WouldBlock {
        assert DrainConn(h, id, sent, io) == DrainConn(h1, id, sent + |c.outbox[0].bytes|, io);
        DrainConnBudget(h1, id, sent + |c.outbox[0].bytes|, io, start);
      }
    }
  }

  lemma {:induction false} DrainFromBudget(h: Host, ids: seq<nat>, i: nat, sent: nat, io: Transport, start: nat)
    requires i <= |ids| && sent <= h.limits.maxBytesPerTick && OutboxBytes(h.sends) == start + sent
    ensures OutboxBytes(DrainFrom(h, ids, i, sent, io).sends) <= start + h.limits.maxBytesPerTick
    decreases |ids| - i
  {
    if i < |ids| {
      if ids[i] !in h.conns {
        DrainFromBudget(h, ids, i + 1, sent, io, start);
      } else {
        DrainConnBudget(h, ids[i], sent, io, start);
        var r := DrainConn(h, ids[i], sent, io);
        if !r.stop {
          DrainFromBudget(r.host, ids, i + 1, r.sent, io, start);
        }
      }
    }
  }

  /** One tick hands over at most maxBytesPerTick bytes from the outboxes, whatever Send answers. */
  lemma TickWithinBudget(h: Host, now: nat, input: TickInput, io: Transport)
    ensures OutboxBytes(Tick(h, now, input, io).sends) <= OutboxBytes(h.sends) + h.limits.maxBytesPerTick
  {
    if h.running {
      var start := OutboxBytes(h.sends);
      SpentSafe(start, h.limits, now, input, io);
      var h2 := BeforeDrainRule(Spent(start, h.limits), h, now, input, io);
      DrainFromBudget(h2, Ids(h2), 0, 0, io, start);
    }
  }

  // ---------------------------------------------------------------------- where it fails

  /** Nothing to read, nobody connected, nothing to send. */
  ghost predicate Idle(h: Host) {
    && (forall id :: id in h.conns ==> h.conns[id].inbox == [] && h.conns[id].outbox == [])
    && (forall id :: id in h.table ==> h.table[id].state != Connected)
  }

  lemma {:induction false} IdleAdvance(
    h: Host, ids: seq<nat>, i: nat, now: nat, authorize: Authenticator, io: Transport)
    requires Idle(h) && i <= |ids|
    ensures AdvanceFrom(h, ids, i, now, authorize, io) == h
    decreases |ids| - i
  {
    if i < |ids| {
      IdleAdvance(h, ids, i + 1, now, authorize, io);
    }
  }

  lemma {:induction false} IdleHeartbeat(h: Host, ids: seq<nat>, i: nat, now: nat)
    requires Idle(h) && i <= |ids|
    ensures HeartbeatFrom(h, ids, i, now) == h
    decreases |ids| - i
  {
    if i < |ids| {
      IdleHeartbeat(h, ids, i + 1, now);
    }
  }

  lemma {:induction false} IdleDrain(h: Host, ids: seq<nat>, i: nat, sent: nat, io: Transport)
    requires Idle(h) && i <= |ids|
    ensures DrainFrom(h, ids, i, sent, io) == h
    decreases |ids| - i
  {
    if i < |ids| {
      IdleDrain(h, ids, i + 1, sent, io);
    }
  }

  lemma {:induction false} IdleIntake(h: Host, now: nat, input: TickInput, io: Transport, h1: Host)
    requires h1 == AcceptFrom(h, input.accepted, 0, now, io) && input.received == []
    requires Overdue(h1.table, now, h1.limits) == {}
    ensures Intake(h, now, input, io) == h1
  {
    assert RouteFrom(h1, input.received, 0, now, io) == h1;
    assert TimedOut(h1, now) == [];
  }

  lemma IdleProgress(h: Host, now: nat, authorize: Authenticator, io: Transport)
    requires Idle(h)
    ensures Progress(h, now, authorize, io) == h
  {
    IdleAdvance(h, Ids(h), 0, now, authorize, io);
    IdleHeartbeat(h, Ids(h), 0, now);
  }

  /** The rest of a tick in which nothing is due. */
  lemma IdleTick(h: Host, now: nat, input: TickInput, io: Transport, h1: Host)
    requires h.running && h1 == Intake(h.(passes := h.passes + 1), now, input, io) && Idle(h1)
    ensures Tick(h, now, input, io) == h1
  {
    IdleProgress(h1, now, input.authorize, io);
    TickDrains(h, now, input, io, h1, h1);
    IdleDrain(h1, Ids(h1), 0, 0, io);
  }

  /** One tick of an idle host that has room: the accept, and nothing else. */
  lemma TickAcceptsOne(h: Host, ep: u32, now: nat, authorize: Authenticator, io: Transport) returns (h1: Host)
    requires h.running && Idle(h) && |h.table| < h.maxConnections && h.nextId !in h.conns
    requires Overdue(h.table, now, h.limits) == {}
    ensures h1 == Tick(h, now, TickInput([ep], [], authorize), io)
    ensures Newcomer(Counted(h), h1, ep, now) && Idle(h1) && h1.running && h1.limits == h.limits
  {
    var input := TickInput([ep], [], authorize);
    var p := Counted(h);
    h1 := Accept(p, ep, now, io);
    assert AcceptFrom(p, [ep], 0, now, io) == h1;
    assert Overdue(h1.table, now, h1.limits) == {} by {
      forall id | id in h1.table ensures !Expired(h1.table[id], now, h1.limits) {
        assert id != h.nextId ==> id !in Overdue(h.table, now, h.limits);
      }
    }
    IdleIntake(p, now, input, io, h1);
    IdleTick(h, now, input, io, h1);
  }

  lemma SharedEndpoint(h: Host, a: nat, b: nat, ep: u32)
    requires a != b && a in h.conns && h.conns[a].endpoint == ep && ep in h.route && h.route[ep] == b
    ensures !InStep(h)
  {
  }

  lemma {:induction false} RunSnoc(h: Host, events: seq<HostEvent>, e: HostEvent, io: Transport)
    ensures Run(h, events + [e], io) == Step(Run(h, events, io), e, io)
  {
    SnocSplit(events, e);
  }

  lemma {:induction false} RunFour(h: Host, a: HostEvent, b: HostEvent, c: HostEvent, d: HostEvent, io: Transport)
    ensures Run(h, [a, b, c, d], io) == Step(Step(Step(Step(h, a, io), b, io), c, io), d, io)
  {
    Listed(a, b, c, d, d);
    RunSnoc(h, [], a, io);
    RunSnoc(h, [a], b, io);
    RunSnoc(h, [a, b], c, io);
    RunSnoc(h, [a, b, c], d, io);
  }

  /**
   * The loopback transport surfaces its peer at every bind. Started again while it runs, a host with room
   * accepts the live endpoint a second time: the endpoint map then knows only the second connection, and
   * the first has no way in.
   */
  lemma SecondStartBreaksStep(peer: u32, authorize: Authenticator, io: Transport)
    ensures var start := StartEvent(Limits(10, 10, 10, 1000), true, true, true);
      var input := TickInput([peer], [], authorize);
      var first, second := TickEvent(0, input), TickEvent(1, input);
      var h := Run(InitialHost(2, 2), [start, first, start, second], io);
      && 1 in h.conns && h.conns[1].endpoint == peer && peer in h.route && h.route[peer] == 2 && !InStep(h)
  {
    var start := StartEvent(Limits(10, 10, 10, 1000), true, true, true);
    var first, second := TickEvent(0, TickInput([peer], [], authorize)), TickEvent(1, TickInput([peer], [], authorize));
    RunFour(InitialHost(2, 2), start, first, start, second, io);
    var h0 := Step(InitialHost(2, 2), start, io);
    var h1 := TickAcceptsOne(h0, peer, 0, authorize, io);
    assert Step(h1, start, io) == h1;
    var h2 := AcceptedAgain(h1, peer, authorize, io);
    SharedEndpoint(h2, 1, 2, peer);
  }

  /** One handshaking connection, then its endpoint once more. */
  lemma AcceptedAgain(h: Host, peer: u32, authorize: Authenticator, io: Transport) returns (h2: Host)
    requires h.running && h.maxConnections == 2 && h.nextId == 2 && h.limits == Limits(10, 10, 10, 1000)
    requires h.table == map[1 := Connection(1, peer, Handshaking, NoHandshake, 0, 0, 0, 0)]
    requires h.conns == map[1 := HostConn(peer, 0, [], [])]
    ensures h2 == Tick(h, 1, TickInput([peer], [], authorize), io)
    ensures 1 in h2.conns && h2.conns[1].endpoint == peer && peer in h2.route && h2.route[peer] == 2
  {
    assert h.table.Keys == {1} && |h.table| == |h.table.Keys|;
    h2 := TickAcceptsOne(h, peer, 1, authorize, io);
  }

  lemma {:induction false} OrderlyWith(h: Host, events: seq<HostEvent>, e: HostEvent, io: Transport)
    requires OrderlyRun(h, events, io)
    requires e.TickEvent? ==> Orderly(Run(h, events, io), e.now, e.input, io)
    ensures OrderlyRun(h, events + [e], io)
  {
    SnocSplit(events, e);
  }

  lemma {:induction false} AcceptedWith(events: seq<HostEvent>, e: HostEvent)
    ensures AcceptedIn(events + [e]) == AcceptedIn(events) + AcceptedBy(e)
  {
    SnocSplit(events, e);
  }

  /** Right after a stop and a start nothing is in use, so any single accept is orderly. */
  lemma RestartedTick(g: Host, limits: Limits, now: nat, peer: u32, authorize: Authenticator, io: Transport)
    ensures Orderly(Start(Stop(g, io), limits, true, true, true), now, TickInput([peer], [], authorize), io)
  {
    StopEndpoints(g, io);
    FreshTickIsOrderly(Start(Stop(g, io), limits, true, true, true), now, TickInput([peer], [], authorize), io);
  }

  /** Stopped before it is started again, the run is orderly, although it accepts one endpoint twice. */
  lemma RestartIsOrderly(peer: u32, limits: Limits, authorize: Authenticator, io: Transport)
    ensures var start := StartEvent(limits, true, true, true);
      var tick := TickEvent(0, TickInput([peer], [], authorize));
      var events := [start, tick, StopEvent, start, tick];
      OrderlyRun(InitialHost(2, 2), events, io) && !Distinct(AcceptedIn(events))
  {
    var start, tick := StartEvent(limits, true, true, true), TickEvent(0, TickInput([peer], [], authorize));
    RestartAccepts(start, tick, peer);
    var h := InitialHost(2, 2);
    Listed(start, tick, StopEvent, start, tick);
    OrderlyWith(h, [], start, io);
    RunSnoc(h, [], start, io);
    FreshTickIsOrderly(Run(h, [start], io), 0, tick.input, io);
    OrderlyWith(h, [start], tick, io);
    OrderlyWith(h, [start, tick], StopEvent, io);
    RunSnoc(h, [start, tick], StopEvent, io);
    OrderlyWith(h, [start, tick, StopEvent], start, io);
    RunSnoc(h, [start, tick, StopEvent], start, io);
    RestartedTick(Run(h, [start, tick], io), limits, 0, peer, authorize, io);
    OrderlyWith(h, [start, tick, StopEvent, start], tick, io);
  }

  lemma RestartAccepts(start: HostEvent, tick: HostEvent, peer: u32)
    requires start.StartEvent? && tick.TickEvent? && tick.input.accepted == [peer]
    ensures !Distinct(AcceptedIn([start, tick, StopEvent, start, tick]))
  {
    Listed(start, tick, StopEvent, start, tick);
    AcceptedWith([], start);
    AcceptedWith([start], tick);
    AcceptedWith([start, tick], StopEvent);
    AcceptedWith([start, tick, StopEvent], start);
    AcceptedWith([start, tick, StopEvent, start], tick);
    var accepted := AcceptedIn([start, tick, StopEvent, start, tick]);
    assert accepted[0] == accepted[1];
  }
}
