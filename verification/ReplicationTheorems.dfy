/** Clients mirror the worker's baselines, pass by pass, exactly as long as packets carry every record. */
module ReplicationTheorems {
  import opened Prelude
  import opened SnapshotTypes
  import opened ReplicationTypes
  import opened DeltaEncoders
  import opened RecordQueues
  import opened ReplicationPackets
  import opened UpdateReaders
  import opened ReplicationModel

  // ------------------------------------------------------------------ the current states

  lemma {:induction false} RelevantAscend(relevant: seq<u32>, entities: seq<EntitySnapshot>, n: nat)
    requires n <= |entities| && AscendingEntities(entities)
    ensures AscendingStates(RelevantStates(relevant, entities, n))
    ensures forall e :: e in RelevantStates(relevant, entities, n) ==> n > 0 && e.id <= entities[n - 1].id
  {
    if n > 0 {
      RelevantAscend(relevant, entities, n - 1);
    }
  }

  // ------------------------------------------------------------------- folding the records

  function At(w: RemoteWorld, id: u32): Option<Remote> {
    if id in w then Some(w[id]) else None
  }

  function RemoteOf(e: EntityState): Remote {
    Remote(e.version, e.stateFlags, e.position)
  }

  lemma AllOnWireSnoc(rs: seq<Record>, r: Record)
    ensures AllOnWire(rs + [r]) == AllOnWire(rs) + [OnWire(r)]
  {
  }

  lemma {:induction false} ApplySnoc(w: RemoteWorld, rs: seq<WireRecord>, r: WireRecord)
    ensures ApplyRecords(w, rs + [r]) == ApplyRecord(ApplyRecords(w, rs), r)
  {
    SnocSplit(rs, r);
  }

  lemma {:induction false} ApplyConcat(w: RemoteWorld, a: seq<WireRecord>, b: seq<WireRecord>)
    ensures ApplyRecords(w, a + b) == ApplyRecords(ApplyRecords(w, a), b)
  {
    if b == [] {
      assert a + b == a;
    } else {
      var n := |b| - 1;
      assert a + b == (a + b[..n]) + [b[n]];
      ApplyConcat(w, a, b[..n]);
      ApplySnoc(w, a + b[..n], b[n]);
    }
  }

  /** One more record on the wire is one more record applied. */
  lemma {:induction false} AppliedStep(w: RemoteWorld, rs: seq<Record>, r: Record)
    ensures ApplyRecords(w, AllOnWire(rs + [r])) == ApplyRecord(ApplyRecords(w, AllOnWire(rs)), OnWire(r))
  {
    AllOnWireSnoc(rs, r);
    ApplySnoc(w, AllOnWire(rs), OnWire(r));
  }

  lemma RemovalsSnoc(ids: seq<u32>, id: u32)
    ensures Removals(ids + [id]) == Removals(ids) + [RemovalRecord(id)]
  {
  }

  lemma RecordsSnoc(kind: Kind, states: seq<EntityState>, e: EntityState)
    ensures Records(kind, states + [e]) == Records(kind, states) + [MakeRecord(kind, e)]
  {
  }

  lemma {:induction false} RemovalStep(w: RemoteWorld, ids: seq<u32>, last: u32, id: u32)
    ensures At(ApplyRecords(w, AllOnWire(Removals(ids + [last]))), id)
         == if id == last then None else At(ApplyRecords(w, AllOnWire(Removals(ids))), id)
  {
    RemovalsSnoc(ids, last);
    AppliedStep(w, Removals(ids), RemovalRecord(last));
  }

  lemma {:induction false} PutStep(w: RemoteWorld, kind: Kind, states: seq<EntityState>, last: EntityState, id: u32)
    requires kind == EntitySpawn || kind == Position
    ensures At(ApplyRecords(w, AllOnWire(Records(kind, states + [last]))), id)
         == if id == last.id then Some(RemoteOf(last)) else At(ApplyRecords(w, AllOnWire(Records(kind, states))), id)
  {
    RecordsSnoc(kind, states, last);
    AppliedStep(w, Records(kind, states), MakeRecord(kind, last));
  }

  lemma NothingOnWire(kind: Kind)
    ensures AllOnWire(Removals([])) == [] && AllOnWire(Records(kind, [])) == []
  {
  }

  lemma {:induction false} AfterRemovals(w: RemoteWorld, ids: seq<u32>, id: u32)
    ensures At(ApplyRecords(w, AllOnWire(Removals(ids))), id) == if id in ids then None else At(w, id)
  {
    if ids == [] {
      NothingOnWire(Position);
    } else {
      var init, last := ids[..|ids| - 1], ids[|ids| - 1];
      assert ids == init + [last];
      AfterRemovals(w, init, id);
      RemovalStep(w, init, last, id);
    }
  }

  lemma {:induction false} AfterPuts(w: RemoteWorld, kind: Kind, states: seq<EntityState>, id: u32)
    requires kind == EntitySpawn || kind == Position
    ensures At(ApplyRecords(w, AllOnWire(Records(kind, states))), id)
         == if Look(states, id).Some? then Some(RemoteOf(Look(states, id).value)) else At(w, id)
  {
    if states == [] {
      NothingOnWire(kind);
    } else {
      var init, last := states[..|states| - 1], states[|states| - 1];
      assert states == init + [last];
      AfterPuts(w, kind, init, id);
      PutStep(w, kind, init, last, id);
      LookSnoc(init, last, id);
    }
  }

  /** The client after the first r removals, a spawns and c positions, looked up at one id. */
  ghost function Told(w: RemoteWorld, removed: seq<u32>, added: seq<EntityState>, changed: seq<EntityState>, id: u32)
    : Option<Remote>
  {
    if Look(changed, id).Some? then Some(RemoteOf(Look(changed, id).value))
    else if Look(added, id).Some? then Some(RemoteOf(Look(added, id).value))
    else if id in removed then None else At(w, id)
  }

  lemma {:induction false} AfterAll(w: RemoteWorld, removed: seq<u32>, added: seq<EntityState>,
                                    changed: seq<EntityState>, id: u32)
    ensures At(ApplyRecords(ApplyRecords(w, AllOnWire(Removals(removed) + Records(EntitySpawn, added))),
                            AllOnWire(Records(Position, changed))), id)
         == Told(w, removed, added, changed, id)
  {
    var r, a := AllOnWire(Removals(removed)), AllOnWire(Records(EntitySpawn, added));
    assert AllOnWire(Removals(removed) + Records(EntitySpawn, added)) == r + a;
    ApplyConcat(w, r, a);
    AfterRemovals(w, removed, id);
    AfterPuts(ApplyRecords(w, r), EntitySpawn, added, id);
    AfterPuts(ApplyRecords(w, r + a), Position, changed, id);
  }

  // ------------------------------------------------------- one delta, carried or cut short

  lemma SeenAt(base: seq<EntityState>, id: u32)
    ensures At(Seen(base), id) == if Look(base, id).Some? then Some(RemoteOf(Look(base, id).value)) else None
  {
  }

  /** A client that is told the whole delta moves from the baseline to the next one. */
  lemma WholeDelta(base: seq<EntityState>, cur: seq<EntityState>, id: u32)
    requires AscendingStates(base) && AscendingStates(cur)
    ensures var d := DeltaOf(base, cur);
      Told(Seen(base), d.removed, d.added, d.changed, id) == At(Seen(Next(base, cur)), id)
  {
    DeltaIsExact(base, cur, id);
    SeenAt(base, id);
    SeenAt(Next(base, cur), id);
  }

  /** The k-th of an ascending list is not among the first k. */
  lemma NotYet(s: seq<EntityState>, k: nat)
    requires AscendingStates(s) && k < |s|
    ensures Look(s[..k], s[k].id) == None && Look(s, s[k].id) == Some(s[k])
  {
    LookBefore(s, k);
    TableAt(s, k);
  }

  lemma {:induction false} LookInPrefix(s: seq<EntityState>, k: nat, id: u32)
    requires k <= |s| && Look(s, id) == None
    ensures Look(s[..k], id) == None
  {
    if k < |s| {
      var n := |s| - 1;
      LookInPrefix(s[..n], k, id);
      assert s[..n][..k] == s[..k];
    } else {
      assert s[..k] == s;
    }
  }

  /** A missing removal: the client still has the entity, the baseline does not. */
  lemma RemovalMissed(base: seq<EntityState>, cur: seq<EntityState>, r: nat, c: nat)
    requires AscendingStates(base) && AscendingStates(cur)
    requires var d := DeltaOf(base, cur); r < |d.removed| && c <= |d.changed|
    ensures var d := DeltaOf(base, cur); var id := d.removed[r];
      Told(Seen(base), d.removed[..r], [], d.changed[..c], id) != At(Seen(Next(base, cur)), id)
  {
    var d := DeltaOf(base, cur);
    var id := d.removed[r];
    DeltaAscends(base, cur);
    DeltaIsExact(base, cur, id);
    assert id in d.removed;
    LookInPrefix(d.changed, c, id);
    SeenAt(base, id);
    SeenAt(Next(base, cur), id);
    assert id !in d.removed[..r];
    assert Look([], id) == None;
  }

  /** A missing spawn: the baseline has the entity, the client does not. */
  lemma SpawnMissed(base: seq<EntityState>, cur: seq<EntityState>, a: nat, c: nat)
    requires AscendingStates(base) && AscendingStates(cur)
    requires var d := DeltaOf(base, cur); a < |d.added| && c <= |d.changed|
    ensures var d := DeltaOf(base, cur); var id := d.added[a].id;
      Told(Seen(base), d.removed, d.added[..a], d.changed[..c], id) != At(Seen(Next(base, cur)), id)
  {
    var d := DeltaOf(base, cur);
    var id := d.added[a].id;
    DeltaAscends(base, cur);
    DeltaIsExact(base, cur, id);
    NotYet(d.added, a);
    LookInPrefix(d.changed, c, id);
    SeenAt(base, id);
    SeenAt(Next(base, cur), id);
  }

  lemma VersionMoves(v: u32)
    ensures Low32(v + 1) != v
  {
  }

  lemma ChangeAt(base: seq<EntityState>, cur: seq<EntityState>, c: nat)
    requires AscendingStates(base) && AscendingStates(cur)
    requires c < |DeltaOf(base, cur).changed|
    ensures var d := DeltaOf(base, cur); var id := d.changed[c].id;
      && Look(d.changed[..c], id) == None && Look(d.added, id) == None && id !in d.removed
      && Look(base, id).Some? && Look(Next(base, cur), id).Some?
      && Look(Next(base, cur), id).value.version == Low32(Look(base, id).value.version + 1)
  {
    DeltaAscends(base, cur);
    DeltaIsExact(base, cur, DeltaOf(base, cur).changed[c].id);
    NotYet(DeltaOf(base, cur).changed, c);
  }

  /** A missing change: the client is one version behind. */
  lemma ChangeMissed(base: seq<EntityState>, cur: seq<EntityState>, c: nat)
    requires AscendingStates(base) && AscendingStates(cur)
    requires c < |DeltaOf(base, cur).changed|
    ensures var d := DeltaOf(base, cur); var id := d.changed[c].id;
      Told(Seen(base), d.removed, d.added, d.changed[..c], id) != At(Seen(Next(base, cur)), id)
  {
    var id := DeltaOf(base, cur).changed[c].id;
    ChangeAt(base, cur, c);
    VersionMoves(Look(base, id).value.version);
    SeenAt(base, id);
    SeenAt(Next(base, cur), id);
  }

  /** What a client sees after the first m reliable and the first c unreliable records of a delta. */
  ghost function AfterDelta(w: RemoteWorld, d: ChangeSet, m: nat, c: nat): RemoteWorld
    requires m <= |ReliableRecords(d)| && c <= |UnreliableRecords(d)|
  {
    ApplyRecords(ApplyRecords(w, AllOnWire(ReliableRecords(d)[..m])), AllOnWire(UnreliableRecords(d)[..c]))
  }

  /** Cut into its parts: r removals, then a spawns; c positions. */
  lemma AfterDeltaAt(w: RemoteWorld, d: ChangeSet, m: nat, c: nat, id: u32)
    requires m <= |d.removed| + |d.added| && c <= |d.changed|
    ensures var r := if m <= |d.removed| then m else |d.removed|;
      At(AfterDelta(w, d, m, c), id) == Told(w, d.removed[..r], d.added[..m - r], d.changed[..c], id)
  {
    var r := if m <= |d.removed| then m else |d.removed|;
    assert ReliableRecords(d)[..m] == Removals(d.removed[..r]) + Records(EntitySpawn, d.added[..m - r]);
    assert UnreliableRecords(d)[..c] == Records(Position, d.changed[..c]);
    AfterAll(w, d.removed[..r], d.added[..m - r], d.changed[..c], id);
  }

  /** A cut that loses something shows at the entity whose record is the first to be lost. */
  lemma CutShows(base: seq<EntityState>, cur: seq<EntityState>, m: nat, c: nat)
    requires AscendingStates(base) && AscendingStates(cur)
    requires var d := DeltaOf(base, cur); m <= |d.removed| + |d.added| && c <= |d.changed|
    requires var d := DeltaOf(base, cur); m < |d.removed| + |d.added| || c < |d.changed|
    ensures AfterDelta(Seen(base), DeltaOf(base, cur), m, c) != Seen(Next(base, cur))
  {
    var d := DeltaOf(base, cur);
    if m < |d.removed| {
      AfterDeltaAt(Seen(base), d, m, c, d.removed[m]);
      assert d.added[..0] == [];
      RemovalMissed(base, cur, m, c);
    } else if m < |d.removed| + |d.added| {
      var a := m - |d.removed|;
      AfterDeltaAt(Seen(base), d, m, c, d.added[a].id);
      assert d.removed[..|d.removed|] == d.removed;
      SpawnMissed(base, cur, a, c);
    } else {
      AfterDeltaAt(Seen(base), d, m, c, d.changed[c].id);
      assert d.removed[..|d.removed|] == d.removed && d.added[..|d.added|] == d.added;
      ChangeMissed(base, cur, c);
    }
  }

  lemma AfterWhole(w: RemoteWorld, d: ChangeSet, id: u32)
    ensures At(AfterDelta(w, d, |d.removed| + |d.added|, |d.changed|), id)
         == Told(w, d.removed, d.added, d.changed, id)
  {
    WholePrefix(d.removed);
    WholePrefix(d.added);
    WholePrefix(d.changed);
    AfterDeltaAt(w, d, |d.removed| + |d.added|, |d.changed|, id);
  }

  lemma WholeShows(base: seq<EntityState>, cur: seq<EntityState>, id: u32)
    requires AscendingStates(base) && AscendingStates(cur)
    ensures var d := DeltaOf(base, cur);
      At(AfterDelta(Seen(base), d, |d.removed| + |d.added|, |d.changed|), id) == At(Seen(Next(base, cur)), id)
  {
    var d := DeltaOf(base, cur);
    AfterWhole(Seen(base), d, id);
    WholeDelta(base, cur, id);
  }

  /** A client in step with the baseline stays in step iff every record of the delta reaches it. */
  lemma InStepIffWhole(base: seq<EntityState>, cur: seq<EntityState>, m: nat, c: nat)
    requires AscendingStates(base) && AscendingStates(cur)
    requires var d := DeltaOf(base, cur); m <= |d.removed| + |d.added| && c <= |d.changed|
    ensures var d := DeltaOf(base, cur);
      AfterDelta(Seen(base), d, m, c) == Seen(Next(base, cur)) <==>
        m == |d.removed| + |d.added| && c == |d.changed|
  {
    var d := DeltaOf(base, cur);
    if m == |d.removed| + |d.added| && c == |d.changed| {
      forall id: u32 ensures At(AfterDelta(Seen(base), d, m, c), id) == At(Seen(Next(base, cur)), id) {
        WholeShows(base, cur, id);
      }
      SameWorld(AfterDelta(Seen(base), d, m, c), Seen(Next(base, cur)));
    } else {
      CutShows(base, cur, m, c);
    }
  }

  lemma SameWorld(a: RemoteWorld, b: RemoteWorld)
    requires forall id: u32 :: At(a, id) == At(b, id)
    ensures a == b
  {
    forall id: u32 ensures (id in a <==> id in b) && (id in a ==> a[id] == b[id]) {
      assert At(a, id) == At(b, id);
    }
  }

  // -------------------------------------------------------------------------- packets

  lemma {:induction false} ReceiveSnoc(w: RemoteWorld, k: u64, ps: seq<Packet>, p: Packet)
    ensures Receive(w, k, ps + [p]) == ReceiveBytes(Receive(w, k, ps), k, p.bytes)
  {
    SnocSplit(ps, p);
  }

  /** Reading one packet's bytes is applying the records it carries. */
  lemma {:induction false} OnePacketReceived(c: Config, depth: nat, rel: Reliability, client: u64, tick: u64,
                                             rs: seq<Record>, w: RemoteWorld, k: u64, ps: seq<Packet>)
    ensures Receive(w, k, ps + OnePacket(c, depth, rel, client, tick, rs))
         == if k == client then ApplyRecords(Receive(w, k, ps), AllOnWire(Carried(c, depth, rs))) else Receive(w, k, ps)
  {
    var carried := Carried(c, depth, rs);
    if carried == [] {
      assert ps + [] == ps;
      assert AllOnWire(carried) == [];
    } else {
      FrameRoundTrip(client, tick, rel, carried);
      ReceiveSnoc(w, k, ps, Packet(client, rel, |carried|, Frame(client, tick, rel, carried)));
    }
  }

  /** How far the two packets of a client reach into its delta. */
  function Reach(c: Config, depth: nat, records: nat): nat {
    if records <= Room(c, depth) then records else Room(c, depth)
  }

  lemma {:induction false} PacketsReceived(c: Config, client: u64, tick: u64, d: ChangeSet,
                                           w: RemoteWorld, k: u64, ps: seq<Packet>)
    ensures Receive(w, k, ps + PacketsFor(c, client, tick, d))
         == if k == client
            then AfterDelta(Receive(w, k, ps), d, Reach(c, c.reliableDepth, |d.removed| + |d.added|),
                            Reach(c, c.unreliableDepth, |d.changed|))
            else Receive(w, k, ps)
  {
    var first := OnePacket(c, c.reliableDepth, Reliable, client, tick, ReliableRecords(d));
    var second := OnePacket(c, c.unreliableDepth, Unreliable, client, tick, UnreliableRecords(d));
    assert ps + PacketsFor(c, client, tick, d) == (ps + first) + second;
    OnePacketReceived(c, c.reliableDepth, Reliable, client, tick, ReliableRecords(d), w, k, ps);
    OnePacketReceived(c, c.unreliableDepth, Unreliable, client, tick, UnreliableRecords(d), w, k, ps + first);
    assert Carried(c, c.reliableDepth, ReliableRecords(d))
        == ReliableRecords(d)[..Reach(c, c.reliableDepth, |d.removed| + |d.added|)];
    assert Carried(c, c.unreliableDepth, UnreliableRecords(d))
        == UnreliableRecords(d)[..Reach(c, c.unreliableDepth, |d.changed|)];
  }

  // --------------------------------------------------------------------------- one pass

  ghost predicate AscendingBaselines(m: Baselines) {
    forall k :: k in m ==> AscendingStates(m[k])
  }

  /** Client k holds what the worker believes it holds. */
  ghost predicate InStep(s: Served, w: RemoteWorld, k: u64) {
    Receive(w, k, s.packets) == Seen(Base(s.baselines, k))
  }

  /** The delta is skipped over the cap, or both packets have room for all of it. */
  ghost predicate DeltaFits(c: Config, base: seq<EntityState>, cur: seq<EntityState>) {
    match Encoding(base, cur, c.maxEntities)
    case Overflow => true
    case Encoded(d) =>
      |d.removed| + |d.added| <= Room(c, c.reliableDepth) && |d.changed| <= Room(c, c.unreliableDepth)
  }

  ghost predicate Fits(c: Config, base: seq<EntityState>, job: Job, entities: seq<EntitySnapshot>) {
    DeltaFits(c, base, RelevantStates(job.relevant, entities, |entities|))
  }

  /** Serving one client does nothing to another. */
  lemma {:induction false} SendToOther(c: Config, s: Served, client: u64, cur: seq<EntityState>, tick: u64,
                                       w: RemoteWorld, k: u64)
    requires client != k
    ensures var s' := SendDelta(c, s, client, cur, tick);
      Receive(w, k, s'.packets) == Receive(w, k, s.packets) && Base(s'.baselines, k) == Base(s.baselines, k)
  {
    PacketsReceived(c, client, tick, DeltaOf(Base(s.baselines, client), cur), w, k, s.packets);
  }

  lemma SendToSelf(c: Config, s: Served, k: u64, cur: seq<EntityState>, tick: u64, w: RemoteWorld)
    requires AscendingStates(Base(s.baselines, k)) && AscendingStates(cur) && InStep(s, w, k)
    ensures InStep(SendDelta(c, s, k, cur, tick), w, k) <==> DeltaFits(c, Base(s.baselines, k), cur)
  {
    var base := Base(s.baselines, k);
    var d := DeltaOf(base, cur);
    var m, n := Reach(c, c.reliableDepth, |d.removed| + |d.added|), Reach(c, c.unreliableDepth, |d.changed|);
    PacketsReceived(c, k, tick, d, w, k, s.packets);
    InStepIffWhole(base, cur, m, n);
    if Encoding(base, cur, c.maxEntities).Encoded? {
      assert Receive(w, k, SendDelta(c, s, k, cur, tick).packets) == AfterDelta(Seen(base), d, m, n);
    }
  }

  lemma SendAscends(c: Config, s: Served, client: u64, cur: seq<EntityState>, tick: u64)
    requires AscendingBaselines(s.baselines) && AscendingStates(cur)
    ensures AscendingBaselines(SendDelta(c, s, client, cur, tick).baselines)
  {
    DeltaAscends(Base(s.baselines, client), cur);
  }

  lemma {:induction false} ServeOne(c: Config, s: Served, job: Job, entities: seq<EntitySnapshot>, tick: u64,
                                    w: RemoteWorld, k: u64)
    requires AscendingEntities(entities) && AscendingBaselines(s.baselines)
    ensures var s' := Serve(c, s, job, entities, tick);
      && AscendingBaselines(s'.baselines)
      && (job.client != k ==>
            Receive(w, k, s'.packets) == Receive(w, k, s.packets) && Base(s'.baselines, k) == Base(s.baselines, k))
      && (job.client == k && InStep(s, w, k) ==>
            (InStep(s', w, k) <==> Fits(c, Base(s.baselines, k), job, entities)))
  {
    var cur := RelevantStates(job.relevant, entities, |entities|);
    RelevantAscend(job.relevant, entities, |entities|);
    SendAscends(c, s, job.client, cur, tick);
    if job.client != k {
      SendToOther(c, s, job.client, cur, tick, w, k);
    } else if InStep(s, w, k) {
      SendToSelf(c, s, k, cur, tick, w);
    }
  }

  lemma {:induction false} ServeOthers(c: Config, s: Served, jobs: seq<Job>, entities: seq<EntitySnapshot>, tick: u64,
                                       i: nat, w: RemoteWorld, k: u64)
    requires i <= |jobs| && AscendingEntities(entities) && AscendingBaselines(s.baselines)
    requires forall j :: i <= j < |jobs| ==> jobs[j].client != k
    ensures var s' := ServeFrom(c, s, jobs, entities, tick, i);
      && AscendingBaselines(s'.baselines)
      && Receive(w, k, s'.packets) == Receive(w, k, s.packets) && Base(s'.baselines, k) == Base(s.baselines, k)
    decreases |jobs| - i
  {
    if i < |jobs| {
      ServeOne(c, s, jobs[i], entities, tick, w, k);
      ServeOthers(c, Serve(c, s, jobs[i], entities, tick), jobs, entities, tick, i + 1, w, k);
    }
  }

  lemma {:induction false} ServeUpTo(c: Config, s: Served, jobs: seq<Job>, entities: seq<EntitySnapshot>, tick: u64,
                                     i: nat, at: nat, w: RemoteWorld)
    requires i <= at < |jobs| && AscendingEntities(entities) && AscendingBaselines(s.baselines)
    requires forall j :: i <= j < |jobs| && j != at ==> jobs[j].client != jobs[at].client
    requires InStep(s, w, jobs[at].client)
    ensures var s' := ServeFrom(c, s, jobs, entities, tick, i);
      && AscendingBaselines(s'.baselines)
      && (InStep(s', w, jobs[at].client) <==> Fits(c, Base(s.baselines, jobs[at].client), jobs[at], entities))
    decreases |jobs| - i
  {
    var s1 := Serve(c, s, jobs[i], entities, tick);
    ServeOne(c, s, jobs[i], entities, tick, w, jobs[at].client);
    if i < at {
      ServeUpTo(c, s1, jobs, entities, tick, i + 1, at, w);
    } else {
      ServeOthers(c, s1, jobs, entities, tick, i + 1, w, jobs[at].client);
    }
  }

  /** Every job for k in the pass fits. */
  ghost predicate Delivers(c: Config, m: Baselines, p: Pass, k: u64) {
    forall i :: 0 <= i < |p.jobs| && p.jobs[i].client == k ==> Fits(c, Base(m, k), p.jobs[i], p.entities)
  }

  /**
   * A client in step with its baseline is in step after the pass exactly when it was not served, was
   * skipped over the entity cap, or both its packets had room for every record.
   */
  lemma {:induction false} PassKeepsStepIff(c: Config, m: Baselines, p: Pass, k: u64, w: RemoteWorld)
    requires WellFormedPass(p) && AscendingBaselines(m) && w == Seen(Base(m, k))
    ensures AscendingBaselines(Execute(c, m, p).baselines)
    ensures Receive(w, k, Execute(c, m, p).packets) == Seen(Base(Execute(c, m, p).baselines, k))
      <==> Delivers(c, m, p, k)
  {
    var s := Served(m, []);
    if at :| 0 <= at < |p.jobs| && p.jobs[at].client == k {
      ServeUpTo(c, s, p.jobs, p.entities, p.tick, 0, at, w);
    } else {
      ServeOthers(c, s, p.jobs, p.entities, p.tick, 0, w, k);
    }
  }

  // --------------------------------------------------------------------------- every run

  ghost function BaselinesAfter(c: Config, passes: seq<Pass>): Baselines {
    if passes == [] then map[]
    else Execute(c, BaselinesAfter(c, passes[..|passes| - 1]), passes[|passes| - 1]).baselines
  }

  /** Client k after reading, in order, every packet of every pass. */
  ghost function WorldAfter(c: Config, passes: seq<Pass>, k: u64): RemoteWorld {
    if passes == [] then map[]
    else
      var n := |passes| - 1;
      Receive(WorldAfter(c, passes[..n], k), k, Execute(c, BaselinesAfter(c, passes[..n]), passes[n]).packets)
  }

  /** Over every run whose packets carry what is queued, every client mirrors its baseline. */
  lemma {:induction false} ClientsMirrorBaselines(c: Config, passes: seq<Pass>, k: u64)
    requires forall n :: 0 <= n < |passes| ==> WellFormedPass(passes[n])
    requires forall n :: 0 <= n < |passes| ==> Delivers(c, BaselinesAfter(c, passes[..n]), passes[n], k)
    ensures AscendingBaselines(BaselinesAfter(c, passes))
    ensures WorldAfter(c, passes, k) == Seen(Base(BaselinesAfter(c, passes), k))
  {
    if passes == [] {
      assert Seen([]) == map[];
    } else {
      var n := |passes| - 1;
      forall i | 0 <= i < n ensures Delivers(c, BaselinesAfter(c, passes[..n][..i]), passes[..n][i], k) {
        assert passes[..n][..i] == passes[..i];
      }
      ClientsMirrorBaselines(c, passes[..n], k);
      PassKeepsStepIff(c, BaselinesAfter(c, passes[..n]), passes[n], k, WorldAfter(c, passes[..n], k));
    }
  }

  // ----------------------------------------------------------- mirroring is being current

  lemma {:induction false} RelevantLook(relevant: seq<u32>, entities: seq<EntitySnapshot>, n: nat, id: u32)
    requires n <= |entities| && AscendingEntities(entities)
    ensures forall j :: 0 <= j < n && entities[j].id == id && id in relevant ==>
      Look(RelevantStates(relevant, entities, n), id) == Some(StateOf(entities[j]))
    ensures Look(RelevantStates(relevant, entities, n), id).Some? ==>
      id in relevant && exists j :: 0 <= j < n && entities[j].id == id
  {
    if n > 0 {
      RelevantLook(relevant, entities, n - 1, id);
      if entities[n - 1].id in relevant {
        LookSnoc(RelevantStates(relevant, entities, n - 1), StateOf(entities[n - 1]), id);
      } else {
        assert RelevantStates(relevant, entities, n) == RelevantStates(relevant, entities, n - 1);
      }
    }
  }

  /**
   * A baseline brought up to a snapshot shows a client exactly the snapshot's relevant entities, at
   * their positions and states.
   */
  lemma {:induction false} NextShowsSnapshot(base: seq<EntityState>, relevant: seq<u32>,
                                             entities: seq<EntitySnapshot>, id: u32)
    requires AscendingStates(base) && AscendingEntities(entities)
    ensures var seen := Seen(Next(base, RelevantStates(relevant, entities, |entities|)));
      && (id in seen <==> id in relevant && exists j :: 0 <= j < |entities| && entities[j].id == id)
      && (forall j :: 0 <= j < |entities| && entities[j].id == id && id in relevant ==>
            seen[id].position == entities[j].position && seen[id].stateFlags == entities[j].state)
  {
    var cur := RelevantStates(relevant, entities, |entities|);
    RelevantAscend(relevant, entities, |entities|);
    RelevantLook(relevant, entities, |entities|, id);
    DeltaIsExact(base, cur, id);
    SeenAt(Next(base, cur), id);
  }

  lemma NoPackets(c: Config, client: u64, tick: u64)
    ensures PacketsFor(c, client, tick, ChangeSet([], [], [])) == []
  {
    assert ReliableRecords(ChangeSet([], [], [])) == [] && UnreliableRecords(ChangeSet([], [], [])) == [];
  }

  lemma EmptyDeltaIsSilent(c: Config, s: Served, client: u64, cur: seq<EntityState>, tick: u64)
    requires client in s.baselines && Next(s.baselines[client], cur) == s.baselines[client]
    requires DeltaOf(s.baselines[client], cur) == ChangeSet([], [], [])
    ensures SendDelta(c, s, client, cur, tick) == s
  {
    NoPackets(c, client, tick);
    assert Encoding(s.baselines[client], cur, c.maxEntities) == Encoded(ChangeSet([], [], []));
    assert s.packets + [] == s.packets;
    assert s.baselines[client := s.baselines[client]] == s.baselines;
  }

  /**
   * Serving a client the same snapshot again sends it nothing and leaves its baseline: whatever was clipped
   * the first time is not made up for.
   */
  lemma {:induction false} ServedAgainIsSilent(c: Config, s: Served, job: Job, entities: seq<EntitySnapshot>,
                                               tick: u64, again: u64)
    requires AscendingEntities(entities) && AscendingBaselines(s.baselines)
    requires Encoding(Base(s.baselines, job.client), RelevantStates(job.relevant, entities, |entities|),
                      c.maxEntities).Encoded?
    ensures var s1 := Serve(c, s, job, entities, tick);
      Serve(c, s1, job, entities, again) == s1
  {
    var cur := RelevantStates(job.relevant, entities, |entities|);
    var base := Base(s.baselines, job.client);
    RelevantAscend(job.relevant, entities, |entities|);
    SettledDelta(base, cur);
    var s1 := SendDelta(c, s, job.client, cur, tick);
    assert s1.baselines == s.baselines[job.client := Next(base, cur)];
    EmptyDeltaIsSilent(c, s1, job.client, cur, again);
  }

  // ---------------------------------------------------------------------- where it fails

  const STILL := Vec3(0, 0, 0)

  const TWO_ENTITIES := [EntitySnapshot(1, STILL, STILL, 0, 0, 0, 0), EntitySnapshot(2, STILL, STILL, 0, 0, 0, 0)]

  /** A client that sees nothing yet is shown two entities. */
  lemma {:induction false} TwoSpawns(relevant: seq<u32>)
    requires relevant == [1, 2]
    ensures var d := DeltaOf([], RelevantStates(relevant, TWO_ENTITIES, 2));
      |d.added| == 2 && d.changed == [] && d.removed == []
  {
    var a, b := StateOf(TWO_ENTITIES[0]), StateOf(TWO_ENTITIES[1]);
    assert RelevantStates(relevant, TWO_ENTITIES, 1) == [a];
    var cur := RelevantStates(relevant, TWO_ENTITIES, 2);
    assert cur == [a, b];
    assert |AddedOf(map[], cur, 1)| == 1 && ChangedOf(map[], cur, 1) == [];
    assert Table([]) == map[];
  }

  /** With a reliable queue of depth one, the first pass of a client that should see two entities loses one. */
  lemma {:induction false} ShallowQueueLosesSpawn(c: Config, p: Pass)
    requires c == Config(10, 1, 1, 0) && p == Pass([Job(1, [1, 2])], TWO_ENTITIES, p.tick)
    ensures WellFormedPass(p) && WorldAfter(c, [p], 1) != Seen(Base(BaselinesAfter(c, [p]), 1))
  {
    TwoDoNotFit(c, p.jobs[0]);
    FirstPassLoses(c, p, 1, 0);
  }

  /** Whatever does not fit in its first pass leaves a client out of step. */
  lemma {:induction false} FirstPassLoses(c: Config, p: Pass, k: u64, at: nat)
    requires WellFormedPass(p) && at < |p.jobs| && p.jobs[at].client == k && !Fits(c, [], p.jobs[at], p.entities)
    ensures WorldAfter(c, [p], k) != Seen(Base(BaselinesAfter(c, [p]), k))
  {
    assert !Delivers(c, map[], p, k);
    FirstPass(c, p, k);
    PassKeepsStepIff(c, map[], p, k, map[]);
  }

  lemma TwoDoNotFit(c: Config, job: Job)
    requires c == Config(10, 1, 1, 0) && job.relevant == [1, 2]
    ensures !Fits(c, [], job, TWO_ENTITIES)
  {
    TwoSpawns(job.relevant);
  }

  lemma {:induction false} FirstPass(c: Config, p: Pass, k: u64)
    ensures BaselinesAfter(c, [p]) == Execute(c, map[], p).baselines
    ensures WorldAfter(c, [p], k) == Receive(map[], k, Execute(c, map[], p).packets)
    ensures Seen([]) == map[]
  {
    assert [p][..0] == [];
  }
}
