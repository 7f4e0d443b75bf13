/**
 * One pass of ReplicationWorker.cpp as a function: interest, delta, queues, packets, next baseline;
 * and the client that reads the packets.
 */
module ReplicationModel {
  import opened Prelude
  import opened SnapshotTypes
  import opened ReplicationTypes
  import opened DeltaEncoders
  import opened RecordQueues
  import opened ReplicationPackets
  import opened UpdateReaders

  datatype Config = Config(maxEntities: u32, reliableDepth: u32, unreliableDepth: u32, byteBudget: u32)

  /** A client to serve, with the ids its interest policy selected: any ascending ids. */
  datatype Job = Job(client: u64, relevant: seq<u32>)

  type Baselines = map<u64, seq<EntityState>>

  function Base(m: Baselines, client: u64): seq<EntityState> {
    if client in m then m[client] else []
  }

  function StateOf(e: EntitySnapshot): EntityState {
    EntityState(e.id, e.position, e.velocity, e.state, 0)
  }

  /** Of the first n snapshot entities, those that are relevant. */
  function RelevantStates(relevant: seq<u32>, entities: seq<EntitySnapshot>, n: nat): seq<EntityState>
    requires n <= |entities|
  {
    if n == 0 then []
    else RelevantStates(relevant, entities, n - 1)
         + if entities[n - 1].id in relevant then [StateOf(entities[n - 1])] else []
  }

  // ---------------------------------------------------------------------------- one client

  /** How many records one packet can carry out of a queue of this depth. */
  function Room(c: Config, depth: nat): nat {
    if c.byteBudget != 0 && c.byteBudget < FRAME_BYTES then 0
    else Fit(c.byteBudget, c.maxEntities, depth)
  }

  function Carried(c: Config, depth: nat, records: seq<Record>): (carried: seq<Record>)
    ensures |carried| <= 0xFFFF
  {
    Clip(records, Room(c, depth))
  }

  function OnePacket(c: Config, depth: nat, reliability: Reliability, client: u64, tick: u64, records: seq<Record>)
    : seq<Packet>
  {
    var carried := Carried(c, depth, records);
    if carried == [] then []
    else [Packet(client, reliability, |carried|, Frame(client, tick, reliability, carried))]
  }

  function PacketsFor(c: Config, client: u64, tick: u64, d: ChangeSet): seq<Packet> {
    OnePacket(c, c.reliableDepth, Reliable, client, tick, ReliableRecords(d))
    + OnePacket(c, c.unreliableDepth, Unreliable, client, tick, UnreliableRecords(d))
  }

  datatype Served = Served(baselines: Baselines, packets: seq<Packet>)

  /** Beyond the entity cap the client is skipped and its baseline kept; else it is sent the delta. */
  ghost function SendDelta(c: Config, s: Served, client: u64, cur: seq<EntityState>, tick: u64): Served {
    var base := Base(s.baselines, client);
    match Encoding(base, cur, c.maxEntities)
    case Overflow => Served(s.baselines[client := base], s.packets)
    case Encoded(d) => Served(s.baselines[client := Next(base, cur)], s.packets + PacketsFor(c, client, tick, d))
  }

  ghost function Serve(c: Config, s: Served, job: Job, entities: seq<EntitySnapshot>, tick: u64): Served {
    SendDelta(c, s, job.client, RelevantStates(job.relevant, entities, |entities|), tick)
  }

  ghost function ServeFrom(
    c: Config, s: Served, jobs: seq<Job>, entities: seq<EntitySnapshot>, tick: u64, i: nat): Served
    requires i <= |jobs|
    decreases |jobs| - i
  {
    if i == |jobs| then s
    else ServeFrom(c, Serve(c, s, jobs[i], entities, tick), jobs, entities, tick, i + 1)
  }

  datatype Pass = Pass(jobs: seq<Job>, entities: seq<EntitySnapshot>, tick: u64)

  ghost function Execute(c: Config, m: Baselines, p: Pass): Served {
    ServeFrom(c, Served(m, []), p.jobs, p.entities, p.tick, 0)
  }

  /** What the client registry and the snapshot promise of their lists: ascending, unique. */
  ghost predicate WellFormedPass(p: Pass) {
    && AscendingEntities(p.entities)
    && (forall i, j :: 0 <= i < j < |p.jobs| ==> p.jobs[i].client != p.jobs[j].client)
    && (forall i :: 0 <= i < |p.jobs| ==> AscendingIds(p.jobs[i].relevant))
  }

  // --------------------------------------------------------------------------- the client

  /** What a client knows of an entity. */
  datatype Remote = Remote(version: u32, stateFlags: u32, position: Vec3)

  type RemoteWorld = map<u32, Remote>

  function ApplyRecord(w: RemoteWorld, r: WireRecord): RemoteWorld {
    match r.kind
    case EntityRemove => w - {r.id}
    case EntitySpawn | Position => w[r.id := Remote(r.version, r.stateFlags, r.position)]
    case _ => w
  }

  function ApplyRecords(w: RemoteWorld, rs: seq<WireRecord>): RemoteWorld {
    if rs == [] then w else ApplyRecord(ApplyRecords(w, rs[..|rs| - 1]), rs[|rs| - 1])
  }

  /** One packet off the wire: unreadable or somebody else's bytes change nothing. */
  function ReceiveBytes(w: RemoteWorld, client: u64, bytes: seq<u8>): RemoteWorld {
    match ReadUpdate(bytes)
    case Some(u) => if u.client == client then ApplyRecords(w, u.records) else w
    case None => w
  }

  function Receive(w: RemoteWorld, client: u64, packets: seq<Packet>): RemoteWorld {
    if packets == [] then w
    else ReceiveBytes(Receive(w, client, packets[..|packets| - 1]), client, packets[|packets| - 1].bytes)
  }

  /** A baseline as a client sees it. */
  ghost function Seen(base: seq<EntityState>): RemoteWorld {
    map id | id in Table(base) :: Remote(Table(base)[id].version, Table(base)[id].stateFlags, Table(base)[id].position)
  }
}
