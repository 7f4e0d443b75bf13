/** ReplicationWorker.cpp: the per-client pipeline over its own baselines and scratch queues. */
module ReplicationWorkers {
  import opened Prelude
  import opened Sorted
  import opened SnapshotTypes
  import opened ReplicationTypes
  import opened DeltaEncoders
  import opened RecordQueues
  import opened ReplicationPackets
  import opened ReplicationTheorems
  import M = ReplicationModel

  /** The ascending relevant ids met with the ascending snapshot entities. */
  method BuildCurrentStates(relevant: seq<u32>, entities: seq<EntitySnapshot>) returns (current: seq<EntityState>)
    requires AscendingIds(relevant) && AscendingEntities(entities)
    ensures current == M.RelevantStates(relevant, entities, |entities|)
  {
    current := [];
    var ri, ei := 0, 0;
    while ri < |relevant| && ei < |entities|
      invariant ri <= |relevant| && ei <= |entities|
      invariant current == M.RelevantStates(relevant, entities, ei)
      invariant ri > 0 && ei < |entities| ==> relevant[ri - 1] < entities[ei].id
      decreases |relevant| + |entities| - ri - ei
    {
      if relevant[ri] < entities[ei].id {
        ri := ri + 1;
      } else if entities[ei].id < relevant[ri] {
        assert entities[ei].id !in relevant by {
          NotBetween(relevant, ri, entities[ei].id);
        }
        ei := ei + 1;
      } else {
        current := current + [M.StateOf(entities[ei])];
        ri, ei := ri + 1, ei + 1;
      }
    }
    RestIrrelevant(relevant, entities, ei, ri);
  }

  /** When the relevant ids are used up, the entities left over are not relevant. */
  lemma {:induction false} RestIrrelevant(relevant: seq<u32>, entities: seq<EntitySnapshot>, ei: nat, ri: nat)
    requires AscendingIds(relevant) && AscendingEntities(entities) && ei <= |entities| && ri <= |relevant|
    requires ei < |entities| ==> ri == |relevant| && (ri > 0 ==> relevant[ri - 1] < entities[ei].id)
    ensures M.RelevantStates(relevant, entities, |entities|) == M.RelevantStates(relevant, entities, ei)
    decreases |entities| - ei
  {
    if ei < |entities| {
      NotBetween(relevant, ri, entities[ei].id);
      RestIrrelevant(relevant, entities, ei + 1, ri);
    }
  }

  datatype Baseline = Baseline(clientId: u64, entities: seq<EntityState>)

  /** The baselines as a look-up; each client has at most one. */
  ghost function ByClient(bs: seq<Baseline>): M.Baselines {
    if bs == [] then map[] else ByClient(bs[..|bs| - 1])[bs[|bs| - 1].clientId := bs[|bs| - 1].entities]
  }

  ghost predicate OneEach(bs: seq<Baseline>) {
    forall i, j :: 0 <= i < j < |bs| ==> bs[i].clientId != bs[j].clientId
  }

  lemma {:induction false} ByClientAt(bs: seq<Baseline>, i: nat)
    requires OneEach(bs) && i < |bs|
    ensures bs[i].clientId in ByClient(bs) && ByClient(bs)[bs[i].clientId] == bs[i].entities
  {
    if i < |bs| - 1 {
      ByClientAt(bs[..|bs| - 1], i);
    }
  }

  lemma {:induction false} ByClientKeys(bs: seq<Baseline>, id: u64)
    requires forall i :: 0 <= i < |bs| ==> bs[i].clientId != id
    ensures id !in ByClient(bs)
  {
    if bs != [] {
      ByClientKeys(bs[..|bs| - 1], id);
    }
  }

  lemma {:induction false} ByClientPut(bs: seq<Baseline>, i: nat, entities: seq<EntityState>)
    requires OneEach(bs) && i < |bs|
    ensures ByClient(bs[i := bs[i].(entities := entities)]) == ByClient(bs)[bs[i].clientId := entities]
  {
    var n := |bs| - 1;
    var changed := bs[i := bs[i].(entities := entities)];
    if i < n {
      assert changed[..n] == bs[..n][i := bs[i].(entities := entities)];
      ByClientPut(bs[..n], i, entities);
    } else {
      assert changed[..n] == bs[..n];
    }
  }

  /** Taking what fits out of a clipped queue is clipping to the room there is. */
  lemma CarriedOf(c: M.Config, depth: nat, records: seq<Record>)
    requires c.byteBudget == 0 || c.byteBudget >= FRAME_BYTES
    ensures var queued := Clip(records, depth);
      queued[..Fit(c.byteBudget, c.maxEntities, |queued|)] == M.Carried(c, depth, records)
  {
  }

  class ReplicationWorker {
    const config: M.Config
    const queues: ReplicationQueues
    const builder: ReplicationPacketBuilder
    var baselines: seq<Baseline>

    ghost predicate Valid()
      reads this, queues, queues.reliable, queues.unreliable
    {
      && queues.Valid() && OneEach(baselines)
      && queues.reliable.buffer.Length == config.reliableDepth
      && queues.unreliable.buffer.Length == config.unreliableDepth
      && builder.byteBudget == config.byteBudget && builder.maxRecords == config.maxEntities
    }

    constructor (config: M.Config)
      ensures Valid() && this.config == config && ByClient(baselines) == map[]
      ensures fresh(queues.reliable) && fresh(queues.unreliable)
      ensures fresh(queues.reliable.buffer) && fresh(queues.unreliable.buffer)
    {
      this.config := config;
      queues := new ReplicationQueues(config.reliableDepth, config.unreliableDepth);
      builder := new ReplicationPacketBuilder(config.byteBudget, config.maxEntities);
      baselines := [];
    }

    /** The position of a client's baseline; a client seen first starts with an empty one. */
    method BaselineFor(id: u64) returns (at: nat)
      requires Valid()
      modifies this`baselines
      ensures Valid() && at < |baselines| && baselines[at].clientId == id
      ensures baselines[at].entities == M.Base(old(ByClient(baselines)), id)
      ensures ByClient(baselines) == old(ByClient(baselines))[id := M.Base(old(ByClient(baselines)), id)]
    {
      at := 0;
      while at < |baselines|
        invariant at <= |baselines|
        invariant forall i :: 0 <= i < at ==> baselines[i].clientId != id
      {
        if baselines[at].clientId == id {
          ByClientAt(baselines, at);
          return;
        }
        at := at + 1;
      }
      ByClientKeys(baselines, id);
      assert (baselines + [Baseline(id, [])])[..|baselines|] == baselines;
      baselines := baselines + [Baseline(id, [])];
    }

    /** One packet out of one queue; a frame without records is not kept. */
    method Assemble(queue: FixedRecordQueue, reliability: Reliability, client: u64, tick: u64,
                    packets: seq<Packet>, ghost depth: nat, ghost records: seq<Record>)
      returns (more: seq<Packet>)
      requires queue.Valid() && queue.Contents() == Clip(records, depth)
      requires builder.byteBudget == config.byteBudget && builder.maxRecords == config.maxEntities
      modifies queue`head, queue`count
      ensures queue.Valid()
      ensures more == packets + M.OnePacket(config, depth, reliability, client, tick, records)
    {
      var built := builder.BuildPacket(queue, reliability, client, tick);
      more := packets;
      if built.Built? {
        CarriedOf(config, depth, records);
        if built.packet.recordCount != 0 {
          more := more + [built.packet];
        }
      }
    }

    /** Deltas, queues and packets for one client; then its baseline moves on. */
    method ServeClient(job: M.Job, entities: seq<EntitySnapshot>, tick: u64, packets: seq<Packet>)
      returns (more: seq<Packet>)
      requires Valid() && AscendingIds(job.relevant) && AscendingEntities(entities)
      requires AscendingBaselines(ByClient(baselines))
      modifies this`baselines, queues.reliable, queues.unreliable, queues.reliable.buffer, queues.unreliable.buffer
      ensures Valid()
      ensures M.Served(ByClient(baselines), more)
           == M.Serve(config, M.Served(old(ByClient(baselines)), packets), job, entities, tick)
    {
      var current := BuildCurrentStates(job.relevant, entities);
      RelevantAscend(job.relevant, entities, |entities|);
      more := SendDelta(job.client, current, tick, packets);
    }

    method SendDelta(client: u64, current: seq<EntityState>, tick: u64, packets: seq<Packet>)
      returns (more: seq<Packet>)
      requires Valid() && AscendingStates(current) && AscendingBaselines(ByClient(baselines))
      modifies this`baselines, queues.reliable, queues.unreliable, queues.reliable.buffer, queues.unreliable.buffer
      ensures Valid()
      ensures M.Served(ByClient(baselines), more)
           == M.SendDelta(config, M.Served(old(ByClient(baselines)), packets), client, current, tick)
    {
      var at := BaselineFor(client);
      var baseline := baselines[at].entities;
      var delta := EncodeEntityDelta(baseline, current, config.maxEntities);
      if delta.Overflow? {
        return packets;
      }
      more := SendChanges(client, tick, delta.changes, packets);
      AdvanceBaseline(at, current);
      Overwritten(old(ByClient(baselines)), client, baseline, Next(baseline, current));
    }

    method AdvanceBaseline(at: nat, current: seq<EntityState>)
      requires Valid() && at < |baselines| && AscendingStates(baselines[at].entities) && AscendingStates(current)
      modifies this`baselines
      ensures Valid()
      ensures ByClient(baselines)
           == old(ByClient(baselines))[old(baselines)[at].clientId := Next(old(baselines)[at].entities, current)]
    {
      var next := NextEntityBaseline(baselines[at].entities, current);
      ByClientPut(baselines, at, next);
      baselines := baselines[at := baselines[at].(entities := next)];
    }

    method SendChanges(client: u64, tick: u64, changes: ChangeSet, packets: seq<Packet>) returns (more: seq<Packet>)
      requires Valid()
      modifies queues.reliable, queues.unreliable, queues.reliable.buffer, queues.unreliable.buffer
      ensures Valid() && more == packets + M.PacketsFor(config, client, tick, changes)
    {
      queues.Clear();
      var all := queues.EnqueueChangeSet(changes);
      assert [] + ReliableRecords(changes) == ReliableRecords(changes);
      assert [] + UnreliableRecords(changes) == UnreliableRecords(changes);
      more := Assemble(queues.reliable, Reliable, client, tick, packets, config.reliableDepth,
                       ReliableRecords(changes));
      more := Assemble(queues.unreliable, Unreliable, client, tick, more, config.unreliableDepth,
                       UnreliableRecords(changes));
      Joined(packets, M.OnePacket(config, config.reliableDepth, Reliable, client, tick, ReliableRecords(changes)),
             M.OnePacket(config, config.unreliableDepth, Unreliable, client, tick, UnreliableRecords(changes)));
    }

    /** One pass over the active clients. */
    method Execute(p: M.Pass) returns (packets: seq<Packet>)
      requires Valid() && M.WellFormedPass(p) && AscendingBaselines(ByClient(baselines))
      modifies this`baselines, queues.reliable, queues.unreliable, queues.reliable.buffer, queues.unreliable.buffer
      ensures Valid() && AscendingBaselines(ByClient(baselines))
      ensures M.Served(ByClient(baselines), packets) == M.Execute(config, old(ByClient(baselines)), p)
    {
      hide ByClient, M.Serve;
      packets := [];
      ghost var goal := M.Execute(config, ByClient(baselines), p);
      for i := 0 to |p.jobs|
        invariant Valid() && AscendingBaselines(ByClient(baselines))
        invariant M.ServeFrom(config, M.Served(ByClient(baselines), packets), p.jobs, p.entities, p.tick, i) == goal
      {
        ghost var s := M.Served(ByClient(baselines), packets);
        ServeOne(config, s, p.jobs[i], p.entities, p.tick, map[], 0);
        ghost var s' := M.Serve(config, s, p.jobs[i], p.entities, p.tick);
        assert M.ServeFrom(config, s', p.jobs, p.entities, p.tick, i + 1) == goal;
        packets := ServeClient(p.jobs[i], p.entities, p.tick, packets);
      }
    }
  }
}
