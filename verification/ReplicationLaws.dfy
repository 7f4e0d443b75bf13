/** The classes of records, and what a served baseline holds of a snapshot. */
module ReplicationLaws {
  import opened Prelude
  import opened SnapshotTypes
  import opened ReplicationTypes
  import opened DeltaEncoders
  import opened ReplicationModel
  import opened ReplicationTheorems
  import opened CapTheorems

  /** The frozen classification, by the kinds' values on the wire. */
  lemma ClassesByCode(k: Kind)
    ensures ClassifyReliability(k) == Reliable <==> KindCode(k) in {2, 3, 4, 5, 7, 16, 17, 18}
    ensures ClassifyPriority(k) == High <==> KindCode(k) in {1, 2, 3, 4, 5, 17, 18}
    ensures ClassifyPriority(k) == Low <==> KindCode(k) in {0, 9, 10, 11, 15}
  {
  }

  /** What is selected of a snapshot, field by field. */
  lemma {:induction false} SelectedShows(relevant: seq<u32>, entities: seq<EntitySnapshot>, n: nat, id: u32)
    requires n <= |entities| && AscendingEntities(entities)
    ensures var l := Look(RelevantStates(relevant, entities, n), id);
      && (l.Some? <==> id in relevant && exists j :: 0 <= j < n && entities[j].id == id)
      && (l.Some? ==>
            exists j :: 0 <= j < n && entities[j].id == id
              && l.value == EntityState(id, entities[j].position, entities[j].velocity, entities[j].state, 0))
  {
    if n > 0 {
      SelectedShows(relevant, entities, n - 1, id);
      if entities[n - 1].id in relevant {
        LookSnoc(RelevantStates(relevant, entities, n - 1), StateOf(entities[n - 1]), id);
      } else {
        assert RelevantStates(relevant, entities, n) == RelevantStates(relevant, entities, n - 1);
      }
    }
  }

  /**
   * After a pass within the cap the client's baseline holds exactly the relevant entities of the snapshot, each with
   * its position, velocity and state.
   */
  lemma {:induction false} ServedBaselineShows(c: Config, m: Baselines, p: Pass, at: nat, id: u32)
    requires WellFormedPass(p) && AscendingBaselines(m) && at < |p.jobs|
    requires WithinCap(c, DeltaOf(Base(m, p.jobs[at].client), Shown(p, at)))
    ensures var l := Look(Base(Execute(c, m, p).baselines, p.jobs[at].client), id);
      && (l.Some? <==> id in p.jobs[at].relevant && exists j :: 0 <= j < |p.entities| && p.entities[j].id == id)
      && (l.Some? ==>
            exists j :: 0 <= j < |p.entities| && p.entities[j].id == id
              && l.value == EntityState(id, p.entities[j].position, p.entities[j].velocity, p.entities[j].state,
                                        l.value.version))
  {
    var base, cur := Base(m, p.jobs[at].client), Shown(p, at);
    ServeBrings(c, Served(m, []), p, 0, at);
    RelevantAscend(p.jobs[at].relevant, p.entities, |p.entities|);
    SelectedShows(p.jobs[at].relevant, p.entities, |p.entities|, id);
    hide RelevantStates, Look, DeltaOf, Next, ServeFrom;
    DeltaIsExact(base, cur, id);
    if Look(cur, id).Some? {
      var j :| 0 <= j < |p.entities| && p.entities[j].id == id
        && Look(cur, id).value
           == EntityState(id, p.entities[j].position, p.entities[j].velocity, p.entities[j].state, 0);
    }
  }
}
