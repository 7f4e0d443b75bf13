/** What whole runs of bubble evaluations amount to. */
module BubbleTheorems {
  import opened BubbleModel

  /** Within the outer radius at every evaluation from m on. */
  ghost predicate StayedWithin(worlds: seq<World>, id: nat, r2: real, m: nat) {
    forall k :: m <= k < |worlds| ==> Within(worlds[k], id, r2)
  }

  lemma NextOnlineIff(online: set<nat>, w: World, r: Radii, id: nat)
    ensures id in NextOnline(online, w, r) <==> Within(w, id, r.off2) && (id in online || Within(w, id, r.on2))
  {
    if Within(w, id, r.off2) {
      var i :| 0 <= i < |w.entities| && w.entities[i].id == id && Near(w.players, w.entities[i].position, r.off2);
      assert w.entities[i] in w.entities;
    }
  }

  /**
   * Hysteresis: an entity is online exactly when at some evaluation it came within the inner radius and
   * has been within the outer one ever since.
   */
  lemma {:induction false} OnlineIff(worlds: seq<World>, r: Radii, id: nat)
    requires r.on2 <= r.off2
    ensures id in Run(worlds, r).online
      <==> exists m :: 0 <= m < |worlds| && Within(worlds[m], id, r.on2) && StayedWithin(worlds, id, r.off2, m)
  {
    if worlds != [] {
      var n := |worlds| - 1;
      var before := worlds[..n];
      OnlineIff(before, r, id);
      NextOnlineIff(Run(before, r).online, worlds[n], r, id);
      if id in Run(worlds, r).online {
        if id in Run(before, r).online {
          var m :| 0 <= m < n && Within(before[m], id, r.on2) && StayedWithin(before, id, r.off2, m);
          forall k | m <= k < |worlds| ensures Within(worlds[k], id, r.off2) {
            assert k < n ==> before[k] == worlds[k];
          }
          assert Within(worlds[m], id, r.on2) && StayedWithin(worlds, id, r.off2, m);
        } else {
          assert Within(worlds[n], id, r.on2) && StayedWithin(worlds, id, r.off2, n);
        }
      }
      if m :| 0 <= m < |worlds| && Within(worlds[m], id, r.on2) && StayedWithin(worlds, id, r.off2, m) {
        assert Within(worlds[n], id, r.off2);
        if m < n {
          assert Within(before[m], id, r.on2) && StayedWithin(before, id, r.off2, m);
        }
      }
    }
  }

  // ------------------------------------------------------------------------- the deltas

  /** Taking the deactivations out and the activations in rebuilds the online set. */
  ghost function Rebuilt(worlds: seq<World>, r: Radii): set<nat> {
    if worlds == [] then {}
    else
      var b := Run(worlds, r);
      Rebuilt(worlds[..|worlds| - 1], r) - Deactivations(b) + Activations(b)
  }

  lemma {:induction false} DeltasRebuildOnline(worlds: seq<World>, r: Radii)
    ensures Rebuilt(worlds, r) == Run(worlds, r).online
  {
    if worlds != [] {
      DeltasRebuildOnline(worlds[..|worlds| - 1], r);
    }
  }

  /** One entity's events over a run: true for an activation, false for a deactivation. */
  ghost function EventsOf(worlds: seq<World>, r: Radii, id: nat): seq<bool> {
    if worlds == [] then []
    else
      var b := Run(worlds, r);
      EventsOf(worlds[..|worlds| - 1], r, id)
      + (if id in Activations(b) then [true] else [])
      + (if id in Deactivations(b) then [false] else [])
  }

  /** Activation first, then turn about; and the last one says whether it is online. */
  lemma {:induction false} EventsAlternate(worlds: seq<World>, r: Radii, id: nat)
    ensures forall i :: 0 <= i < |EventsOf(worlds, r, id)| ==> EventsOf(worlds, r, id)[i] == (i % 2 == 0)
    ensures id in Run(worlds, r).online <==> |EventsOf(worlds, r, id)| % 2 == 1
  {
    if worlds != [] {
      EventsAlternate(worlds[..|worlds| - 1], r, id);
    }
  }
}
