/** The entity cap: which passes bring a client up to what it should see, and which clients never get there. */
module CapTheorems {
  import opened Prelude
  import opened SnapshotTypes
  import opened ReplicationTypes
  import opened DeltaEncoders
  import opened ReplicationModel
  import opened ReplicationTheorems

  /** What a pass shows to the client of one of its jobs. */
  ghost function Shown(p: Pass, at: nat): seq<EntityState>
    requires at < |p.jobs|
  {
    RelevantStates(p.jobs[at].relevant, p.entities, |p.entities|)
  }

  /** The update emits no more states than the cap. */
  ghost predicate WithinCap(c: Config, d: ChangeSet) { |d.added| + |d.changed| <= c.maxEntities }

  ghost predicate HasRoom(c: Config, d: ChangeSet) {
    |d.removed| + |d.added| <= Room(c, c.reliableDepth) && |d.changed| <= Room(c, c.unreliableDepth)
  }

  /** The client's baseline after it was served. */
  ghost function Brought(c: Config, base: seq<EntityState>, cur: seq<EntityState>): seq<EntityState> {
    if WithinCap(c, DeltaOf(base, cur)) then Next(base, cur) else base
  }

  lemma SendBrings(c: Config, s: Served, k: u64, cur: seq<EntityState>, tick: u64)
    ensures Base(SendDelta(c, s, k, cur, tick).baselines, k) == Brought(c, Base(s.baselines, k), cur)
  {
  }

  /** A delta that emits states is visible: the next baseline is not the old one. */
  lemma BroughtIff(c: Config, base: seq<EntityState>, cur: seq<EntityState>)
    requires AscendingStates(base) && AscendingStates(cur)
    ensures Seen(Brought(c, base, cur)) == Seen(Next(base, cur)) <==> WithinCap(c, DeltaOf(base, cur))
  {
    if !WithinCap(c, DeltaOf(base, cur)) {
      NothingCarried(Seen(base), DeltaOf(base, cur));
      InStepIffWhole(base, cur, 0, 0);
    }
  }

  lemma NothingCarried(w: RemoteWorld, d: ChangeSet)
    ensures AfterDelta(w, d, 0, 0) == w
  {
  }

  /** Through a pass, from job i on, a client's baseline moves only at its own job. */
  lemma {:induction false} ServeBrings(c: Config, s: Served, p: Pass, i: nat, at: nat)
    requires WellFormedPass(p) && i <= at < |p.jobs| && AscendingBaselines(s.baselines)
    ensures var k := p.jobs[at].client;
      Base(ServeFrom(c, s, p.jobs, p.entities, p.tick, i).baselines, k)
        == Brought(c, Base(s.baselines, k), Shown(p, at))
    decreases |p.jobs| - i
  {
    var k := p.jobs[at].client;
    var s1 := Serve(c, s, p.jobs[i], p.entities, p.tick);
    ServeOne(c, s, p.jobs[i], p.entities, p.tick, map[], k);
    if i < at {
      ServeBrings(c, s1, p, i + 1, at);
    } else {
      SendBrings(c, s, k, Shown(p, at), p.tick);
      ServeOthers(c, s1, p.jobs, p.entities, p.tick, i + 1, map[], k);
    }
  }

  /**
   * A pass brings the worker's baseline of a client up to the snapshot exactly when the update is within the
   * cap, and brings the client itself there exactly when its packets also have room for all of it.
   */
  lemma {:induction false} PassCatchesUpIff(c: Config, m: Baselines, p: Pass, at: nat, w: RemoteWorld)
    requires WellFormedPass(p) && AscendingBaselines(m) && at < |p.jobs| && w == Seen(Base(m, p.jobs[at].client))
    ensures var k, base, cur, r := p.jobs[at].client, Base(m, p.jobs[at].client), Shown(p, at), Execute(c, m, p);
      && (Seen(Base(r.baselines, k)) == Seen(Next(base, cur)) <==> WithinCap(c, DeltaOf(base, cur)))
      && (Receive(w, k, r.packets) == Seen(Next(base, cur)) <==>
            WithinCap(c, DeltaOf(base, cur)) && HasRoom(c, DeltaOf(base, cur)))
  {
    var k, base, cur := p.jobs[at].client, Base(m, p.jobs[at].client), Shown(p, at);
    RelevantAscend(p.jobs[at].relevant, p.entities, |p.entities|);
    ServeBrings(c, Served(m, []), p, 0, at);
    BroughtIff(c, base, cur);
    PassKeepsStepIff(c, m, p, k, w);
    DeliversAt(c, m, p, at);
  }

  lemma DeliversAt(c: Config, m: Baselines, p: Pass, at: nat)
    requires WellFormedPass(p) && at < |p.jobs|
    ensures var d := DeltaOf(Base(m, p.jobs[at].client), Shown(p, at));
      Delivers(c, m, p, p.jobs[at].client) <==> !WithinCap(c, d) || HasRoom(c, d)
  {
    assert Fits(c, Base(m, p.jobs[at].client), p.jobs[at], p.entities) <==>
      var d := DeltaOf(Base(m, p.jobs[at].client), Shown(p, at)); !WithinCap(c, d) || HasRoom(c, d);
  }

  // ------------------------------------------------------------------- clients never served

  /** From nothing, everything relevant is added. */
  lemma {:induction false} AllAdded(cur: seq<EntityState>, n: nat)
    requires n <= |cur|
    ensures |AddedOf(map[], cur, n)| == n && ChangedOf(map[], cur, n) == []
  {
    if n > 0 {
      AllAdded(cur, n - 1);
    }
  }

  /** For a client that has nothing, the update is as large as what it is shown. */
  lemma FirstUpdate(c: Config, cur: seq<EntityState>)
    ensures WithinCap(c, DeltaOf([], cur)) <==> |cur| <= c.maxEntities
    ensures DeltaOf([], cur).removed == [] && (Next([], cur) == [] <==> cur == [])
  {
    AllAdded(cur, |cur|);
    assert Table([]) == map[];
  }

  /** The pass shows the client nothing, or more entities than the cap. */
  ghost predicate Withheld(c: Config, p: Pass, k: u64) {
    forall i :: 0 <= i < |p.jobs| && p.jobs[i].client == k ==> Shown(p, i) == [] || |Shown(p, i)| > c.maxEntities
  }

  lemma NothingSent(c: Config, s: Served, k: u64, cur: seq<EntityState>, tick: u64)
    requires Base(s.baselines, k) == [] && (cur == [] || |cur| > c.maxEntities)
    ensures var r := SendDelta(c, s, k, cur, tick); Base(r.baselines, k) == [] && r.packets == s.packets
  {
    FirstUpdate(c, cur);
    if cur == [] {
      NoPackets(c, k, tick);
      assert DeltaOf([], cur) == ChangeSet([], [], []);
      assert s.packets + [] == s.packets;
    }
  }

  lemma {:induction false} WithheldServed(c: Config, s: Served, p: Pass, i: nat, k: u64, w: RemoteWorld)
    requires i <= |p.jobs| && Base(s.baselines, k) == [] && Withheld(c, p, k)
    ensures var r := ServeFrom(c, s, p.jobs, p.entities, p.tick, i);
      Base(r.baselines, k) == [] && Receive(w, k, r.packets) == Receive(w, k, s.packets)
    decreases |p.jobs| - i
  {
    if i < |p.jobs| {
      if p.jobs[i].client == k {
        NothingSent(c, s, k, Shown(p, i), p.tick);
      } else {
        SendToOther(c, s, p.jobs[i].client, Shown(p, i), p.tick, w, k);
      }
      WithheldServed(c, Serve(c, s, p.jobs[i], p.entities, p.tick), p, i + 1, k, w);
    }
  }

  /**
   * A client over the entity cap is not caught up with later: while every pass shows it nothing or more
   * entities than the cap, it receives nothing in any run, and its baseline stays empty.
   */
  lemma {:induction false} CrowdedClientIsNeverServed(c: Config, passes: seq<Pass>, k: u64)
    requires forall n :: 0 <= n < |passes| ==> Withheld(c, passes[n], k)
    ensures Base(BaselinesAfter(c, passes), k) == [] && WorldAfter(c, passes, k) == map[]
  {
    if passes != [] {
      var n := |passes| - 1;
      CrowdedClientIsNeverServed(c, passes[..n], k);
      var s := Served(BaselinesAfter(c, passes[..n]), []);
      WithheldServed(c, s, passes[n], 0, k, WorldAfter(c, passes[..n], k));
    }
  }

  /** The client's baseline is empty before the first pass and after each. */
  ghost predicate NeverServed(c: Config, passes: seq<Pass>, k: u64) {
    passes == [] || (NeverServed(c, passes[..|passes| - 1], k) && Base(BaselinesAfter(c, passes), k) == [])
  }

  lemma {:induction false} RunAscends(c: Config, passes: seq<Pass>)
    requires forall n :: 0 <= n < |passes| ==> WellFormedPass(passes[n])
    ensures AscendingBaselines(BaselinesAfter(c, passes))
  {
    if passes != [] {
      var n := |passes| - 1;
      RunAscends(c, passes[..n]);
      var m := BaselinesAfter(c, passes[..n]);
      PassKeepsStepIff(c, m, passes[n], 0, Seen(Base(m, 0)));
    }
  }

  /** One pass over a client that has nothing leaves it with nothing exactly when it withholds everything. */
  lemma PassWithholdsIff(c: Config, m: Baselines, p: Pass, k: u64)
    requires WellFormedPass(p) && AscendingBaselines(m) && Base(m, k) == []
    ensures Base(Execute(c, m, p).baselines, k) == [] <==> Withheld(c, p, k)
  {
    if Withheld(c, p, k) {
      WithheldServed(c, Served(m, []), p, 0, k, map[]);
    } else {
      var at :| 0 <= at < |p.jobs| && p.jobs[at].client == k && !(Shown(p, at) == [] || |Shown(p, at)| > c.maxEntities);
      FirstUpdate(c, Shown(p, at));
      ServeBrings(c, Served(m, []), p, 0, at);
    }
  }

  lemma {:induction false} NothingHeldYet(c: Config, passes: seq<Pass>, k: u64)
    requires NeverServed(c, passes, k)
    ensures Base(BaselinesAfter(c, passes), k) == []
  {
  }

  lemma {:induction false} NextPassIff(c: Config, passes: seq<Pass>, k: u64)
    requires passes != [] && forall n :: 0 <= n < |passes| ==> WellFormedPass(passes[n])
    ensures NeverServed(c, passes, k) <==>
      NeverServed(c, passes[..|passes| - 1], k) && Withheld(c, passes[|passes| - 1], k)
  {
    hide Withheld, WellFormedPass, AscendingBaselines;
    var n := |passes| - 1;
    RunAscends(c, passes[..n]);
    if NeverServed(c, passes[..n], k) {
      NothingHeldYet(c, passes[..n], k);
      PassWithholdsIff(c, BaselinesAfter(c, passes[..n]), passes[n], k);
    }
  }

  /** Over every run a client is never served exactly if every pass shows it nothing or more than the cap. */
  lemma {:induction false} NeverServedIff(c: Config, passes: seq<Pass>, k: u64)
    requires forall n :: 0 <= n < |passes| ==> WellFormedPass(passes[n])
    ensures NeverServed(c, passes, k) <==> forall n :: 0 <= n < |passes| ==> Withheld(c, passes[n], k)
  {
    if passes != [] {
      hide Withheld, WellFormedPass, AscendingBaselines, NeverServed, BaselinesAfter;
      var n := |passes| - 1;
      assert forall j :: 0 <= j < n ==> passes[..n][j] == passes[j];
      NeverServedIff(c, passes[..n], k);
      NextPassIff(c, passes, k);
    }
  }

  lemma TwoShown(p: Pass)
    requires p == Pass([Job(1, [1, 2])], TWO_ENTITIES, p.tick)
    ensures WellFormedPass(p) && |Shown(p, 0)| == 2 && AscendingStates(Shown(p, 0))
  {
    TwoSpawns(p.jobs[0].relevant);
    RelevantAscend(p.jobs[0].relevant, p.entities, |p.entities|);
    FirstUpdate(Config(1, 0, 0, 0), Shown(p, 0));
    AllAdded(Shown(p, 0), |Shown(p, 0)|);
  }

  /** Two entities under a cap of one: after a pass, and after the next over the same snapshot, nothing arrived. */
  lemma {:induction false} CapOfOneStarves(c: Config, p: Pass)
    requires c.maxEntities == 1 && p == Pass([Job(1, [1, 2])], TWO_ENTITIES, p.tick)
    ensures WellFormedPass(p) && WorldAfter(c, [p], 1) == map[] && WorldAfter(c, [p, p], 1) == map[]
    ensures Seen(Next([], Shown(p, 0))) != map[]
  {
    hide Shown, WorldAfter, Next, Seen, WellFormedPass;
    TwoShown(p);
    FirstUpdate(c, Shown(p, 0));
    CrowdedClientIsNeverServed(c, [p], 1);
    CrowdedClientIsNeverServed(c, [p, p], 1);
    BroughtIff(c, [], Shown(p, 0));
    FirstPass(c, p, 1);
  }
}
