/** The intents follow the bubble; when the self-check is healthy. */
module TransitionTheorems {
  import opened Prelude
  import opened Sorted
  import opened TransitionModel
  import B = BubbleModel

  // ---------------------------------------------------------------- the intents of one step

  /** One entity's intent after the reconcile. */
  lemma ReconcileKeepsHeading(intent: Intent, gateway: Option<Gateway>, id: nat)
    ensures HeadingOnline(Get(Reconciled(intent, gateway), id)) <==> HeadingOnline(Get(intent, id))
  {
  }

  lemma {:induction false} ActivationsAt(s: Staging, ids: seq<nat>, n: nat, registered: Option<set<nat>>, id: nat)
    requires n <= |ids|
    ensures Get(StageActivations(s, ids, n, registered).intent, id)
         == if id in ids[..n] && Registered(registered, id) && NeedsActivate(Get(s.intent, id)) then PendingOnline
            else Get(s.intent, id)
  {
    if n > 0 {
      ActivationsAt(s, ids, n - 1, registered, id);
      assert ids[..n] == ids[..n - 1] + [ids[n - 1]];
    }
  }

  lemma {:induction false} DeactivationsAt(s: Staging, ids: seq<nat>, n: nat, registered: Option<set<nat>>, id: nat)
    requires n <= |ids|
    ensures Get(StageDeactivations(s, ids, n, registered).intent, id)
         == if id in ids[..n] && Registered(registered, id) && NeedsDeactivate(Get(s.intent, id)) then PendingOffline
            else Get(s.intent, id)
  {
    if n > 0 {
      DeactivationsAt(s, ids, n - 1, registered, id);
      assert ids[..n] == ids[..n - 1] + [ids[n - 1]];
    }
  }

  /** An intent heads online exactly for the entities of this set. */
  ghost predicate Agrees(intent: Intent, online: set<nat>) {
    forall id: nat :: HeadingOnline(Get(intent, id)) <==> id in online
  }

  /** The delta is what changed between two online sets. */
  ghost predicate IsDelta(d: Delta, before: set<nat>, after: set<nat>) {
    && Ascending(d.activations) && Ascending(d.deactivations)
    && Elems(d.activations) == after - before && Elems(d.deactivations) == before - after
  }

  ghost predicate AllRegistered(d: Delta, registered: Option<set<nat>>) {
    && (forall id :: id in d.activations ==> Registered(registered, id))
    && (forall id :: id in d.deactivations ==> Registered(registered, id))
  }

  lemma StageAt(intent: Intent, d: Delta, registered: Option<set<nat>>, before: set<nat>, after: set<nat>, id: nat)
    requires IsDelta(d, before, after) && (HeadingOnline(Get(intent, id)) <==> id in before)
    ensures HeadingOnline(Get(Stage(intent, d, registered).intent, id))
      <==> if Registered(registered, id) then id in after else id in before
  {
    var s := Staging(intent, []);
    var acts, deacts := d.activations, d.deactivations;
    assert acts[..|acts|] == acts && deacts[..|deacts|] == deacts;
    assert id in acts <==> id in Elems(acts);
    assert id in deacts <==> id in Elems(deacts);
    ActivationsAt(s, acts, |acts|, registered, id);
    DeactivationsAt(StageActivations(s, acts, |acts|, registered), deacts, |deacts|, registered, id);
  }

  /** The new intents agree with the new online set exactly when every entity in the delta is registered. */
  lemma AgreementIff(m: Manager, i: Input, before: set<nat>, after: set<nat>)
    requires i.bubble.Some? && IsDelta(i.bubble.value, before, after) && Agrees(m.intent, before)
    ensures Agrees(Update(m, i).intent, after) <==> AllRegistered(i.bubble.value, i.registered)
  {
    var d := i.bubble.value;
    var intent := Reconciled(m.intent, i.gateway);
    var staged := Stage(intent, d, i.registered).intent;
    assert Update(m, i).intent == staged;
    forall id: nat
      ensures HeadingOnline(Get(staged, id)) <==> if Registered(i.registered, id) then id in after else id in before
    {
      ReconcileKeepsHeading(m.intent, i.gateway, id);
      StageAt(intent, d, i.registered, before, after, id);
    }
    assert forall id :: id in d.activations <==> id in Elems(d.activations);
    assert forall id :: id in d.deactivations <==> id in Elems(d.deactivations);
    if !AllRegistered(d, i.registered) {
      var id: nat :| (id in d.activations || id in d.deactivations) && !Registered(i.registered, id);
      assert HeadingOnline(Get(staged, id)) <==> id in before;
    }
  }

  // ------------------------------------------------------------------------ the whole run

  /** One tick: the bubble evaluates, then the transitions ingest its delta. */
  datatype Tick = Tick(world: B.World, input: Input)

  ghost function Worlds(ticks: seq<Tick>): seq<B.World> {
    seq(|ticks|, k requires 0 <= k < |ticks| => ticks[k].world)
  }

  ghost function Run(ticks: seq<Tick>): Manager {
    if ticks == [] then EMPTY else Update(Run(ticks[..|ticks| - 1]), ticks[|ticks| - 1].input)
  }

  /** Each tick's input is the bubble's delta at that tick. */
  ghost predicate Fed(ticks: seq<Tick>, r: B.Radii) {
    forall k :: 0 <= k < |ticks| ==>
      && ticks[k].input.bubble.Some?
      && IsDelta(ticks[k].input.bubble.value, B.Run(Worlds(ticks[..k]), r).online,
                 B.Run(Worlds(ticks[..k + 1]), r).online)
  }

  ghost predicate NeverUnregistered(ticks: seq<Tick>) {
    forall k :: 0 <= k < |ticks| && ticks[k].input.bubble.Some? ==>
      AllRegistered(ticks[k].input.bubble.value, ticks[k].input.registered)
  }

  /** While entities stay registered, intents follow the region after every tick, whatever the gateway says. */
  lemma {:induction false} IntentsFollowBubble(ticks: seq<Tick>, r: B.Radii)
    requires Fed(ticks, r) && NeverUnregistered(ticks)
    ensures Agrees(Run(ticks).intent, B.Run(Worlds(ticks), r).online)
  {
    if ticks != [] {
      var n := |ticks| - 1;
      var before := ticks[..n];
      FedPrefix(ticks, r);
      IntentsFollowBubble(before, r);
      assert ticks[..n + 1] == ticks;
      AgreementIff(Run(before), ticks[n].input, B.Run(Worlds(before), r).online, B.Run(Worlds(ticks), r).online);
    }
  }

  /** The tick's delta names the entity, and the registry knows it. */
  ghost predicate Taken(t: Tick, id: nat) {
    && t.input.bubble.Some? && Registered(t.input.registered, id)
    && (id in t.input.bubble.value.activations || id in t.input.bubble.value.deactivations)
  }

  /** The last time it was named while registered, the bubble let it in. */
  ghost predicate LastTakenIn(ticks: seq<Tick>, id: nat) {
    exists m :: 0 <= m < |ticks| && Taken(ticks[m], id) && id in ticks[m].input.bubble.value.activations
             && forall k :: m < k < |ticks| ==> !Taken(ticks[k], id)
  }

  lemma LastTakenStep(ticks: seq<Tick>, id: nat)
    requires ticks != []
    ensures var n := |ticks| - 1;
      LastTakenIn(ticks, id) <==> if Taken(ticks[n], id) then id in ticks[n].input.bubble.value.activations
                                  else LastTakenIn(ticks[..n], id)
  {
    var n := |ticks| - 1;
    var before := ticks[..n];
    assert forall k :: 0 <= k < n ==> before[k] == ticks[k];
    if !Taken(ticks[n], id) && LastTakenIn(before, id) {
      var m :| 0 <= m < n && Taken(before[m], id) && id in before[m].input.bubble.value.activations
            && forall k :: m < k < n ==> !Taken(before[k], id);
      assert Taken(ticks[m], id);
    }
    if !Taken(ticks[n], id) && LastTakenIn(ticks, id) {
      var m :| 0 <= m < |ticks| && Taken(ticks[m], id) && id in ticks[m].input.bubble.value.activations
            && forall k :: m < k < |ticks| ==> !Taken(ticks[k], id);
      assert m < n && Taken(before[m], id);
    }
  }

  /** One tick turns an intent exactly where the delta points, if the entity is registered. */
  lemma TurnAt(m: Manager, t: Tick, id: nat)
    requires t.input.bubble.Some?
    requires !(id in t.input.bubble.value.activations && id in t.input.bubble.value.deactivations)
    ensures HeadingOnline(Get(Update(m, t.input).intent, id))
      <==> if Taken(t, id) then id in t.input.bubble.value.activations else HeadingOnline(Get(m.intent, id))
  {
    var d, registered := t.input.bubble.value, t.input.registered;
    var s := Staging(Reconciled(m.intent, t.input.gateway), []);
    var acts, deacts := d.activations, d.deactivations;
    assert acts[..|acts|] == acts && deacts[..|deacts|] == deacts;
    ReconcileKeepsHeading(m.intent, t.input.gateway, id);
    ActivationsAt(s, acts, |acts|, registered, id);
    DeactivationsAt(StageActivations(s, acts, |acts|, registered), deacts, |deacts|, registered, id);
  }

  /** In every run an intent heads online exactly when the last registered word of the bubble let it in. */
  lemma {:induction false} IntentIsLastTaken(ticks: seq<Tick>, r: B.Radii, id: nat)
    requires Fed(ticks, r)
    ensures HeadingOnline(Get(Run(ticks).intent, id)) <==> LastTakenIn(ticks, id)
  {
    if ticks != [] {
      var n := |ticks| - 1;
      FedPrefix(ticks, r);
      IntentIsLastTaken(ticks[..n], r, id);
      LastTakenStep(ticks, id);
      NamedOnce(ticks[n].input.bubble.value, B.Run(Worlds(ticks[..n]), r).online,
                B.Run(Worlds(ticks[..n + 1]), r).online, id);
      TurnAt(Run(ticks[..n]), ticks[n], id);
    }
  }

  lemma FedPrefix(ticks: seq<Tick>, r: B.Radii)
    requires ticks != [] && Fed(ticks, r)
    ensures Fed(ticks[..|ticks| - 1], r)
  {
    var before := ticks[..|ticks| - 1];
    forall k | 0 <= k < |before|
      ensures before[k].input.bubble.Some? && IsDelta(before[k].input.bubble.value,
                B.Run(Worlds(before[..k]), r).online, B.Run(Worlds(before[..k + 1]), r).online)
    {
      assert before[..k] == ticks[..k] && before[..k + 1] == ticks[..k + 1];
    }
  }

  lemma NamedOnce(d: Delta, before: set<nat>, after: set<nat>, id: nat)
    requires IsDelta(d, before, after)
    ensures !(id in d.activations && id in d.deactivations)
  {
    assert id in d.activations <==> id in Elems(d.activations);
    assert id in d.deactivations <==> id in Elems(d.deactivations);
  }

  /**
   * Whoever is or is not registered, and whenever: after a run the intents follow the region exactly when,
   * for every entity, the last word the bubble had on it while it was registered is where it is now.
   */
  lemma {:induction false} FollowsIff(ticks: seq<Tick>, r: B.Radii)
    requires Fed(ticks, r)
    ensures Agrees(Run(ticks).intent, B.Run(Worlds(ticks), r).online)
      <==> forall id: nat :: LastTakenIn(ticks, id) <==> id in B.Run(Worlds(ticks), r).online
  {
    forall id: nat ensures HeadingOnline(Get(Run(ticks).intent, id)) <==> LastTakenIn(ticks, id) {
      IntentIsLastTaken(ticks, r, id);
    }
  }

  // ---------------------------------------------------------------------- the self-check

  /** One command per entity, out of the lists gone through so far, each with its pending intent. */
  ghost predicate StagedWell(s: Staging, acts: set<nat>, deacts: set<nat>) {
    && (forall i, j :: 0 <= i < j < |s.batch| ==> s.batch[i].id != s.batch[j].id)
    && (forall i :: 0 <= i < |s.batch| ==>
          if s.batch[i].kind == Activate
          then s.batch[i].id in acts && Get(s.intent, s.batch[i].id) == PendingOnline
          else s.batch[i].id in deacts && Get(s.intent, s.batch[i].id) == PendingOffline)
  }

  lemma {:induction false} ActivationsWell(intent: Intent, ids: seq<nat>, n: nat, registered: Option<set<nat>>)
    requires n <= |ids| && Ascending(ids)
    ensures StagedWell(StageActivations(Staging(intent, []), ids, n, registered), Elems(ids[..n]), {})
  {
    if n > 0 {
      ActivationsWell(intent, ids, n - 1, registered);
      assert ids[..n] == ids[..n - 1] + [ids[n - 1]];
      assert ids[n - 1] !in ids[..n - 1];
    }
  }

  lemma {:induction false} DeactivationsWell(
    s: Staging, acts: set<nat>, ids: seq<nat>, n: nat, registered: Option<set<nat>>)
    requires n <= |ids| && Ascending(ids) && StagedWell(s, acts, {}) && Elems(ids) !! acts
    ensures StagedWell(StageDeactivations(s, ids, n, registered), acts, Elems(ids[..n]))
  {
    if n > 0 {
      DeactivationsWell(s, acts, ids, n - 1, registered);
      assert ids[..n] == ids[..n - 1] + [ids[n - 1]];
      assert ids[n - 1] !in ids[..n - 1] && ids[n - 1] in Elems(ids);
    }
  }

  ghost predicate IdsAscend(batch: seq<Command>) {
    forall i, j :: 0 <= i < j < |batch| ==> batch[i].id < batch[j].id
  }

  lemma {:induction false} InsertAscends(sorted: seq<Command>, c: Command)
    requires IdsAscend(sorted) && forall i :: 0 <= i < |sorted| ==> sorted[i].id != c.id
    ensures IdsAscend(InsertCommand(sorted, c))
    ensures forall x :: x in InsertCommand(sorted, c) <==> x in sorted || x == c
  {
    if sorted != [] && Before(c, sorted[|sorted| - 1]) {
      var n := |sorted| - 1;
      InsertAscends(sorted[..n], c);
      var r := InsertCommand(sorted[..n], c);
      assert sorted == sorted[..n] + [sorted[n]];
      forall i | 0 <= i < |r| ensures r[i].id < sorted[n].id {
        assert r[i] in r;
      }
    }
  }

  /** Sorting a batch of distinct entities: the same commands, ids ascending. */
  lemma {:induction false} SortAscends(batch: seq<Command>)
    requires forall i, j :: 0 <= i < j < |batch| ==> batch[i].id != batch[j].id
    ensures IdsAscend(Sort(batch)) && forall x :: x in Sort(batch) <==> x in batch
  {
    if batch != [] {
      var n := |batch| - 1;
      SortAscends(batch[..n]);
      var s := Sort(batch[..n]);
      assert batch == batch[..n] + [batch[n]];
      forall i | 0 <= i < |s| ensures s[i].id != batch[n].id {
        assert s[i] in s;
      }
      InsertAscends(s, batch[n]);
    }
  }

  lemma {:induction false} BroughtWell(rs: seq<Record>, kind: Kind)
    requires forall i, j :: 0 <= i < j < |rs| ==> rs[i].id < rs[j].id
    ensures Ascending(Brought(rs, kind))
    ensures forall x :: x in Brought(rs, kind) ==> rs != [] && x <= rs[|rs| - 1].id && Backed(rs, x, kind)
  {
    if rs != [] {
      var n := |rs| - 1;
      BroughtWell(rs[..n], kind);
      var b := Brought(rs[..n], kind);
      forall x | x in b ensures x < rs[n].id && Backed(rs, x, kind) {
        var i :| 0 <= i < n && rs[..n][i] == Record(x, kind, Applied);
        assert rs[i] == Record(x, kind, Applied);
      }
      forall i | 0 <= i < |b| ensures b[i] < rs[n].id {
        assert b[i] in b;
      }
      if rs[n].kind == kind && rs[n].outcome == Applied {
        assert rs[n] == Record(rs[n].id, kind, Applied);
      }
    }
  }

  /** The staged batch of a tick: ordered, and matched by the intents. */
  lemma StageHealthy(m: Manager, i: Input, acts: set<nat>, deacts: set<nat>)
    requires i.bubble.Some? && acts !! deacts
    requires Ascending(i.bubble.value.activations) && Elems(i.bubble.value.activations) == acts
    requires Ascending(i.bubble.value.deactivations) && Elems(i.bubble.value.deactivations) == deacts
    ensures BatchOrdered(Update(m, i)) && StagedMatchesIntent(Update(m, i))
  {
    var d := i.bubble.value;
    var intent := Reconciled(m.intent, i.gateway);
    assert d.activations[..|d.activations|] == d.activations && d.deactivations[..|d.deactivations|] == d.deactivations;
    ActivationsWell(intent, d.activations, |d.activations|, i.registered);
    var s := StageActivations(Staging(intent, []), d.activations, |d.activations|, i.registered);
    DeactivationsWell(s, acts, d.deactivations, |d.deactivations|, i.registered);
    var staged := Stage(intent, d, i.registered);
    SortAscends(staged.batch);
    var m' := Update(m, i);
    forall k | 0 <= k < |m'.batch|
      ensures Get(m'.intent, m'.batch[k].id) == if m'.batch[k].kind == Activate then PendingOnline else PendingOffline
    {
      assert m'.batch[k] in staged.batch;
    }
  }

  /** The records of a batch with ascending ids give a consistent result. */
  lemma ApplyHealthy(m: Manager, gateway: Option<Gateway>)
    requires BatchOrdered(m)
    ensures var m' := ApplyBatch(m, gateway);
      && ResultConsistent(m')
      && (RecordsMatchBatch(m') <==>
            (gateway.Some? ==> gateway.value.outcomes == [] || |gateway.value.outcomes| >= |m.batch|))
  {
    if gateway.Some? {
      var rs := RecordsOf(m.batch, gateway.value.outcomes);
      BroughtWell(rs, Activate);
      BroughtWell(rs, Deactivate);
      var on, off := Brought(rs, Activate), Brought(rs, Deactivate);
      forall k | 0 <= k < |on| ensures Backed(rs, on[k], Activate) {
        assert on[k] in on;
      }
      forall k | 0 <= k < |off| ensures Backed(rs, off[k], Deactivate) {
        assert off[k] in off;
      }
    }
  }

  /**
   * With a bubble, the self-check after a tick is healthy exactly when the gateway gave no outcome at
   * all or at least one per staged command.
   */
  lemma HealthyIff(m: Manager, i: Input, before: set<nat>, after: set<nat>)
    requires i.bubble.Some? && IsDelta(i.bubble.value, before, after)
    ensures Healthy(Update(m, i)) <==>
      (i.gateway.Some? ==> i.gateway.value.outcomes == [] || |i.gateway.value.outcomes| >= |Update(m, i).batch|)
  {
    var d := i.bubble.value;
    var s := Stage(Reconciled(m.intent, i.gateway), d, i.registered);
    var staged := m.(intent := s.intent, batch := Sort(s.batch), lastTick := i.tick);
    StageHealthy(m, i, after - before, before - after);
    ApplyHealthy(staged, i.gateway);
  }

  /** The result a tick would leave behind: its lists are ascending and backed by the records. */
  ghost predicate ResultBacked(m: Manager) {
    && Ascending(m.result.broughtOnline) && Ascending(m.result.broughtOffline)
    && (forall i :: 0 <= i < |m.result.broughtOnline| ==> Backed(m.records, m.result.broughtOnline[i], Activate))
    && (forall i :: 0 <= i < |m.result.broughtOffline| ==> Backed(m.records, m.result.broughtOffline[i], Deactivate))
  }

  /** A tick without a bubble stages nothing and leaves the old result: healthy only at the tick it is of. */
  lemma NoBubbleHealthyIff(m: Manager, i: Input)
    requires i.bubble.None? && ResultBacked(m)
    ensures Healthy(Update(m, i)) <==> m.records == [] && m.result.tick == i.tick
  {
  }

  /**
   * A manager without a bubble never gets one. After any number of its ticks the self-check is healthy
   * exactly when the last of them was tick 0.
   */
  lemma {:induction false} NoBubbleRunHealthyIff(ticks: seq<Tick>)
    requires forall k :: 0 <= k < |ticks| ==> ticks[k].input.bubble.None?
    ensures Run(ticks).records == [] && Run(ticks).result == EMPTY.result
    ensures Healthy(Run(ticks)) <==> ticks == [] || ticks[|ticks| - 1].input.tick == 0
  {
    if ticks != [] {
      var n := |ticks| - 1;
      NoBubbleRunHealthyIff(ticks[..n]);
      NoBubbleHealthyIff(Run(ticks[..n]), ticks[n].input);
    }
  }

  // ---------------------------------------------------------------------- where it fails

  /** From the start, one entity comes near that the registry does not know: it is never told. */
  lemma UnregisteredIsMissed(tick: nat)
    ensures var i := Input(tick, Some(Delta([5], [])), Some({}), None);
      && IsDelta(i.bubble.value, {}, {5}) && Agrees(EMPTY.intent, {})
      && !Agrees(Update(EMPTY, i).intent, {5})
  {
    var i := Input(tick, Some(Delta([5], [])), Some({}), None);
    assert Elems([5]) == {5};
    assert 5 in i.bubble.value.activations;
    AgreementIff(EMPTY, i, {}, {5});
  }

  lemma {:induction false} SortKeepsTwo(batch: seq<Command>, a: Command, b: Command)
    requires forall i, j :: 0 <= i < j < |batch| ==> batch[i].id != batch[j].id
    requires a in batch && b in batch && a != b
    ensures |Sort(batch)| >= 2
  {
    hide Sort;
    SortAscends(batch);
    assert a in Sort(batch) && b in Sort(batch);
  }

  /** Two activations of entities that are offline are two commands. */
  lemma TwoStaged(intent: Intent, d: Delta, a: nat, b: nat)
    requires intent == map[] && a != b && d == Delta([a, b], [])
    ensures |Sort(Stage(intent, d, None).batch)| >= 2
  {
    hide Sort;
    var s := Staging(intent, []);
    var s1 := StageActivation(s, a, None);
    var s2 := StageActivation(s1, b, None);
    assert StageActivations(s, d.activations, 1, None) == s1;
    assert StageActivations(s, d.activations, 2, None) == s2;
    assert Stage(intent, d, None) == s2;
    SortKeepsTwo(s2.batch, Command(a, Activate), Command(b, Activate));
  }

  /** From the start, two switches staged and one outcome: one record for two commands. */
  lemma ShortOutcomesAreUnhealthy(i: Input)
    requires i.bubble == Some(Delta([5, 6], [])) && i.registered == None && i.gateway == Some(Gateway(map[], [Applied]))
    ensures IsDelta(i.bubble.value, {}, {5, 6}) && !Healthy(Update(EMPTY, i))
  {
    assert Elems([5, 6]) == {5, 6};
    HealthyIff(EMPTY, i, {}, {5, 6});
    assert Reconciled(map[], i.gateway) == map[];
    TwoStaged(map[], i.bubble.value, 5, 6);
  }
}
