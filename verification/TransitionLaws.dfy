/** Which commands a tick stages, which intents it settles, and what it reports as done. */
module TransitionLaws {
  import opened Prelude
  import opened Sorted
  import opened TransitionModel
  import opened TransitionTheorems

  // ------------------------------------------------------------------------- the batch

  lemma {:induction false} ActivationsStaged(
    s: Staging, ids: seq<nat>, n: nat, registered: Option<set<nat>>, c: Command)
    requires n <= |ids| && Ascending(ids)
    ensures c in StageActivations(s, ids, n, registered).batch <==>
      c in s.batch || (c.kind == Activate && c.id in ids[..n] && Registered(registered, c.id)
                       && !HeadingOnline(Get(s.intent, c.id)))
  {
    if n > 0 {
      ActivationsStaged(s, ids, n - 1, registered, c);
      ActivationsAt(s, ids, n - 1, registered, ids[n - 1]);
      assert ids[..n] == ids[..n - 1] + [ids[n - 1]];
      assert ids[n - 1] !in ids[..n - 1];
    }
  }

  lemma {:induction false} DeactivationsStaged(
    s: Staging, ids: seq<nat>, n: nat, registered: Option<set<nat>>, c: Command)
    requires n <= |ids| && Ascending(ids)
    ensures c in StageDeactivations(s, ids, n, registered).batch <==>
      c in s.batch || (c.kind == Deactivate && c.id in ids[..n] && Registered(registered, c.id)
                       && HeadingOnline(Get(s.intent, c.id)))
  {
    if n > 0 {
      DeactivationsStaged(s, ids, n - 1, registered, c);
      DeactivationsAt(s, ids, n - 1, registered, ids[n - 1]);
      assert ids[..n] == ids[..n - 1] + [ids[n - 1]];
      assert ids[n - 1] !in ids[..n - 1];
    }
  }

  /** The delta's list of this kind. */
  function Named(d: Delta, kind: Kind): seq<nat> {
    if kind == Activate then d.activations else d.deactivations
  }

  /** Two ascending lists that name no entity twice. */
  ghost predicate Disjoint(d: Delta) {
    && Ascending(d.activations) && Ascending(d.deactivations)
    && (forall id :: id in d.activations ==> id !in d.deactivations)
  }

  lemma DisjointIsDelta(d: Delta)
    requires Disjoint(d)
    ensures IsDelta(d, Elems(d.deactivations), Elems(d.activations))
  {
  }

  lemma StagedIff(intent: Intent, d: Delta, registered: Option<set<nat>>, c: Command)
    requires Disjoint(d)
    ensures c in Stage(intent, d, registered).batch <==>
      Registered(registered, c.id) && c.id in Named(d, c.kind)
      && (HeadingOnline(Get(intent, c.id)) <==> c.kind == Deactivate)
  {
    var acts, deacts := d.activations, d.deactivations;
    var s := Staging(intent, []);
    assert acts[..|acts|] == acts && deacts[..|deacts|] == deacts;
    ActivationsStaged(s, acts, |acts|, registered, c);
    ActivationsAt(s, acts, |acts|, registered, c.id);
    DeactivationsStaged(StageActivations(s, acts, |acts|, registered), deacts, |deacts|, registered, c);
  }

  lemma UpdateStages(m: Manager, i: Input)
    requires i.bubble.Some?
    ensures var s := Stage(Reconciled(m.intent, i.gateway), i.bubble.value, i.registered);
      Update(m, i).batch == Sort(s.batch) && Update(m, i).intent == s.intent
  {
  }

  /**
   * Whatever the intents are, the tick commands, each once and in ascending id order, exactly the registered
   * entities that are asked to turn around: an activation if one is to come in that is not heading online, a
   * deactivation if one is to leave that is.
   */
  lemma CommandsIff(m: Manager, i: Input)
    requires i.bubble.Some? && Disjoint(i.bubble.value)
    ensures IdsAscend(Update(m, i).batch)
    ensures forall id: nat, kind: Kind :: Command(id, kind) in Update(m, i).batch <==>
      (i.registered.None? || id in i.registered.value) && id in Named(i.bubble.value, kind)
      && (HeadingOnline(Get(m.intent, id)) <==> kind == Deactivate)
  {
    hide Sort, Stage, Update, Reconciled;
    var intent := Reconciled(m.intent, i.gateway);
    UpdateStages(m, i);
    DisjointIsDelta(i.bubble.value);
    BatchSorted(m, i, Elems(i.bubble.value.deactivations), Elems(i.bubble.value.activations));
    forall id: nat, kind: Kind
      ensures Command(id, kind) in Update(m, i).batch <==>
        Registered(i.registered, id) && id in Named(i.bubble.value, kind)
        && (HeadingOnline(Get(m.intent, id)) <==> kind == Deactivate)
    {
      ReconcileKeepsHeading(m.intent, i.gateway, id);
      StagedIff(intent, i.bubble.value, i.registered, Command(id, kind));
    }
  }

  /** While the intents agree with the bubble, the commands are the registered part of its delta. */
  lemma CommandsAreDelta(m: Manager, i: Input, before: set<nat>, after: set<nat>)
    requires i.bubble.Some? && IsDelta(i.bubble.value, before, after) && Agrees(m.intent, before)
    ensures IdsAscend(Update(m, i).batch)
    ensures forall id: nat, kind: Kind :: Command(id, kind) in Update(m, i).batch <==>
      Registered(i.registered, id) && id in Named(i.bubble.value, kind)
  {
    hide Update;
    assert forall id :: id in i.bubble.value.activations <==> id in Elems(i.bubble.value.activations);
    assert forall id :: id in i.bubble.value.deactivations <==> id in Elems(i.bubble.value.deactivations);
    CommandsIff(m, i);
  }

  /** The staged commands are of different entities; the batch is them, sorted. */
  lemma BatchSorted(m: Manager, i: Input, before: set<nat>, after: set<nat>)
    requires i.bubble.Some? && IsDelta(i.bubble.value, before, after)
    ensures var s := Stage(Reconciled(m.intent, i.gateway), i.bubble.value, i.registered);
      IdsAscend(Update(m, i).batch) && forall c: Command :: c in Update(m, i).batch <==> c in s.batch
  {
    var d := i.bubble.value;
    var intent := Reconciled(m.intent, i.gateway);
    assert d.activations[..|d.activations|] == d.activations && d.deactivations[..|d.deactivations|] == d.deactivations;
    ActivationsWell(intent, d.activations, |d.activations|, i.registered);
    var s := StageActivations(Staging(intent, []), d.activations, |d.activations|, i.registered);
    DeactivationsWell(s, after - before, d.deactivations, |d.deactivations|, i.registered);
    SortAscends(Stage(intent, d, i.registered).batch);
    UpdateStages(m, i);
  }

  // ------------------------------------------------------------------------ the result

  lemma {:induction false} BroughtIff(rs: seq<Record>, kind: Kind, id: nat)
    ensures id in Brought(rs, kind) <==> Backed(rs, id, kind)
  {
    if rs != [] {
      var n := |rs| - 1;
      BroughtIff(rs[..n], kind, id);
      if Backed(rs[..n], id, kind) {
        var k :| 0 <= k < n && rs[..n][k] == Record(id, kind, Applied);
        assert rs[k] == Record(id, kind, Applied);
      }
      if Backed(rs, id, kind) && rs[n] != Record(id, kind, Applied) {
        var k :| 0 <= k < |rs| && rs[k] == Record(id, kind, Applied);
        assert rs[..n][k] == Record(id, kind, Applied);
      }
    }
  }

  /** The k-th outcome of the gateway is about the k-th command, and it was carried out. */
  ghost predicate Performed(batch: seq<Command>, outcomes: seq<Outcome>, id: nat, kind: Kind) {
    exists k :: 0 <= k < |batch| && k < |outcomes| && batch[k] == Command(id, kind) && outcomes[k] == Applied
  }

  lemma RecordsBack(batch: seq<Command>, outcomes: seq<Outcome>, id: nat, kind: Kind)
    ensures Backed(RecordsOf(batch, outcomes), id, kind) <==> Performed(batch, outcomes, id, kind)
  {
    var rs := RecordsOf(batch, outcomes);
    if Backed(rs, id, kind) {
      var k :| 0 <= k < |rs| && rs[k] == Record(id, kind, Applied);
      assert batch[k] == Command(id, kind) && outcomes[k] == Applied;
    }
    if Performed(batch, outcomes, id, kind) {
      var k :| 0 <= k < |batch| && k < |outcomes| && batch[k] == Command(id, kind) && outcomes[k] == Applied;
      assert rs[k] == Record(id, kind, Applied);
    }
  }

  /** A tick with a bubble reports exactly the commands that the gateway carried out, under its own tick. */
  lemma ResultIsPerformed(m: Manager, i: Input)
    requires i.bubble.Some?
    ensures var m' := Update(m, i);
      && m'.lastTick == m'.result.tick == i.tick
      && (i.gateway.None? ==> m'.records == [] && m'.result.broughtOnline == m'.result.broughtOffline == [])
      && (i.gateway.Some? ==>
            && (forall id: nat :: id in m'.result.broughtOnline <==>
                  Performed(m'.batch, i.gateway.value.outcomes, id, Activate))
            && (forall id: nat :: id in m'.result.broughtOffline <==>
                  Performed(m'.batch, i.gateway.value.outcomes, id, Deactivate)))
  {
    if i.gateway.Some? {
      var m', outcomes := Update(m, i), i.gateway.value.outcomes;
      var rs := RecordsOf(m'.batch, outcomes);
      assert m'.result == Result(Brought(rs, Activate), Brought(rs, Deactivate), i.tick);
      forall id: nat
        ensures id in m'.result.broughtOnline <==> Performed(m'.batch, outcomes, id, Activate)
        ensures id in m'.result.broughtOffline <==> Performed(m'.batch, outcomes, id, Deactivate)
      {
        BroughtIff(rs, Activate, id);
        BroughtIff(rs, Deactivate, id);
        RecordsBack(m'.batch, outcomes, id, Activate);
        RecordsBack(m'.batch, outcomes, id, Deactivate);
      }
    }
  }

  /** When every command is carried out, what is reported is exactly what came in and what left. */
  lemma AllAppliedReportsDelta(m: Manager, i: Input, before: set<nat>, after: set<nat>)
    requires i.bubble.Some? && IsDelta(i.bubble.value, before, after) && Agrees(m.intent, before)
    requires i.gateway.Some? && |i.gateway.value.outcomes| == |Update(m, i).batch|
    requires forall k :: 0 <= k < |i.gateway.value.outcomes| ==> i.gateway.value.outcomes[k] == Applied
    ensures var r := Update(m, i).result;
      && (forall id: nat :: id in r.broughtOnline <==>
            Registered(i.registered, id) && id in i.bubble.value.activations)
      && (forall id: nat :: id in r.broughtOffline <==>
            Registered(i.registered, id) && id in i.bubble.value.deactivations)
  {
    hide Update, IsDelta, Agrees;
    var m', outcomes := Update(m, i), i.gateway.value.outcomes;
    CommandsAreDelta(m, i, before, after);
    ResultIsPerformed(m, i);
    forall id: nat, kind: Kind
      ensures Performed(m'.batch, outcomes, id, kind) <==>
        Registered(i.registered, id) && id in Named(i.bubble.value, kind)
    {
      if Command(id, kind) in m'.batch {
        var k :| 0 <= k < |m'.batch| && m'.batch[k] == Command(id, kind);
        assert outcomes[k] == Applied;
      }
    }
    assert forall id :: id in Named(i.bubble.value, Activate) <==> id in i.bubble.value.activations;
  }

  // ------------------------------------------------------------------------- the intents

  /** The state that an intent is on its way to. */
  function Arrived(s: State): State { if HeadingOnline(s) then Online else Offline }

  /** What the engine says bears the intent out. */
  predicate BorneOut(s: State, id: nat, gateway: Option<Gateway>) {
    gateway.Some? && id in gateway.value.truth && gateway.value.truth[id] == HeadingOnline(s)
  }

  /**
   * An intent the bubble does not name arrives where it was heading exactly if the engine bears it out, and
   * is otherwise as before; a named and registered one is turned, and waits.
   */
  lemma IntentAfterTick(m: Manager, i: Input, before: set<nat>, after: set<nat>, id: nat)
    requires i.bubble.Some? && IsDelta(i.bubble.value, before, after) && Agrees(m.intent, before)
    ensures var s, s' := Get(m.intent, id), Get(Update(m, i).intent, id);
      var named := Registered(i.registered, id)
        && (id in i.bubble.value.activations || id in i.bubble.value.deactivations);
      && (named ==> s' == if id in after then PendingOnline else PendingOffline)
      && (!named ==> s' == if BorneOut(s, id, i.gateway) then Arrived(s) else s)
  {
    var d := i.bubble.value;
    var intent := Reconciled(m.intent, i.gateway);
    var acts, deacts := d.activations, d.deactivations;
    var s := Staging(intent, []);
    assert acts[..|acts|] == acts && deacts[..|deacts|] == deacts;
    assert id in acts <==> id in Elems(acts);
    assert id in deacts <==> id in Elems(deacts);
    ReconcileKeepsHeading(m.intent, i.gateway, id);
    SettlesIff(m.intent, i.gateway, id);
    ActivationsAt(s, acts, |acts|, i.registered, id);
    DeactivationsAt(StageActivations(s, acts, |acts|, i.registered), deacts, |deacts|, i.registered, id);
  }

  /** Whatever the intents were: a commanded entity is on its way, any other has settled or waits. */
  lemma IntentIsCommanded(m: Manager, i: Input, id: nat)
    requires i.bubble.Some? && Disjoint(i.bubble.value)
    ensures var s, m' := Get(m.intent, id), Update(m, i);
      Get(m'.intent, id) == if Command(id, Activate) in m'.batch then PendingOnline
                            else if Command(id, Deactivate) in m'.batch then PendingOffline
                            else if BorneOut(s, id, i.gateway) then Arrived(s) else s
  {
    var d := i.bubble.value;
    var acts, deacts := d.activations, d.deactivations;
    var s := Staging(Reconciled(m.intent, i.gateway), []);
    assert acts[..|acts|] == acts && deacts[..|deacts|] == deacts;
    CommandsIff(m, i);
    UpdateStages(m, i);
    ReconcileKeepsHeading(m.intent, i.gateway, id);
    SettlesIff(m.intent, i.gateway, id);
    ActivationsAt(s, acts, |acts|, i.registered, id);
    DeactivationsAt(StageActivations(s, acts, |acts|, i.registered), deacts, |deacts|, i.registered, id);
    hide Update, Sort, Reconciled, BorneOut;
  }

  lemma SettlesIff(intent: Intent, gateway: Option<Gateway>, id: nat)
    ensures Get(Reconciled(intent, gateway), id)
         == if BorneOut(Get(intent, id), id, gateway) then Arrived(Get(intent, id)) else Get(intent, id)
  {
  }

  /** Without a bubble the tick settles what the engine bears out, commands nothing, and keeps its last report. */
  lemma TickWithoutBubble(m: Manager, i: Input, id: nat)
    requires i.bubble.None?
    ensures var m' := Update(m, i);
      && Get(m'.intent, id)
           == (if BorneOut(Get(m.intent, id), id, i.gateway) then Arrived(Get(m.intent, id)) else Get(m.intent, id))
      && m'.batch == [] && m'.records == m.records && m'.result == m.result && m'.lastTick == i.tick
  {
    SettlesIff(m.intent, i.gateway, id);
  }
}
