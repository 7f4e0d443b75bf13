/** How long fragments wait, whatever they carry. */
module FragmentLaws {
  import opened Prelude
  import opened FragmentModel

  ghost function Waiting(events: seq<Event>, budget: nat): Pending {
    Run(map[], events, budget).pending
  }

  /** The arrival that opened the entry under a key. */
  ghost predicate Opens(events: seq<Event>, j: nat, budget: nat, key: nat) {
    && j < |events| && events[j].Arrival? && Key(events[j].connection, events[j].fragment.messageId) == key
    && key !in Waiting(events[..j], budget) && key in Waiting(events[..j + 1], budget)
  }

  /** No prune since came more than the budget after that arrival. */
  ghost predicate Young(events: seq<Event>, j: nat, budget: nat)
    requires j < |events| && events[j].Arrival?
  {
    forall i :: j < i < |events| && events[i].PruneAt? ==> events[i].tick <= events[j].tick + budget
  }

  /** What one event does to an entry under a key, other than completing or collecting it. */
  lemma EntryStep(pending: Pending, e: Event, budget: nat, key: nat)
    requires PartsMatch(pending)
    ensures var after := Step(pending, e, budget).pending;
      && (key in after && key in pending ==> after[key].firstTick == pending[key].firstTick)
      && (key in after && key !in pending ==>
            e.Arrival? && Key(e.connection, e.fragment.messageId) == key && after[key].firstTick == e.tick)
      && (e.PruneAt? ==> (key in after <==> key in pending && e.tick <= pending[key].firstTick + budget))
      && (e.PruneAt? && key in after ==> after[key] == pending[key])
  {
    hide Concat;
  }

  lemma OpensLonger(events: seq<Event>, j: nat, budget: nat, key: nat)
    requires events != [] && Opens(events[..|events| - 1], j, budget, key)
    ensures Opens(events, j, budget, key)
  {
    var before := events[..|events| - 1];
    assert before[..j] == events[..j] && before[..j + 1] == events[..j + 1];
  }

  /**
   * What waits was opened by an arrival under its key, whose tick it keeps, and no prune since came more than the
   * budget after that.
   */
  lemma {:induction false} WaitingIsYoung(events: seq<Event>, budget: nat, key: nat) returns (j: nat)
    requires key in Waiting(events, budget)
    ensures Opens(events, j, budget, key) && Waiting(events, budget)[key].firstTick == events[j].tick
    ensures Young(events, j, budget)
  {
    var n := |events| - 1;
    var before := Waiting(events[..n], budget);
    EntryStep(before, events[n], budget, key);
    assert Waiting(events, budget) == Step(before, events[n], budget).pending;
    hide Step, Run;
    if key in before {
      j := WaitingIsYoung(events[..n], budget, key);
      OpensLonger(events, j, budget, key);
    } else {
      j := n;
      assert events[..n + 1] == events;
    }
  }

  /** Only its own fragments and a prune more than the budget after it was opened can end a wait. */
  lemma WaitsOn(events: seq<Event>, e: Event, budget: nat, key: nat)
    requires key in Waiting(events, budget)
    requires e.Arrival? ==> Key(e.connection, e.fragment.messageId) != key
    ensures var after := Waiting(events + [e], budget);
      if e.PruneAt? && e.tick > Waiting(events, budget)[key].firstTick + budget then key !in after
      else key in after && after[key] == Waiting(events, budget)[key]
  {
    SnocSplit(events, e);
    EntryStep(Waiting(events, budget), e, budget, key);
  }

  // ----------------------------------------------------------------- what an arrival does

  /** How many parts are there. */
  ghost function There(parts: seq<Option<seq<u8>>>): nat {
    if parts == [] then 0 else There(parts[..|parts| - 1]) + if parts[|parts| - 1].Some? then 1 else 0
  }

  lemma {:induction false} ThereAtMost(parts: seq<Option<seq<u8>>>)
    ensures There(parts) <= |parts|
    ensures There(parts) == |parts| <==> forall i :: 0 <= i < |parts| ==> parts[i].Some?
    ensures (forall i :: 0 <= i < |parts| ==> parts[i].None?) ==> There(parts) == 0
  {
    if parts != [] {
      var n := |parts| - 1;
      ThereAtMost(parts[..n]);
      assert forall i :: 0 <= i < n ==> parts[..n][i] == parts[i];
    }
  }

  lemma {:induction false} OneMore(parts: seq<Option<seq<u8>>>, k: nat, bytes: seq<u8>)
    requires k < |parts| && parts[k].None?
    ensures There(parts[k := Some(bytes)]) == There(parts) + 1
  {
    var n := |parts| - 1;
    if k < n {
      OneMore(parts[..n], k, bytes);
      assert parts[k := Some(bytes)][..n] == parts[..n][k := Some(bytes)];
    } else {
      assert parts[k := Some(bytes)][..n] == parts[..n];
    }
  }

  /** Every entry counts its parts, and some part is missing. */
  ghost predicate Partial(pending: Pending) {
    && PartsMatch(pending)
    && forall k :: k in pending ==> There(pending[k].parts) == pending[k].have < pending[k].count
  }

  /** No piece of anything, or of something else than what waits under its key. */
  ghost predicate Misfit(pending: Pending, key: nat, f: Fragment) {
    f.count == 0 || f.index >= f.count || (key in pending && pending[key].count != f.count)
  }

  /** The parts with this one: the first to arrive under its index is kept. */
  ghost function PartsWith(pending: Pending, key: nat, f: Fragment): seq<Option<seq<u8>>>
    requires PartsMatch(pending) && !Misfit(pending, key, f)
  {
    var parts := if key in pending then pending[key].parts else seq(f.count, _ => None);
    if parts[f.index].Some? then parts else parts[f.index := Some(f.bytes)]
  }

  /** The answer to an arrival, from what waits under its key alone. */
  ghost predicate Answered(pending: Pending, key: nat, f: Fragment, tick: nat, r: Accepted)
    requires PartsMatch(pending)
  {
    if Misfit(pending, key, f) then r == Accepted(pending, Rejected)
    else
      var parts := PartsWith(pending, key, f);
      if forall i :: 0 <= i < |parts| ==> parts[i].Some? then r == Accepted(pending - {key}, Completed(Concat(parts)))
      else
        var first := if key in pending then pending[key].firstTick else tick;
        r == Accepted(pending[key := Reassembly(f.count, first, There(parts), parts)], Incomplete)
  }

  lemma PartsCounted(pending: Pending, key: nat, f: Fragment, tick: nat)
    requires Partial(pending) && !Misfit(pending, key, f)
    ensures var r := Store(EntryFor(pending, key, f, tick), f);
      && r.parts == PartsWith(pending, key, f) && r.have == There(r.parts) && r.count == f.count == |r.parts|
      && r.firstTick == if key in pending then pending[key].firstTick else tick
  {
    var e := EntryFor(pending, key, f, tick);
    ThereAtMost(e.parts);
    if e.parts[f.index].None? {
      OneMore(e.parts, f.index, f.bytes);
    }
  }

  lemma AcceptAnswers(pending: Pending, key: nat, f: Fragment, tick: nat)
    requires Partial(pending)
    ensures Answered(pending, key, f, tick, Accept(pending, key, f, tick))
    ensures Partial(Accept(pending, key, f, tick).pending)
  {
    if !Misfit(pending, key, f) {
      PartsCounted(pending, key, f, tick);
      ThereAtMost(PartsWith(pending, key, f));
      hide There, PartsWith, Store, EntryFor, Concat;
    }
  }

  lemma {:induction false} WaitingIsPartial(events: seq<Event>, budget: nat)
    ensures Partial(Waiting(events, budget))
  {
    if events != [] {
      var n := |events| - 1;
      WaitingIsPartial(events[..n], budget);
      var e := events[n];
      hide There;
      if e.Arrival? {
        AcceptAnswers(Waiting(events[..n], budget), Key(e.connection, e.fragment.messageId), e.fragment, e.tick);
      }
      hide Accept;
    }
  }

  /**
   * After any run: a misfit is rejected and changes nothing, nor does a second part under an index. The message is
   * complete exactly when no part is missing; it is then given out in index order and waits no more.
   */
  lemma {:induction false} ArrivalIsAnswered(events: seq<Event>, budget: nat, c: nat, f: Fragment, tick: nat)
    ensures Partial(Waiting(events, budget))
    ensures Answered(Waiting(events, budget), Key(c, f.messageId), f, tick,
                     Run(map[], events + [Arrival(c, f, tick)], budget))
  {
    WaitingIsPartial(events, budget);
    AcceptAnswers(Waiting(events, budget), Key(c, f.messageId), f, tick);
    SnocSplit(events, Arrival(c, f, tick));
    hide Answered, Partial, Accept;
  }
}
