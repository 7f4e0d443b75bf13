/** BubbleManager.cpp and WorldQueryService::QueryRadius: the evaluation loop over sorted id vectors. */
module BubbleManagers {
  import opened Sorted
  import opened BubbleModel
  import opened BubbleTheorems

  datatype Membership = Outside | Inside | PendingActivation | PendingDeactivation

  /** Every entity within the radius of a point. */
  method QueryRadius(entities: seq<EntityView>, center: Point, r2: real) returns (found: seq<EntityView>)
    ensures forall e :: e in found <==> e in entities && DistanceSquared(e.position, center) <= r2
  {
    found := [];
    for i := 0 to |entities|
      invariant forall e :: e in found <==> e in entities[..i] && DistanceSquared(e.position, center) <= r2
    {
      assert entities[..i + 1] == entities[..i] + [entities[i]];
      if DistanceSquared(entities[i].position, center) <= r2 {
        found := found + [entities[i]];
      }
    }
    assert entities[..|entities|] == entities;
  }

  /** The keys of a hash set in ascending order, whatever order they come out in. */
  method SortedIds(ids: set<nat>) returns (sorted: seq<nat>)
    ensures Ascending(sorted) && Elems(sorted) == ids
  {
    sorted := [];
    var todo := ids;
    while todo != {}
      invariant Ascending(sorted) && Elems(sorted) + todo == ids && Elems(sorted) !! todo
      decreases |todo|
    {
      var id :| id in todo;
      assert id !in sorted by {
        assert id !in Elems(sorted);
      }
      var at := LowerBound(sorted, id);
      LowerBoundDecides(sorted, at, id);
      InsertKeepsAscending(sorted, at, id);
      sorted := sorted[..at] + [id] + sorted[at..];
      todo := todo - {id};
    }
  }

  method BinarySearch(keys: seq<nat>, v: nat) returns (found: bool)
    requires Ascending(keys)
    ensures found <==> v in keys
  {
    var at := LowerBound(keys, v);
    LowerBoundDecides(keys, at, v);
    found := at < |keys| && keys[at] == v;
  }

  /** std::set_difference of two ascending vectors. */
  method SetDifference(a: seq<nat>, b: seq<nat>) returns (d: seq<nat>)
    requires Ascending(a) && Ascending(b)
    ensures Ascending(d) && Elems(d) == Elems(a) - Elems(b)
  {
    d := [];
    var i, j := 0, 0;
    while i < |a|
      invariant i <= |a| && j <= |b|
      invariant Ascending(d) && forall x :: x in d <==> x in a[..i] && x !in b
      invariant i < |a| && j > 0 ==> b[j - 1] < a[i]
      decreases |a| - i + |b| - j
    {
      if j < |b| && b[j] < a[i] {
        j := j + 1;
      } else {
        assert a[..i + 1] == a[..i] + [a[i]];
        if j < |b| && a[i] == b[j] {
          i, j := i + 1, j + 1;
        } else {
          NotBetween(b, j, a[i]);
          forall k | 0 <= k < |d| ensures d[k] < a[i] {
            assert d[k] in d;
          }
          d := d + [a[i]];
          i := i + 1;
        }
      }
    }
    assert a[..|a|] == a;
  }

  lemma NearPrefix(players: seq<Point>, i: nat, p: Point, r2: real)
    requires i < |players|
    ensures Near(players[..i + 1], p, r2) <==> Near(players[..i], p, r2) || DistanceSquared(p, players[i]) <= r2
  {
    if Near(players[..i + 1], p, r2) {
      var k :| 0 <= k < i + 1 && DistanceSquared(p, players[..i + 1][k]) <= r2;
      assert k < i ==> players[..i][k] == players[k];
    }
    if Near(players[..i], p, r2) {
      var k :| 0 <= k < i && DistanceSquared(p, players[..i][k]) <= r2;
      assert players[..i + 1][k] == players[k];
    }
    if DistanceSquared(p, players[i]) <= r2 {
      assert players[..i + 1][i] == players[i];
    }
  }

  /** The nearest player decides: some player is within the radius iff the nearest one is. */
  method NearestWithin(players: seq<Point>, p: Point, r2: real) returns (within: bool)
    ensures within <==> Near(players, p, r2)
  {
    var best: real := 0.0;
    var hasDistance := false;
    for i := 0 to |players|
      invariant hasDistance <==> i > 0
      invariant (hasDistance && best <= r2) <==> Near(players[..i], p, r2)
    {
      NearPrefix(players, i, p, r2);
      var squared := DistanceSquared(p, players[i]);
      if !hasDistance || squared < best {
        best := squared;
        hasDistance := true;
      }
    }
    assert players[..|players|] == players;
    within := hasDistance && best <= r2;
  }

  class BubbleManager {
    const radii: Radii
    var online: seq<nat>
    var previous: seq<nat>
    var activations: seq<nat>
    var deactivations: seq<nat>
    var activePlayerCount: nat
    var onlineEntityCount: nat
    var updateTick: nat

    ghost function Abs(): Bubble
      reads this
    {
      Bubble(Elems(online), Elems(previous))
    }

    /** The two delta lists are the differences between this evaluation and the last. */
    ghost predicate Valid()
      reads this
    {
      && Ascending(online) && Ascending(previous) && Ascending(activations) && Ascending(deactivations)
      && Elems(activations) == Activations(Abs()) && Elems(deactivations) == Deactivations(Abs())
    }

    constructor (radii: Radii)
      ensures Valid() && Abs() == Bubble({}, {}) && this.radii == radii && updateTick == 0
    {
      this.radii := radii;
      online, previous, activations, deactivations := [], [], [], [];
      activePlayerCount, onlineEntityCount, updateTick := 0, 0, 0;
    }

    /** Everything within the outer radius of some player, once each. */
    method Candidates(players: seq<Point>, entities: seq<EntityView>) returns (candidates: map<nat, Point>)
      requires UniqueIds(World(players, entities))
      ensures forall id :: id in candidates <==> Within(World(players, entities), id, radii.off2)
      ensures forall i :: 0 <= i < |entities| && entities[i].id in candidates ==>
        candidates[entities[i].id] == entities[i].position
    {
      candidates := map[];
      for i := 0 to |players|
        invariant forall id :: id in candidates <==> Within(World(players[..i], entities), id, radii.off2)
        invariant forall k :: 0 <= k < |entities| && entities[k].id in candidates ==>
          candidates[entities[k].id] == entities[k].position
      {
        var found := QueryRadius(entities, players[i], radii.off2);
        var more := Emplace(candidates, found, players[..i], players[i], entities);
        forall id ensures id in more <==> Within(World(players[..i + 1], entities), id, radii.off2) {
          WithinNext(players, i, entities, id, radii.off2);
        }
        candidates := more;
      }
      assert players[..|players|] == players;
    }

    /** Candidates of one more player; an id already there keeps its entry. */
    method Emplace(candidates: map<nat, Point>, found: seq<EntityView>, ghost before: seq<Point>, ghost player: Point,
                   ghost entities: seq<EntityView>)
      returns (more: map<nat, Point>)
      requires UniqueIds(World(before, entities))
      requires forall e :: e in found <==> e in entities && DistanceSquared(e.position, player) <= radii.off2
      requires forall id :: id in candidates <==> Within(World(before, entities), id, radii.off2)
      requires forall k :: 0 <= k < |entities| && entities[k].id in candidates ==>
        candidates[entities[k].id] == entities[k].position
      ensures forall id :: id in more <==>
        Within(World(before, entities), id, radii.off2) || exists e :: e in found && e.id == id
      ensures forall k :: 0 <= k < |entities| && entities[k].id in more ==> more[entities[k].id] == entities[k].position
    {
      more := candidates;
      for j := 0 to |found|
        invariant forall id :: id in more <==> id in candidates || exists k :: 0 <= k < j && found[k].id == id
        invariant forall k :: 0 <= k < |entities| && entities[k].id in more ==>
          more[entities[k].id] == entities[k].position
      {
        if found[j].id !in more {
          assert found[j] in entities;
          more := more[found[j].id := found[j].position];
        }
      }
    }

    /** One evaluation of the region. */
    method Update(currentTick: nat, players: seq<Point>, entities: seq<EntityView>)
      requires Valid() && UniqueIds(World(players, entities))
      modifies this
      ensures Valid() && Abs() == BubbleModel.Update(old(Abs()), World(players, entities), radii)
      ensures updateTick == currentTick && activePlayerCount == |players| && onlineEntityCount == |online|
    {
      var candidates := Candidates(players, entities);
      var candidateIds := SortedIds(candidates.Keys);
      var newOnline := Select(players, entities, candidates, candidateIds);
      previous := online;
      online := newOnline;
      activations := SetDifference(online, previous);
      deactivations := SetDifference(previous, online);
      activePlayerCount := |players|;
      onlineEntityCount := |online|;
      updateTick := currentTick;
    }

    /** The hysteresis: those online stay, the others need the inner radius. */
    method Select(players: seq<Point>, entities: seq<EntityView>, candidates: map<nat, Point>, candidateIds: seq<nat>)
      returns (newOnline: seq<nat>)
      requires Ascending(online) && UniqueIds(World(players, entities))
      requires Ascending(candidateIds) && Elems(candidateIds) == candidates.Keys
      requires forall id :: id in candidates <==> Within(World(players, entities), id, radii.off2)
      requires forall i :: 0 <= i < |entities| && entities[i].id in candidates ==>
        candidates[entities[i].id] == entities[i].position
      ensures Ascending(newOnline)
      ensures Elems(newOnline) == NextOnline(Elems(online), World(players, entities), radii)
    {
      ghost var w := World(players, entities);
      newOnline := [];
      for i := 0 to |candidateIds|
        invariant Ascending(newOnline)
        invariant forall id :: id in newOnline <==>
          id in candidateIds[..i] && (id in online || Within(w, id, radii.on2))
      {
        var id := candidateIds[i];
        assert candidateIds[..i + 1] == candidateIds[..i] + [id];
        assert id in candidates by {
          assert id in Elems(candidateIds);
        }
        var within := NearestWithin(players, candidates[id], radii.on2);
        WithinAt(w, id, candidates[id], radii.on2, radii.off2);
        var wasOnline := BinarySearch(online, id);
        forall k | 0 <= k < |newOnline| ensures newOnline[k] < id {
          assert newOnline[k] in newOnline;
        }
        if wasOnline {
          newOnline := newOnline + [id];
        } else if within {
          newOnline := newOnline + [id];
        }
      }
      assert candidateIds[..|candidateIds|] == candidateIds;
      forall id ensures id in newOnline <==> id in NextOnline(Elems(online), w, radii) {
        assert id in candidateIds <==> id in Elems(candidateIds);
        NextOnlineIff(Elems(online), w, radii, id);
      }
    }

    /** Pending exactly for what the last evaluation brought in or let go. */
    method MembershipOf(id: nat) returns (m: Membership)
      requires Valid()
      ensures m == Inside <==> id in Abs().online && id in Abs().previous
      ensures m == PendingActivation <==> id in Activations(Abs())
      ensures m == PendingDeactivation <==> id in Deactivations(Abs())
    {
      var inCurrent := BinarySearch(online, id);
      var inPrevious := BinarySearch(previous, id);
      if inCurrent {
        return if inPrevious then Inside else PendingActivation;
      }
      return if inPrevious then PendingDeactivation else Outside;
    }

    /** The report is healthy exactly when the stored vectors are what they should be and the radii nest. */
    method ValidateConsistency() returns (healthy: bool)
      ensures healthy <==>
        && Ascending(online) && Ascending(previous) && radii.on2 <= radii.off2
        && activations == Listing(Activations(Abs())) && deactivations == Listing(Deactivations(Abs()))
      ensures Valid() ==> (healthy <==> radii.on2 <= radii.off2)
    {
      if Valid() {
        ListingUnique(activations);
        ListingUnique(deactivations);
      }
      var onlineSorted, noZero := ScanOrder(online);
      var previousSorted, alsoNoZero := ScanOrder(previous);
      if !onlineSorted || !previousSorted {
        return false;
      }
      var expectedActivated := SetDifference(online, previous);
      var expectedDeactivated := SetDifference(previous, online);
      ListingUnique(expectedActivated);
      ListingUnique(expectedDeactivated);
      healthy := radii.on2 <= radii.off2
                 && expectedActivated == activations && expectedDeactivated == deactivations;
    }
  }

  lemma WithinNext(players: seq<Point>, i: nat, entities: seq<EntityView>, id: nat, r2: real)
    requires i < |players|
    ensures Within(World(players[..i + 1], entities), id, r2)
      <==> Within(World(players[..i], entities), id, r2)
           || exists e :: e in entities && DistanceSquared(e.position, players[i]) <= r2 && e.id == id
  {
    forall k | 0 <= k < |entities|
      ensures Near(players[..i + 1], entities[k].position, r2)
        <==> Near(players[..i], entities[k].position, r2) || DistanceSquared(entities[k].position, players[i]) <= r2
    {
      NearPrefix(players, i, entities[k].position, r2);
    }
  }

  /** The position recorded for a candidate is its own, so its distance decides. */
  lemma WithinAt(w: World, id: nat, p: Point, r2: real, off2: real)
    requires UniqueIds(w) && Within(w, id, off2)
    requires forall i :: 0 <= i < |w.entities| && w.entities[i].id == id ==> w.entities[i].position == p
    ensures Within(w, id, r2) <==> Near(w.players, p, r2)
  {
  }
}
