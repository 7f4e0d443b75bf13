/**
 * DeltaEncoder.cpp: the two-pointer merges, proved against look-ups by id, and what a client that
 * applies a delta ends up with.
 */
module DeltaEncoders {
  import opened Prelude
  import opened Sorted
  import opened ReplicationTypes

  // -------------------------------------------------------------- what a delta is, by id

  type StateMap = map<u32, EntityState>

  /** A list of states as a look-up by id. */
  ghost function Table(s: seq<EntityState>): StateMap {
    if s == [] then map[] else Table(s[..|s| - 1])[s[|s| - 1].id := s[|s| - 1]]
  }

  predicate SameTracked(a: EntityState, b: EntityState) {
    a.position == b.position && a.velocity == b.velocity && a.stateFlags == b.stateFlags
  }

  ghost predicate Differs(base: StateMap, e: EntityState) {
    e.id in base && !SameTracked(base[e.id], e)
  }

  /** Version stamps: 1 on appearance, one more per tracked change, else kept. */
  ghost function Stamped(base: StateMap, e: EntityState): EntityState {
    e.(version := if e.id !in base then 1
                  else if SameTracked(base[e.id], e) then base[e.id].version
                  else Low32(base[e.id].version + 1))
  }

  /** Of the first n: those the baseline does not know, those that differ from it, all; each stamped. */
  ghost function AddedOf(base: StateMap, cur: seq<EntityState>, n: nat): seq<EntityState>
    requires n <= |cur|
  {
    if n == 0 then []
    else AddedOf(base, cur, n - 1) + if cur[n - 1].id in base then [] else [Stamped(base, cur[n - 1])]
  }

  ghost function ChangedOf(base: StateMap, cur: seq<EntityState>, n: nat): seq<EntityState>
    requires n <= |cur|
  {
    if n == 0 then []
    else ChangedOf(base, cur, n - 1) + if Differs(base, cur[n - 1]) then [Stamped(base, cur[n - 1])] else []
  }

  ghost function NextOf(base: StateMap, cur: seq<EntityState>, n: nat): seq<EntityState>
    requires n <= |cur|
  {
    if n == 0 then [] else NextOf(base, cur, n - 1) + [Stamped(base, cur[n - 1])]
  }

  /** Of the first n of the baseline: the ids that are gone. */
  ghost function RemovedOf(base: seq<EntityState>, cur: StateMap, n: nat): seq<u32>
    requires n <= |base|
  {
    if n == 0 then []
    else RemovedOf(base, cur, n - 1) + if base[n - 1].id in cur then [] else [base[n - 1].id]
  }

  ghost function DeltaOf(base: seq<EntityState>, cur: seq<EntityState>): ChangeSet {
    var b := Table(base);
    ChangeSet(AddedOf(b, cur, |cur|), ChangedOf(b, cur, |cur|), RemovedOf(base, Table(cur), |base|))
  }

  ghost function Next(base: seq<EntityState>, cur: seq<EntityState>): seq<EntityState> {
    NextOf(Table(base), cur, |cur|)
  }

  // ---------------------------------------------------------------------------- look-ups

  /** In an ascending list every position is found under its id, and every id found is at a position. */
  lemma {:induction false} TableAt(s: seq<EntityState>, i: nat)
    requires AscendingStates(s) && i < |s|
    ensures s[i].id in Table(s) && Table(s)[s[i].id] == s[i]
  {
    if i < |s| - 1 {
      TableAt(s[..|s| - 1], i);
    }
  }

  lemma {:induction false} TableAbsent(s: seq<EntityState>, id: u32)
    requires forall i :: 0 <= i < |s| ==> s[i].id != id
    ensures id !in Table(s)
  {
    if s != [] {
      TableAbsent(s[..|s| - 1], id);
    }
  }

  /** An id between two neighbours is not in the list. */
  lemma {:induction false} NotIn(s: seq<EntityState>, id: u32, k: nat)
    requires AscendingStates(s) && k <= |s|
    requires (k > 0 ==> s[k - 1].id < id) && (k < |s| ==> id < s[k].id)
    ensures id !in Table(s)
  {
    var ids: seq<nat> := seq(|s|, i requires 0 <= i < |s| => s[i].id);
    NotBetween(ids, k, id);
    forall i | 0 <= i < |s| ensures s[i].id != id {
      assert ids[i] == s[i].id;
    }
    TableAbsent(s, id);
  }

  // ------------------------------------------------------------------------- the merges

  /** The cursors have passed exactly the ids below what is left on either side. */
  ghost predicate Merged(base: seq<EntityState>, cur: seq<EntityState>, bi: nat, ci: nat) {
    && bi <= |base| && ci <= |cur|
    && (bi > 0 && ci < |cur| ==> base[bi - 1].id < cur[ci].id)
    && (ci > 0 && bi < |base| ==> cur[ci - 1].id < base[bi].id)
  }

  /** What the merge has collected when its cursors stand at (bi, ci); b and c are the lists as look-ups. */
  ghost predicate Collected(base: seq<EntityState>, cur: seq<EntityState>, b: StateMap, c: StateMap, bi: nat, ci: nat,
                            d: ChangeSet)
    requires bi <= |base| && ci <= |cur|
  {
    d.added == AddedOf(b, cur, ci) && d.changed == ChangedOf(b, cur, ci) && d.removed == RemovedOf(base, c, bi)
  }

  ghost predicate SoFar(base: seq<EntityState>, cur: seq<EntityState>, bi: nat, ci: nat, d: ChangeSet) {
    Merged(base, cur, bi, ci) && Collected(base, cur, Table(base), Table(cur), bi, ci, d)
  }

  lemma CollectCurrent(base: seq<EntityState>, cur: seq<EntityState>, b: StateMap, c: StateMap, bi: nat, ci: nat,
                       d: ChangeSet)
    requires bi <= |base| && ci < |cur| && Collected(base, cur, b, c, bi, ci, d) && cur[ci].id !in b
    ensures Collected(base, cur, b, c, bi, ci + 1, d.(added := d.added + [cur[ci].(version := 1)]))
  {
    assert ChangedOf(b, cur, ci) + [] == ChangedOf(b, cur, ci);
  }

  lemma CollectBaseline(base: seq<EntityState>, cur: seq<EntityState>, b: StateMap, c: StateMap, bi: nat, ci: nat,
                        d: ChangeSet)
    requires bi < |base| && ci <= |cur| && Collected(base, cur, b, c, bi, ci, d) && base[bi].id !in c
    ensures Collected(base, cur, b, c, bi + 1, ci, d.(removed := d.removed + [base[bi].id]))
  {
  }

  lemma CollectBoth(base: seq<EntityState>, cur: seq<EntityState>, b: StateMap, c: StateMap, bi: nat, ci: nat,
                    d: ChangeSet)
    requires bi < |base| && ci < |cur| && Collected(base, cur, b, c, bi, ci, d)
    requires base[bi].id == cur[ci].id && base[bi].id in c && cur[ci].id in b && b[cur[ci].id] == base[bi]
    ensures Collected(base, cur, b, c, bi + 1, ci + 1,
              if SameTracked(base[bi], cur[ci]) then d
              else d.(changed := d.changed + [cur[ci].(version := Low32(base[bi].version + 1))]))
  {
    assert AddedOf(b, cur, ci) + [] == AddedOf(b, cur, ci);
    assert RemovedOf(base, c, bi) + [] == RemovedOf(base, c, bi);
    ChangedStep(b, cur, ci);
  }

  /** The smaller head is on one side only, equal heads are one entity; the cursors stay merged. */
  lemma {:induction false} TakeCurrent(base: seq<EntityState>, cur: seq<EntityState>, bi: nat, ci: nat, d: ChangeSet)
    requires AscendingStates(base) && AscendingStates(cur) && SoFar(base, cur, bi, ci, d)
    requires ci < |cur| && (bi == |base| || cur[ci].id < base[bi].id)
    ensures SoFar(base, cur, bi, ci + 1, d.(added := d.added + [cur[ci].(version := 1)]))
    ensures cur[ci].id !in Table(base)
  {
    hide Table, Collected;
    NotIn(base, cur[ci].id, bi);
    CollectCurrent(base, cur, Table(base), Table(cur), bi, ci, d);
  }

  lemma TakeBaseline(base: seq<EntityState>, cur: seq<EntityState>, bi: nat, ci: nat, d: ChangeSet)
    requires AscendingStates(base) && AscendingStates(cur) && SoFar(base, cur, bi, ci, d)
    requires bi < |base| && (ci == |cur| || base[bi].id < cur[ci].id)
    ensures SoFar(base, cur, bi + 1, ci, d.(removed := d.removed + [base[bi].id]))
  {
    hide Table, Collected;
    NotIn(cur, base[bi].id, ci);
    CollectBaseline(base, cur, Table(base), Table(cur), bi, ci, d);
  }

  lemma {:induction false} TakeBoth(base: seq<EntityState>, cur: seq<EntityState>, bi: nat, ci: nat, d: ChangeSet)
    requires AscendingStates(base) && AscendingStates(cur) && SoFar(base, cur, bi, ci, d)
    requires bi < |base| && ci < |cur| && base[bi].id == cur[ci].id
    ensures SoFar(base, cur, bi + 1, ci + 1,
              if SameTracked(base[bi], cur[ci]) then d
              else d.(changed := d.changed + [cur[ci].(version := Low32(base[bi].version + 1))]))
    ensures cur[ci].id in Table(base) && Table(base)[cur[ci].id] == base[bi]
  {
    hide Table, Collected;
    TableAt(base, bi);
    TableAt(cur, ci);
    CollectBoth(base, cur, Table(base), Table(cur), bi, ci, d);
  }

  lemma ChangedStep(base: StateMap, cur: seq<EntityState>, ci: nat)
    requires ci < |cur| && cur[ci].id in base
    ensures ChangedOf(base, cur, ci + 1)
         == if SameTracked(base[cur[ci].id], cur[ci]) then ChangedOf(base, cur, ci)
            else ChangedOf(base, cur, ci) + [cur[ci].(version := Low32(base[cur[ci].id].version + 1))]
  {
    assert ChangedOf(base, cur, ci) + [] == ChangedOf(base, cur, ci);
  }

  lemma NothingYet(base: seq<EntityState>, cur: seq<EntityState>)
    ensures SoFar(base, cur, 0, 0, ChangeSet([], [], []))
  {
  }

  lemma AllTaken(base: seq<EntityState>, cur: seq<EntityState>, d: ChangeSet)
    requires SoFar(base, cur, |base|, |cur|, d)
    ensures DeltaOf(base, cur) == d
  {
  }

  datatype EncodeResult = Encoded(changes: ChangeSet) | Overflow

  /** The change set, unless it emits more states than the cap. */
  ghost function Encoding(base: seq<EntityState>, cur: seq<EntityState>, cap: nat): EncodeResult {
    var d := DeltaOf(base, cur);
    if |d.added| + |d.changed| > cap then Overflow else Encoded(d)
  }

  method EncodeEntityDelta(baseline: seq<EntityState>, current: seq<EntityState>, maxEntitiesPerUpdate: nat)
    returns (r: EncodeResult)
    requires AscendingStates(baseline) && AscendingStates(current)
    ensures r == Encoding(baseline, current, maxEntitiesPerUpdate)
  {
    hide SoFar, DeltaOf;
    var added, changed, removed := [], [], [];
    var bi, ci := 0, 0;
    NothingYet(baseline, current);
    while bi < |baseline| && ci < |current|
      invariant bi <= |baseline| && ci <= |current|
      invariant SoFar(baseline, current, bi, ci, ChangeSet(added, changed, removed))
      decreases |baseline| + |current| - bi - ci
    {
      ghost var d := ChangeSet(added, changed, removed);
      if current[ci].id < baseline[bi].id {
        TakeCurrent(baseline, current, bi, ci, d);
        added := added + [current[ci].(version := 1)];
        ci := ci + 1;
      } else if baseline[bi].id < current[ci].id {
        TakeBaseline(baseline, current, bi, ci, d);
        removed := removed + [baseline[bi].id];
        bi := bi + 1;
      } else {
        TakeBoth(baseline, current, bi, ci, d);
        if !SameTracked(baseline[bi], current[ci]) {
          changed := changed + [current[ci].(version := Low32(baseline[bi].version + 1))];
        }
        bi, ci := bi + 1, ci + 1;
      }
    }
    while ci < |current|
      invariant bi <= |baseline| && ci <= |current|
      invariant SoFar(baseline, current, bi, ci, ChangeSet(added, changed, removed))
      invariant bi == |baseline| || ci == |current|
    {
      TakeCurrent(baseline, current, bi, ci, ChangeSet(added, changed, removed));
      added := added + [current[ci].(version := 1)];
      ci := ci + 1;
    }
    while bi < |baseline|
      invariant bi <= |baseline| && ci == |current|
      invariant SoFar(baseline, current, bi, ci, ChangeSet(added, changed, removed))
    {
      TakeBaseline(baseline, current, bi, ci, ChangeSet(added, changed, removed));
      removed := removed + [baseline[bi].id];
      bi := bi + 1;
    }
    AllTaken(baseline, current, ChangeSet(added, changed, removed));
    if |added| + |changed| > maxEntitiesPerUpdate {
      return Overflow;
    }
    return Encoded(ChangeSet(added, changed, removed));
  }

  method NextEntityBaseline(baseline: seq<EntityState>, current: seq<EntityState>) returns (next: seq<EntityState>)
    requires AscendingStates(baseline) && AscendingStates(current)
    ensures next == Next(baseline, current)
  {
    hide Table;
    next := [];
    var bi, ci := 0, 0;
    while bi < |baseline| && ci < |current|
      invariant Merged(baseline, current, bi, ci) && next == NextOf(Table(baseline), current, ci)
      decreases |baseline| + |current| - bi - ci
    {
      if current[ci].id < baseline[bi].id {
        NotIn(baseline, current[ci].id, bi);
        next := next + [current[ci].(version := 1)];
        ci := ci + 1;
      } else if baseline[bi].id < current[ci].id {
        bi := bi + 1;
      } else {
        TableAt(baseline, bi);
        var version: u32 := if SameTracked(baseline[bi], current[ci]) then baseline[bi].version
                            else Low32(baseline[bi].version + 1);
        next := next + [current[ci].(version := version)];
        bi, ci := bi + 1, ci + 1;
      }
    }
    while ci < |current|
      invariant Merged(baseline, current, bi, ci) && (bi == |baseline| || ci == |current|)
      invariant next == NextOf(Table(baseline), current, ci)
    {
      NotIn(baseline, current[ci].id, bi);
      next := next + [current[ci].(version := 1)];
      ci := ci + 1;
    }
  }

  // ------------------------------------------------------------ what the lists contain

  lemma {:induction false} TableSnoc(s: seq<EntityState>, e: EntityState)
    ensures Table(s + [e]) == Table(s)[e.id := e]
  {
    SnocSplit(s, e);
  }

  lemma {:induction false} AddedAscend(base: StateMap, cur: seq<EntityState>, n: nat)
    requires n <= |cur| && AscendingStates(cur)
    ensures AscendingStates(AddedOf(base, cur, n))
    ensures forall e :: e in AddedOf(base, cur, n) ==> n > 0 && e.id <= cur[n - 1].id
  {
    if n > 0 {
      AddedAscend(base, cur, n - 1);
    }
  }

  lemma {:induction false} ChangedAscend(base: StateMap, cur: seq<EntityState>, n: nat)
    requires n <= |cur| && AscendingStates(cur)
    ensures AscendingStates(ChangedOf(base, cur, n))
    ensures forall e :: e in ChangedOf(base, cur, n) ==> n > 0 && e.id <= cur[n - 1].id
  {
    if n > 0 {
      ChangedAscend(base, cur, n - 1);
    }
  }

  lemma {:induction false} RemovedAscend(base: seq<EntityState>, cur: StateMap, n: nat)
    requires n <= |base| && AscendingStates(base)
    ensures AscendingIds(RemovedOf(base, cur, n))
    ensures forall id :: id in RemovedOf(base, cur, n) ==> n > 0 && id <= base[n - 1].id
  {
    if n > 0 {
      RemovedAscend(base, cur, n - 1);
      var r := RemovedOf(base, cur, n - 1);
      forall i | 0 <= i < |r| ensures r[i] < base[n - 1].id {
        assert r[i] in r;
      }
    }
  }

  lemma {:induction false} NextAt(base: StateMap, cur: seq<EntityState>, n: nat)
    requires n <= |cur|
    ensures |NextOf(base, cur, n)| == n
    ensures forall i :: 0 <= i < n ==> NextOf(base, cur, n)[i] == Stamped(base, cur[i])
  {
    if n > 0 {
      NextAt(base, cur, n - 1);
    }
  }

  /** Looking an id up in the first n of each list. */
  ghost function Look(s: seq<EntityState>, id: u32): Option<EntityState> {
    if id in Table(s) then Some(Table(s)[id]) else None
  }

  lemma LookSnoc(s: seq<EntityState>, e: EntityState, id: u32)
    ensures Look(s + [e], id) == if e.id == id then Some(e) else Look(s, id)
  {
    TableSnoc(s, e);
  }

  lemma LookPrefix(s: seq<EntityState>, n: nat, id: u32)
    requires 0 < n <= |s|
    ensures Look(s[..n], id) == if s[n - 1].id == id then Some(s[n - 1]) else Look(s[..n - 1], id)
  {
    assert s[..n] == s[..n - 1] + [s[n - 1]];
    LookSnoc(s[..n - 1], s[n - 1], id);
  }

  lemma {:induction false} LookKeyed(s: seq<EntityState>, id: u32)
    ensures Look(s, id).Some? ==> Look(s, id).value.id == id
  {
    if s != [] {
      LookKeyed(s[..|s| - 1], id);
    }
  }

  lemma {:induction false} AddedLook(base: StateMap, cur: seq<EntityState>, n: nat, id: u32)
    requires n <= |cur|
    ensures Look(AddedOf(base, cur, n), id)
         == match Look(cur[..n], id) case None => None
            case Some(e) => if id in base then None else Some(e.(version := 1))
  {
    if n > 0 {
      AddedLook(base, cur, n - 1, id);
      LookPrefix(cur, n, id);
      LookSnoc(AddedOf(base, cur, n - 1), Stamped(base, cur[n - 1]), id);
      assert AddedOf(base, cur, n - 1) + [] == AddedOf(base, cur, n - 1);
    }
  }

  lemma {:induction false} ChangedLook(base: StateMap, cur: seq<EntityState>, n: nat, id: u32)
    requires n <= |cur| && AscendingStates(cur)
    ensures Look(ChangedOf(base, cur, n), id)
         == match Look(cur[..n], id) case None => None
            case Some(e) => if id !in base || SameTracked(base[id], e) then None
                            else Some(e.(version := Low32(base[id].version + 1)))
  {
    if n > 0 {
      hide Look;
      ChangedLook(base, cur, n - 1, id);
      LookPrefix(cur, n, id);
      LookBefore(cur, n - 1);
      if Differs(base, cur[n - 1]) {
        LookSnoc(ChangedOf(base, cur, n - 1), Stamped(base, cur[n - 1]), id);
      } else {
        assert ChangedOf(base, cur, n) == ChangedOf(base, cur, n - 1);
      }
    }
  }

  /** The k-th of an ascending list is not among the first k. */
  lemma LookBefore(s: seq<EntityState>, k: nat)
    requires AscendingStates(s) && k < |s|
    ensures Look(s[..k], s[k].id) == None
  {
    NotIn(s[..k], s[k].id, k);
  }

  lemma {:induction false} NextLook(base: StateMap, cur: seq<EntityState>, n: nat, id: u32)
    requires n <= |cur|
    ensures Look(NextOf(base, cur, n), id)
         == match Look(cur[..n], id) case None => None case Some(e) => Some(Stamped(base, e))
  {
    if n > 0 {
      NextLook(base, cur, n - 1, id);
      LookPrefix(cur, n, id);
      LookSnoc(NextOf(base, cur, n - 1), Stamped(base, cur[n - 1]), id);
    }
  }

  lemma {:induction false} RemovedIn(base: seq<EntityState>, cur: StateMap, n: nat, id: u32)
    requires n <= |base|
    ensures id in RemovedOf(base, cur, n) <==> Look(base[..n], id).Some? && id !in cur
  {
    if n > 0 {
      RemovedIn(base, cur, n - 1, id);
      LookPrefix(base, n, id);
    }
  }

  /** Every list of a delta, and the next baseline, is ascending. */
  lemma DeltaAscends(base: seq<EntityState>, cur: seq<EntityState>)
    requires AscendingStates(base) && AscendingStates(cur)
    ensures var d := DeltaOf(base, cur);
      AscendingStates(d.added) && AscendingStates(d.changed) && AscendingIds(d.removed)
    ensures AscendingStates(Next(base, cur)) && |Next(base, cur)| == |cur|
  {
    AddedAscend(Table(base), cur, |cur|);
    ChangedAscend(Table(base), cur, |cur|);
    RemovedAscend(base, Table(cur), |base|);
    NextAt(Table(base), cur, |cur|);
  }

  /** The lists of a delta and the next baseline, id by id. */
  lemma DeltaIsExact(base: seq<EntityState>, cur: seq<EntityState>, id: u32)
    requires AscendingStates(base) && AscendingStates(cur)
    ensures var d := DeltaOf(base, cur);
      var b, c, next := Look(base, id), Look(cur, id), Look(Next(base, cur), id);
      && Look(d.added, id) == (if c.Some? && b.None? then Some(c.value.(version := 1)) else None)
      && Look(d.changed, id) == (if c.Some? && b.Some? && !SameTracked(b.value, c.value)
                                 then Some(c.value.(version := Low32(b.value.version + 1))) else None)
      && (id in d.removed <==> b.Some? && c.None?)
      && next == (if c.None? then None
                  else if b.None? then Some(c.value.(version := 1))
                  else if SameTracked(b.value, c.value) then Some(c.value.(version := b.value.version))
                  else Some(c.value.(version := Low32(b.value.version + 1))))
  {
    hide Table, AddedOf, ChangedOf, RemovedOf, NextOf;
    WholePrefix(cur);
    WholePrefix(base);
    LookKeyed(cur, id);
    AddedLook(Table(base), cur, |cur|, id);
    ChangedLook(Table(base), cur, |cur|, id);
    RemovedIn(base, Table(cur), |base|, id);
    NextLook(Table(base), cur, |cur|, id);
  }

  lemma {:induction false} LookHasId(s: seq<EntityState>, id: u32)
    ensures Look(s, id).Some? ==> Look(s, id).value.id == id
  {
    if s != [] {
      LookHasId(s[..|s| - 1], id);
    }
  }

  /**
   * An entity both sides know is reported exactly if anything about it differs but the version: it is then one
   * version on. Else the baseline keeps it as it is.
   */
  lemma ReportedIffDifferent(base: seq<EntityState>, cur: seq<EntityState>, id: u32)
    requires AscendingStates(base) && AscendingStates(cur) && Look(base, id).Some? && Look(cur, id).Some?
    ensures var b, c := Look(base, id).value, Look(cur, id).value;
      var now := if c == b.(version := c.version) then b else c.(version := (b.version + 1) % 0x1_0000_0000);
      && Look(Next(base, cur), id) == Some(now)
      && Look(DeltaOf(base, cur).changed, id) == if now == b then None else Some(now)
  {
    DeltaIsExact(base, cur, id);
    LookHasId(base, id);
    LookHasId(cur, id);
    hide Look, DeltaOf, Next;
  }

  // ------------------------------------------------------------------ what a delta does

  /** Delete the removed, overwrite the changed, insert the added. */
  ghost function Apply(m: StateMap, d: ChangeSet): StateMap {
    (m - set id | id in d.removed) + Table(d.changed) + Table(d.added)
  }

  /** What applying a change set does to one id. */
  lemma ApplyAt(m: StateMap, d: ChangeSet, id: u32)
    ensures id in Apply(m, d) <==>
      Look(d.added, id).Some? || Look(d.changed, id).Some? || (id in m && id !in d.removed)
    ensures id in Apply(m, d) ==>
              Apply(m, d)[id] == if Look(d.added, id).Some? then Look(d.added, id).value
                                 else if Look(d.changed, id).Some? then Look(d.changed, id).value else m[id]
  {
  }

  /** A client that applies the delta to the baseline holds the next baseline. */
  lemma {:induction false} DeltaCompletes(base: seq<EntityState>, cur: seq<EntityState>)
    requires AscendingStates(base) && AscendingStates(cur)
    ensures Apply(Table(base), DeltaOf(base, cur)) == Table(Next(base, cur))
  {
    var d := DeltaOf(base, cur);
    var a, b := Apply(Table(base), d), Table(Next(base, cur));
    forall id: u32 ensures (id in a <==> id in b) && (id in a ==> a[id] == b[id]) {
      DeltaIsExact(base, cur, id);
      ApplyAt(Table(base), d, id);
      LookKeyed(base, id);
      LookKeyed(cur, id);
    }
  }

  lemma {:induction false} NothingNew(b: StateMap, cur: seq<EntityState>, n: nat)
    requires n <= |cur|
    requires forall i :: 0 <= i < n ==> cur[i].id in b && SameTracked(b[cur[i].id], cur[i])
    ensures AddedOf(b, cur, n) == [] && ChangedOf(b, cur, n) == []
  {
    if n > 0 {
      NothingNew(b, cur, n - 1);
    }
  }

  lemma {:induction false} NothingGone(base: seq<EntityState>, c: StateMap, n: nat)
    requires n <= |base| && forall i :: 0 <= i < n ==> base[i].id in c
    ensures RemovedOf(base, c, n) == []
  {
    if n > 0 {
      NothingGone(base, c, n - 1);
    }
  }

  /** Against the baseline it has just become, an update is empty and changes no version. */
  lemma SettledDelta(base: seq<EntityState>, cur: seq<EntityState>)
    requires AscendingStates(base) && AscendingStates(cur)
    ensures var next := Next(base, cur);
      DeltaOf(next, cur) == ChangeSet([], [], []) && Next(next, cur) == next
  {
    var next := Next(base, cur);
    DeltaAscends(base, cur);
    NextAt(Table(base), cur, |cur|);
    NextAt(Table(next), cur, |cur|);
    forall i | 0 <= i < |cur|
      ensures cur[i].id in Table(next) && Table(next)[cur[i].id] == next[i] && next[i].id in Table(cur)
    {
      TableAt(next, i);
      TableAt(cur, i);
    }
    NothingNew(Table(next), cur, |cur|);
    NothingGone(next, Table(cur), |next|);
  }

  /** Any change set that does the same names every entity this one names. */
  lemma {:induction false} DeltaIsMinimal(base: seq<EntityState>, cur: seq<EntityState>, other: ChangeSet, id: u32)
    requires AscendingStates(base) && AscendingStates(cur)
    requires Apply(Table(base), other) == Table(Next(base, cur))
    ensures var d := DeltaOf(base, cur);
      && (Look(d.added, id).Some? || Look(d.changed, id).Some? ==>
            Look(other.added, id).Some? || Look(other.changed, id).Some?)
      && (id in d.removed ==> id in other.removed)
  {
    DeltaIsExact(base, cur, id);
    ApplyAt(Table(base), other, id);
  }

  // -------------------------------------------------------------- versions over a run

  /** The baseline after a run of updates, from an empty one. */
  ghost function Baseline(curs: seq<seq<EntityState>>): seq<EntityState> {
    if curs == [] then [] else Next(Baseline(curs[..|curs| - 1]), curs[|curs| - 1])
  }

  ghost predicate AllAscending(curs: seq<seq<EntityState>>) {
    forall k :: 0 <= k < |curs| ==> AscendingStates(curs[k])
  }

  /** How often an entity's tracked fields changed since it last appeared. */
  ghost function Changes(curs: seq<seq<EntityState>>, id: u32): nat {
    if |curs| < 2 then 0
    else
      var n := |curs| - 1;
      var before, now := Look(curs[n - 1], id), Look(curs[n], id);
      if before.None? || now.None? then 0
      else Changes(curs[..n], id) + if SameTracked(before.value, now.value) then 0 else 1
  }

  lemma Low32Next(x: nat)
    ensures Low32(Low32(x) + 1) == Low32(x + 1)
  {
  }

  /** One more update, for one id: `before` and `now` are what the two updates say of it. */
  lemma VersionStep(base: seq<EntityState>, cur: seq<EntityState>, id: u32, before: Option<EntityState>, c: nat)
    requires AscendingStates(base) && AscendingStates(cur)
    requires Look(base, id) == if before.None? then None else Some(before.value.(version := Low32(1 + c)))
    ensures var now := Look(cur, id);
      var c' := if before.None? || now.None? then 0
                else c + if SameTracked(before.value, now.value) then 0 else 1;
      Look(Next(base, cur), id) == if now.None? then None else Some(now.value.(version := Low32(1 + c')))
  {
    hide Look, DeltaOf, Next;
    DeltaIsExact(base, cur, id);
    Low32Next(1 + c);
  }

  /** After every run the baseline is the last update, and versions count appearances and changes. */
  lemma {:induction false} VersionsCountChanges(curs: seq<seq<EntityState>>, id: u32)
    requires curs != [] && AllAscending(curs)
    ensures AscendingStates(Baseline(curs))
    ensures var now := Look(curs[|curs| - 1], id);
      Look(Baseline(curs), id)
        == if now.None? then None else Some(now.value.(version := Low32(1 + Changes(curs, id))))
  {
    var n := |curs| - 1;
    var before := curs[..n];
    if n > 0 {
      VersionsCountChanges(before, id);
      assert before[n - 1] == curs[n - 1];
      DeltaAscends(Baseline(before), curs[n]);
      VersionStep(Baseline(before), curs[n], id, Look(curs[n - 1], id), Changes(before, id));
    } else {
      assert Baseline(before) == [];
      DeltaAscends([], curs[n]);
      VersionStep([], curs[n], id, None, 0);
    }
  }
}
