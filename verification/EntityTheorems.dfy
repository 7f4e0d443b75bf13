/** Every run of the entity registry: generations, stale handles, reservations, dispatch and Clear. */
module EntityTheorems {
  import opened Prelude
  import opened EntityModel

  /** What ValidateIntegrity looks for on a row: a real id, a real generation, not beyond the counter. */
  ghost predicate Sound(r: Registry) {
    && !r.dispatching
    && forall id :: id in r.rows ==> id != 0 && 1 <= r.rows[id].generation <= LastGeneration(r, id)
  }

  lemma StepKeepsSound(r: Registry, q: Request)
    requires Sound(r)
    ensures Sound(Step(r, q).registry)
  {
  }

  /** No run of any operations, Clear among them, gives the integrity scan anything to report. */
  lemma {:induction false} EveryRunSound(ops: seq<Operation>)
    ensures Sound(Run(EMPTY, ops))
  {
    if ops != [] {
      var n := |ops| - 1;
      EveryRunSound(ops[..n]);
      if ops[n].Call? {
        StepKeepsSound(Run(EMPTY, ops[..n]), ops[n].request);
      }
    }
  }

  // ------------------------------------------------------------- what only Clear takes back

  /** Generation counters and the reservation cursor only move up. */
  ghost predicate Grown(r: Registry, r': Registry) {
    && r.nextReserved <= r'.nextReserved
    && forall id :: id in r.generations ==> id in r'.generations && r.generations[id] <= r'.generations[id]
  }

  lemma StepGrows(r: Registry, q: Request)
    ensures Grown(r, Step(r, q).registry)
  {
  }

  lemma GrownThrough(a: Registry, b: Registry, c: Registry)
    requires Grown(a, b) && Grown(b, c)
    ensures Grown(a, c)
  {
  }

  lemma LastGrows(ops: seq<Operation>, n: nat)
    requires 0 < n <= |ops| && ops[n - 1].Call?
    ensures Grown(Run(EMPTY, ops[..n - 1]), Run(EMPTY, ops[..n]))
  {
    assert ops[..n] == ops[..n - 1] + [ops[n - 1]];
    RunSnoc(EMPTY, ops[..n - 1], ops[n - 1]);
    StepGrows(Run(EMPTY, ops[..n - 1]), ops[n - 1].request);
  }

  /** From one point of a run to a later one with no Clear between them. */
  lemma {:induction false} RunGrows(ops: seq<Operation>, m: nat, n: nat)
    requires m <= n <= |ops| && ClearAll !in ops[m..n]
    ensures Grown(Run(EMPTY, ops[..m]), Run(EMPTY, ops[..n]))
  {
    if m < n {
      assert ops[m..n] == ops[m..n - 1] + [ops[n - 1]];
      RunGrows(ops, m, n - 1);
      LastGrows(ops, n);
      GrownThrough(Run(EMPTY, ops[..m]), Run(EMPTY, ops[..n - 1]), Run(EMPTY, ops[..n]));
    }
  }

  // --------------------------------------------------------------------- stale handles

  /** The handle was issued at some time and is not live. */
  ghost predicate Stale(r: Registry, h: Handle) {
    !Resolves(r, h) && h.id in r.generations && h.generation <= r.generations[h.id]
  }

  lemma UnregisteredIsStale(r: Registry, h: Handle)
    requires Sound(r) && Step(r, Unregister(h)).reply == Done
    ensures Stale(Step(r, Unregister(h)).registry, h)
  {
  }

  /** A stale handle stays stale through any request but a successful restore of exactly it. */
  lemma StaleStep(r: Registry, h: Handle, q: Request)
    requires Sound(r) && Stale(r, h)
    ensures var r' := Step(r, q).registry;
      Stale(r', h) || (q.Restore? && q.restored == h && Step(r, q).reply == Issued(h) && Resolves(r', h))
  {
  }

  /** Exactly this handle was restored at some time of the run. */
  ghost predicate RestoredIn(r: Registry, ops: seq<Operation>, h: Handle) {
    exists k :: 0 <= k < |ops| && ops[k].Call? && ops[k].request.Restore? && ops[k].request.restored == h
                && ReplyAt(r, ops, k) == Issued(h)
  }

  lemma RestoredPrefix(r: Registry, ops: seq<Operation>, h: Handle)
    requires ops != []
    ensures RestoredIn(r, ops[..|ops| - 1], h) ==> RestoredIn(r, ops, h)
  {
    var before := ops[..|ops| - 1];
    forall k | 0 <= k < |before| ensures before[..k] == ops[..k] && before[k] == ops[k] {
    }
  }

  lemma {:induction false} StaysStale(r: Registry, h: Handle, ops: seq<Operation>)
    requires Sound(r) && Stale(r, h) && !RestoredIn(r, ops, h) && ClearAll !in ops
    ensures Sound(Run(r, ops)) && Stale(Run(r, ops), h)
  {
    if ops != [] {
      var n := |ops| - 1;
      var before := ops[..n];
      assert ops == before + [ops[n]];
      RestoredPrefix(r, ops, h);
      StaysStale(r, h, before);
      StepKeepsSound(Run(r, before), ops[n].request);
      StaleStep(Run(r, before), h, ops[n].request);
      assert ReplyAt(r, ops, n) == Step(Run(r, before), ops[n].request).reply;
    }
  }

  /** In every run, an unregistered handle resolves again only if exactly it was restored, or all was cleared, since. */
  lemma {:induction false} StaleHandlesResolveOnlyByRestore(before: seq<Operation>, h: Handle, after: seq<Operation>)
    requires Step(Run(EMPTY, before), Unregister(h)).reply == Done
    ensures var r := Step(Run(EMPTY, before), Unregister(h)).registry;
      Resolves(Run(r, after), h) ==> RestoredIn(r, after, h) || ClearAll in after
  {
    EveryRunSound(before);
    var r := Step(Run(EMPTY, before), Unregister(h)).registry;
    StepKeepsSound(Run(EMPTY, before), Unregister(h));
    UnregisteredIsStale(Run(EMPTY, before), h);
    if !RestoredIn(r, after, h) && ClearAll !in after {
      StaysStale(r, h, after);
    }
  }

  lemma {:induction false} RunSnoc(r: Registry, ops: seq<Operation>, op: Operation)
    ensures Run(r, ops + [op]) == Perform(Run(r, ops), op).registry
  {
    SnocSplit(ops, op);
  }

  lemma {:induction false} RunTwo(r: Registry, a: Operation, b: Operation)
    ensures Run(r, [a]) == Perform(r, a).registry
    ensures Run(r, [a, b]) == Perform(Perform(r, a).registry, b).registry
  {
    assert [a] == [] + [a] && [a, b] == [a] + [b];
    RunSnoc(r, [], a);
    RunSnoc(r, [a], b);
  }

  /** Register, unregister, clear, register: the generations start over, and the first handle is good again. */
  lemma ClearRevivesStaleHandle(m: Metadata)
    ensures var h := Handle(7, 1);
      var before, after := [Call(Register(7, "", m))], [ClearAll, Call(Register(7, "", m))];
      && Step(Run(EMPTY, before), Unregister(h)).reply == Done
      && Resolves(Run(Step(Run(EMPTY, before), Unregister(h)).registry, after), h)
  {
    var q := Register(7, "", m);
    RunTwo(EMPTY, Call(q), ClearAll);
    var r := Step(Run(EMPTY, [Call(q)]), Unregister(Handle(7, 1))).registry;
    RunTwo(r, ClearAll, Call(q));
  }

  // ---------------------------------------------------------------------- the dispatch guard

  /** While the flag is up, an operation leaves the registry alone unless it is Clear; once down it stays down. */
  lemma {:induction false} RefusedIff(r: Registry, ops: seq<Operation>)
    ensures r.dispatching ==> (Run(r, ops) == r <==> ClearAll !in ops)
    ensures Run(r, ops).dispatching <==> r.dispatching && ClearAll !in ops
  {
    if ops != [] {
      var n := |ops| - 1;
      RefusedIff(r, ops[..n]);
      assert ops == ops[..n] + [ops[n]];
    }
  }

  /**
   * While an event is delivered, the callbacks leave the registry, its guard included, exactly as it was
   * if and only if none of them calls Clear.
   */
  lemma {:induction false} DispatchHarmlessIff(r: Registry, callbacks: seq<seq<Operation>>)
    requires r.dispatching
    ensures Heard(r, callbacks) == r <==> Guarded(callbacks)
    ensures Heard(r, callbacks).dispatching <==> Guarded(callbacks)
  {
    if callbacks != [] {
      var n := |callbacks| - 1;
      var before := callbacks[..n];
      DispatchHarmlessIff(r, before);
      RefusedIff(Heard(r, before), callbacks[n]);
      assert forall i :: 0 <= i < n ==> before[i] == callbacks[i];
    }
  }

  /**
   * A subscriber that clears and registers: it loses the entity being announced, and its own registration
   * is let through in the middle of the dispatch.
   */
  lemma ClearBreaksDispatch(m: Metadata)
    ensures var before := Run(EMPTY, [Call(Register(8, "", m))]);
      var after := Heard(before.(dispatching := true), [[ClearAll, Call(Register(7, "", m))]]);
      && Resolves(before, Handle(8, 1)) && !Resolves(after, Handle(8, 1))
      && Resolves(after, Handle(7, 1)) && !after.dispatching
  {
    var q := Call(Register(7, "", m));
    RunTwo(EMPTY, Call(Register(8, "", m)), ClearAll);
    var r := Run(EMPTY, [Call(Register(8, "", m))]).(dispatching := true);
    RunTwo(r, ClearAll, q);
    var callbacks: seq<seq<Operation>> := [[ClearAll, q]];
    assert callbacks[..0] == [];
    assert Heard(r, callbacks) == Run(r, [ClearAll, q]);
  }

  // ------------------------------------------------------------------------ reservation

  /** The ids that became live, registered or restored, from operation m on. */
  ghost predicate IssuedSince(ops: seq<Operation>, m: nat, id: nat) {
    exists k :: m <= k < |ops| && ReplyAt(EMPTY, ops, k).Issued? && ReplyAt(EMPTY, ops, k).handle.id == id
  }

  lemma IssuedIsCounted(r: Registry, q: Request)
    requires Step(r, q).reply.Issued?
    ensures Step(r, q).reply.handle.id in Step(r, q).registry.generations
  {
  }

  /** Until the next Clear, an issued id has a generation counter. */
  lemma IssuedHaveGenerations(ops: seq<Operation>, n: nat, k: nat)
    requires k < n <= |ops| && ReplyAt(EMPTY, ops, k).Issued? && ClearAll !in ops[k + 1..n]
    ensures ReplyAt(EMPTY, ops, k).handle.id in Run(EMPTY, ops[..n]).generations
  {
    assert ops[..k + 1][..k] == ops[..k];
    IssuedIsCounted(Run(EMPTY, ops[..k]), ops[k].request);
    RunGrows(ops, k + 1, n);
  }

  lemma ReservedBelowCursor(ops: seq<Operation>, n: nat, k: nat)
    requires k < n <= |ops| && ReplyAt(EMPTY, ops, k).ReservedId? && ClearAll !in ops[k + 1..n]
    ensures ReplyAt(EMPTY, ops, k).id < Run(EMPTY, ops[..n]).nextReserved
  {
    assert ops[..k + 1][..k] == ops[..k];
    RunGrows(ops, k + 1, n);
  }

  lemma NoClearBetween(ops: seq<Operation>, m: nat, j: nat, k: nat)
    requires m <= j <= k <= |ops| && ClearAll !in ops[m..k]
    ensures ClearAll !in ops[j..k]
  {
    assert ops[m..k] == ops[m..j] + ops[j..k];
  }

  lemma ReservedIsNew(r: Registry)
    requires Step(r, Reserve).reply.ReservedId?
    ensures var id := Step(r, Reserve).reply.id;
      id >= r.nextReserved && id !in r.rows && id !in r.generations
  {
  }

  /**
   * In every run, a reserved id is not live, and since the last Clear, that is since any operation m with
   * none after it, it was never issued and never reserved before.
   */
  lemma ReservationsAreFresh(ops: seq<Operation>, m: nat, k: nat)
    requires m <= k < |ops| && ReplyAt(EMPTY, ops, k).ReservedId? && ClearAll !in ops[m..k]
    ensures var id := ReplyAt(EMPTY, ops, k).id;
      && id >= 0x10000 && id !in Run(EMPTY, ops[..k]).rows && !IssuedSince(ops[..k], m, id)
      && forall j :: m <= j < k && ReplyAt(EMPTY, ops, j).ReservedId? ==> ReplyAt(EMPTY, ops, j).id < id
  {
    var before := ops[..k];
    var id := ReplyAt(EMPTY, ops, k).id;
    CursorStarts(before);
    ReservedIsNew(Run(EMPTY, before));
    forall j | m <= j < k && ReplyAt(EMPTY, before, j).Issued? ensures ReplyAt(EMPTY, before, j).handle.id != id {
      assert before[..j] == ops[..j];
      NoClearBetween(ops, m, j + 1, k);
      IssuedHaveGenerations(ops, k, j);
    }
    forall j | m <= j < k && ReplyAt(EMPTY, ops, j).ReservedId? ensures ReplyAt(EMPTY, ops, j).id < id {
      NoClearBetween(ops, m, j + 1, k);
      ReservedBelowCursor(ops, k, j);
    }
  }

  lemma {:induction false} CursorStarts(ops: seq<Operation>)
    ensures Run(EMPTY, ops).nextReserved >= 0x10000
  {
    if ops != [] {
      var n := |ops| - 1;
      CursorStarts(ops[..n]);
      if ops[n].Call? {
        StepGrows(Run(EMPTY, ops[..n]), ops[n].request);
      }
    }
  }

  /** Reserve, clear, reserve: the cursor starts over, and the same id is reserved twice. */
  lemma ClearRepeatsReservation()
    ensures var ops := [Call(Reserve), ClearAll, Call(Reserve)];
      ReplyAt(EMPTY, ops, 0).ReservedId? && ReplyAt(EMPTY, ops, 2) == ReplyAt(EMPTY, ops, 0)
  {
    var ops := [Call(Reserve), ClearAll, Call(Reserve)];
    assert ops[..0] == [] && ops[..2] == [Call(Reserve), ClearAll];
    RunTwo(EMPTY, Call(Reserve), ClearAll);
  }
}
