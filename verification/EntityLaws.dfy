/** What each mutation answers and changes, and over runs exactly which handles resolve. */
module EntityLaws {
  import opened Prelude
  import opened EntityModel
  import opened EntityTheorems

  // --------------------------------------------------------------------- one request at a time

  /** Nobody is live under the id. */
  ghost predicate Vacant(r: Registry, id: nat) {
    forall g: nat :: !Resolves(r, Handle(id, g))
  }

  lemma VacantIff(r: Registry, id: nat)
    ensures Vacant(r, id) <==> id !in r.rows
  {
    if id in r.rows {
      assert Resolves(r, Handle(id, r.rows[id].generation));
    }
  }

  /** Every row but perhaps this one is as before. */
  ghost predicate OtherRowsSame(r: Registry, r': Registry, id: nat) {
    forall k: nat :: k != id ==> (k in r'.rows <==> k in r.rows) && (k in r.rows ==> r'.rows[k] == r.rows[k])
  }

  /**
   * A registration is granted exactly for a real, vacant id. It issues the generation after the last one of
   * that id, puts the entity on record as Registered, and changes nothing else.
   */
  lemma RegisterIssues(r: Registry, id: nat, name: string, metadata: Metadata)
    requires !r.dispatching
    ensures var a := Step(r, Register(id, name, metadata));
      var g := if id in r.generations then r.generations[id] + 1 else 1;
      && (a.reply == Refused(InvalidArgument) <==> id == 0)
      && (a.reply == Refused(AlreadyExists) <==> id != 0 && !Vacant(r, id))
      && (a.reply == Issued(Handle(id, g)) <==> id != 0 && Vacant(r, id))
      && (a.reply != Issued(Handle(id, g)) ==> a.registry == r)
      && (a.reply == Issued(Handle(id, g)) ==>
            && OtherRowsSame(r, a.registry, id) && id in a.registry.rows
            && a.registry.rows[id] == Row(g, name, metadata.(state := Registered))
            && a.registry == r.(rows := a.registry.rows, generations := r.generations[id := g]))
  {
    VacantIff(r, id);
  }

  /** An entity is unregistered exactly by a valid handle that resolves; then it alone is gone. */
  lemma UnregisterDoneIff(r: Registry, h: Handle)
    requires !r.dispatching
    ensures var a := Step(r, Unregister(h));
      && (a.reply == Done <==> h.id != 0 && h.generation != 0 && Resolves(r, h))
      && (a.reply == Refused(InvalidArgument) <==> h.id == 0 || h.generation == 0)
      && (a.reply == Refused(NotFound) <==> h.id != 0 && h.generation != 0 && !Resolves(r, h))
      && (a.reply != Done ==> a.registry == r)
      && (a.reply == Done ==>
            && OtherRowsSame(r, a.registry, h.id) && Vacant(a.registry, h.id)
            && a.registry == r.(rows := a.registry.rows, destroyed := r.destroyed + 1))
  {
  }

  /** A restore brings a valid handle back to a vacant id, as it was saved; the generation counter only moves up. */
  lemma RestoreIssues(r: Registry, h: Handle, name: string, metadata: Metadata)
    requires !r.dispatching
    ensures var a := Step(r, Restore(h, name, metadata));
      && (a.reply == Refused(InvalidArgument) <==> h.id == 0 || h.generation == 0)
      && (a.reply == Refused(AlreadyExists) <==> h.id != 0 && h.generation != 0 && !Vacant(r, h.id))
      && (a.reply == Issued(h) <==> h.id != 0 && h.generation != 0 && Vacant(r, h.id))
      && (a.reply != Issued(h) ==> a.registry == r)
      && (a.reply == Issued(h) ==>
            && OtherRowsSame(r, a.registry, h.id) && h.id in a.registry.rows
            && a.registry.rows[h.id] == Row(h.generation, name, metadata)
            && h.id in a.registry.generations
            && (a.registry.generations[h.id] == h.generation || a.registry.generations[h.id] == LastGeneration(r, h.id))
            && a.registry.generations[h.id] >= h.generation
            && a.registry.generations[h.id] >= LastGeneration(r, h.id)
            && a.registry == r.(rows := a.registry.rows,
                                generations := r.generations[h.id := a.registry.generations[h.id]]))
  {
    VacantIff(r, h.id);
  }

  // ------------------------------------------------------------------- registration states

  /** The order of the registration states. */
  function Rank(s: RegistrationState): nat {
    match s
    case Constructed => 0
    case Registered => 1
    case Initialized => 2
    case Active => 3
    case PendingRemoval => 4
    case Unregistered => 5
  }

  /** One stage on, or straight to removal, and nothing after removal. */
  predicate Forward(from: RegistrationState, to: RegistrationState) {
    1 <= Rank(from) <= 3 && (Rank(to) == Rank(from) + 1 || to == PendingRemoval)
  }

  /** A state is stored exactly by a valid handle that resolves and one stage on, or straight to removal. */
  lemma SetStateDoneIff(r: Registry, h: Handle, target: RegistrationState)
    requires !r.dispatching
    ensures var a := Step(r, SetState(h, target));
      var known := h.id != 0 && h.generation != 0 && Resolves(r, h);
      && (a.reply == Done <==> known && Forward(r.rows[h.id].metadata.state, target))
      && (a.reply == Refused(NotFound) <==> h.id != 0 && h.generation != 0 && !Resolves(r, h))
      && (a.reply == Refused(InvalidArgument) <==>
            h.id == 0 || h.generation == 0 || (known && !Forward(r.rows[h.id].metadata.state, target)))
      && (a.reply != Done ==> a.registry == r)
      && (a.reply == Done ==>
            && OtherRowsSame(r, a.registry, h.id) && h.id in a.registry.rows
            && a.registry.rows[h.id]
                 == r.rows[h.id].(metadata := r.rows[h.id].metadata.(state := target))
            && a.registry == r.(rows := a.registry.rows))
  {
  }

  /** A reservation always answers, with the first id from the cursor that is neither live nor was ever issued. */
  lemma ReserveAnswers(r: Registry)
    requires !r.dispatching
    ensures var a := Step(r, Reserve);
      && a.reply.ReservedId? && a.reply.id >= r.nextReserved
      && a.reply.id !in r.rows && a.reply.id !in r.generations
      && (forall k :: r.nextReserved <= k < a.reply.id ==> k in r.rows || k in r.generations)
      && a.registry == r.(nextReserved := a.reply.id + 1)
  {
  }

  /** While an event is being delivered every request is refused as it stands. */
  lemma RefusedWhileDispatching(r: Registry, q: Request)
    requires r.dispatching
    ensures Step(r, q) == Answer(r, Refused(Internal))
  {
  }

  // ------------------------------------------------------------- which handles resolve, over runs

  /** The operation takes this handle away. */
  predicate Ends(r: Registry, op: Operation, h: Handle) {
    op == ClearAll || (op == Call(Unregister(h)) && Perform(r, op).reply == Done)
  }

  /** One operation: a handle resolves afterwards if it was issued by it, or resolved and was not taken away. */
  lemma ResolvesStep(r: Registry, op: Operation, h: Handle)
    requires Sound(r)
    ensures Resolves(Perform(r, op).registry, h) <==>
      (op != ClearAll && Perform(r, op).reply == Issued(h)) || (Resolves(r, h) && !Ends(r, op, h))
  {
  }

  ghost predicate IssuedAt(ops: seq<Operation>, k: nat, h: Handle) {
    k < |ops| && ops[k].Call? && ReplyAt(EMPTY, ops, k) == Issued(h)
  }

  /** No operation after the k-th takes the handle away. */
  ghost predicate KeptSince(ops: seq<Operation>, k: nat, h: Handle) {
    |ops| <= k + 1
    || (KeptSince(ops[..|ops| - 1], k, h) && !Ends(Run(EMPTY, ops[..|ops| - 1]), ops[|ops| - 1], h))
  }

  /** Issued at some time, and since then neither unregistered nor cleared. */
  ghost predicate IssuedAndKept(ops: seq<Operation>, h: Handle) {
    exists k: nat :: IssuedAt(ops, k, h) && KeptSince(ops, k, h)
  }

  lemma IssuedInPrefix(ops: seq<Operation>, n: nat, k: nat, h: Handle)
    requires k < n <= |ops|
    ensures IssuedAt(ops[..n], k, h) <==> IssuedAt(ops, k, h)
  {
    assert ops[..n][..k] == ops[..k];
  }

  lemma KeptStep(ops: seq<Operation>, h: Handle)
    requires ops != []
    ensures var n := |ops| - 1;
      IssuedAndKept(ops, h) <==>
        IssuedAt(ops, n, h) || (IssuedAndKept(ops[..n], h) && !Ends(Run(EMPTY, ops[..n]), ops[n], h))
  {
    hide IssuedAt, Ends, Run;
    var n := |ops| - 1;
    if IssuedAndKept(ops, h) {
      var k: nat :| IssuedAt(ops, k, h) && KeptSince(ops, k, h);
      IssuedWithin(ops, k, h);
      if k < n {
        IssuedInPrefix(ops, n, k, h);
      }
    }
    if IssuedAt(ops, n, h) {
      assert KeptSince(ops, n, h);
    } else if IssuedAndKept(ops[..n], h) {
      var k: nat :| IssuedAt(ops[..n], k, h) && KeptSince(ops[..n], k, h);
      IssuedWithin(ops[..n], k, h);
      IssuedInPrefix(ops, n, k, h);
    }
  }

  lemma IssuedWithin(ops: seq<Operation>, k: nat, h: Handle)
    requires IssuedAt(ops, k, h)
    ensures k < |ops|
  {
  }

  /**
   * In every run of any operations, a handle resolves exactly if it was issued, by a registration or a
   * restore, and since then neither unregistered under that very handle nor cleared with everything else.
   */
  lemma {:induction false} ResolvesIff(ops: seq<Operation>, h: Handle)
    ensures Resolves(Run(EMPTY, ops), h) <==> IssuedAndKept(ops, h)
  {
    if ops != [] {
      var n := |ops| - 1;
      ResolvesIff(ops[..n], h);
      EveryRunSound(ops[..n]);
      ResolvesStep(Run(EMPTY, ops[..n]), ops[n], h);
      KeptStep(ops, h);
    }
  }

  /** A handle that resolves at one point of a run resolves at every later one until it is taken away. */
  lemma {:induction false} StaysLive(ops: seq<Operation>, m: nat, n: nat, h: Handle)
    requires m <= n <= |ops| && Resolves(Run(EMPTY, ops[..m]), h)
    requires forall j :: m <= j < n ==> !Ends(Run(EMPTY, ops[..j]), ops[j], h)
    ensures Resolves(Run(EMPTY, ops[..n]), h)
  {
    hide Ends, Resolves, Sound, Perform;
    if m < n {
      StaysLive(ops, m, n - 1, h);
      EveryRunSound(ops[..n - 1]);
      ResolvesStep(Run(EMPTY, ops[..n - 1]), ops[n - 1], h);
      assert ops[..n] == ops[..n - 1] + [ops[n - 1]];
      RunSnoc(EMPTY, ops[..n - 1], ops[n - 1]);
    }
  }

  /** The first handle of an id is stale once it is unregistered, and harmless: the next entity stays. */
  lemma StaleUnregisterIsRefused(m: Metadata)
    ensures var ops := [Call(Register(7, "", m)), Call(Unregister(Handle(7, 1))), Call(Register(7, "", m))];
      var r := Run(EMPTY, ops);
      && Resolves(r, Handle(7, 2)) && !Resolves(r, Handle(7, 1))
      && Step(r, Unregister(Handle(7, 1))) == Answer(r, Refused(NotFound))
  {
    var a, b := Call(Register(7, "", m)), Call(Unregister(Handle(7, 1)));
    RunTwo(EMPTY, a, b);
    assert [a, b, a] == [a, b] + [a];
    RunSnoc(EMPTY, [a, b], a);
    var r := Run(EMPTY, [a, b, a]);
    EveryRunSound([a, b, a]);
    UnregisterDoneIff(r, Handle(7, 1));
  }

  // --------------------------------------------------------------- generations, over runs

  /** A registration never issues a generation of that id again, since the last Clear. */
  lemma RegisteredIsNewer(ops: seq<Operation>, m: nat, k: nat)
    requires m < k < |ops| && ClearAll !in ops[m..k]
    requires ReplyAt(EMPTY, ops, m).Issued? && ops[k].Call? && ops[k].request.Register?
    requires ReplyAt(EMPTY, ops, k).Issued?
    requires ReplyAt(EMPTY, ops, m).handle.id == ReplyAt(EMPTY, ops, k).handle.id
    ensures ReplyAt(EMPTY, ops, m).handle.generation < ReplyAt(EMPTY, ops, k).handle.generation
  {
    var id := ReplyAt(EMPTY, ops, m).handle.id;
    NoClearBetween(ops, m, m + 1, k);
    RunGrows(ops, m + 1, k);
    assert ops[m] in ops[m..k];
    assert ops[..m + 1] == ops[..m] + [ops[m]];
    RunSnoc(EMPTY, ops[..m], ops[m]);
    var q := ops[k].request;
    EveryRunSound(ops[..k]);
    RegisterIssues(Run(EMPTY, ops[..k]), q.id, q.name, q.metadata);
  }
}
