/** EntityRegistry.cpp on values: live rows by id, the generation counters, and the reservation cursor. */
module EntityModel {
  import opened Prelude

  datatype RegistrationState = Constructed | Registered | Initialized | Active | PendingRemoval | Unregistered

  datatype Metadata = Metadata(
    category: u8, section: string, flags: u32, creationTick: u64, spawnSource: u8, state: RegistrationState)

  datatype Handle = Handle(id: nat, generation: nat)

  datatype Row = Row(generation: nat, name: string, metadata: Metadata)

  datatype Registry = Registry(
    rows: map<nat, Row>, generations: map<nat, nat>, nextReserved: nat, dispatching: bool, destroyed: nat)

  const EMPTY := Registry(map[], map[], 0x10000, false, 0)

  datatype Error = Internal | InvalidArgument | AlreadyExists | NotFound

  /** The calls that the dispatch guard refuses while an event is being delivered. */
  datatype Request =
    | Register(id: nat, name: string, metadata: Metadata)
    | Unregister(handle: Handle)
    | Restore(restored: Handle, name: string, metadata: Metadata)
    | SetState(handle: Handle, target: RegistrationState)
    | Reserve

  datatype Reply = Issued(handle: Handle) | ReservedId(id: nat) | Done | Refused(error: Error)

  datatype Answer = Answer(registry: Registry, reply: Reply)

  predicate IsValid(h: Handle) { h.id != 0 && h.generation != 0 }

  /** FindByHandle: a live row of that id and generation. */
  predicate Resolves(r: Registry, h: Handle) {
    h.id in r.rows && r.rows[h.id].generation == h.generation
  }

  function LastGeneration(r: Registry, id: nat): nat {
    if id in r.generations then r.generations[id] else 0
  }

  predicate LegalTransition(from: RegistrationState, to: RegistrationState) {
    match from
    case Registered => to == Initialized || to == PendingRemoval
    case Initialized => to == Active || to == PendingRemoval
    case Active => to == PendingRemoval
    case _ => false
  }

  /** First id from n on that is not taken. */
  function FirstFree(n: nat, taken: set<nat>): (id: nat)
    ensures id >= n && id !in taken && forall k :: n <= k < id ==> k in taken
    decreases |taken|
  {
    if n !in taken then n
    else
      assert |taken - {n}| < |taken|;
      var id := FirstFree(n + 1, taken - {n});
      assert forall k {:trigger k in taken} :: n <= k < id ==> k == n || k in taken - {n};
      id
  }

  function DoRegister(r: Registry, id: nat, name: string, metadata: Metadata): Answer {
    if id == 0 then Answer(r, Refused(InvalidArgument))
    else if id in r.rows then Answer(r, Refused(AlreadyExists))
    else
      var g := LastGeneration(r, id) + 1;
      Answer(r.(rows := r.rows[id := Row(g, name, metadata.(state := Registered))],
                generations := r.generations[id := g]),
             Issued(Handle(id, g)))
  }

  function DoUnregister(r: Registry, h: Handle): Answer {
    if !IsValid(h) then Answer(r, Refused(InvalidArgument))
    else if !Resolves(r, h) then Answer(r, Refused(NotFound))
    else Answer(Dropped(r, h.id), Done)
  }

  function Dropped(r: Registry, id: nat): Registry {
    r.(rows := r.rows - {id}, destroyed := r.destroyed + 1)
  }

  function DoRestore(r: Registry, h: Handle, name: string, metadata: Metadata): Answer {
    if !IsValid(h) then Answer(r, Refused(InvalidArgument))
    else if h.id in r.rows then Answer(r, Refused(AlreadyExists))
    else
      var last := LastGeneration(r, h.id);
      Answer(r.(rows := r.rows[h.id := Row(h.generation, name, metadata)],
                generations := r.generations[h.id := if h.generation > last then h.generation else last]),
             Issued(h))
  }

  function DoSetState(r: Registry, h: Handle, target: RegistrationState): Answer {
    if !IsValid(h) then Answer(r, Refused(InvalidArgument))
    else if !Resolves(r, h) then Answer(r, Refused(NotFound))
    else
      var row := r.rows[h.id];
      if !LegalTransition(row.metadata.state, target) then Answer(r, Refused(InvalidArgument))
      else Answer(r.(rows := r.rows[h.id := row.(metadata := row.metadata.(state := target))]), Done)
  }

  function DoReserve(r: Registry): Answer {
    var id := FirstFree(r.nextReserved, r.rows.Keys + r.generations.Keys);
    Answer(r.(nextReserved := id + 1), ReservedId(id))
  }

  /** While an event is being delivered every mutation is refused. */
  function Step(r: Registry, q: Request): Answer {
    if r.dispatching then Answer(r, Refused(Internal))
    else
      match q
      case Register(id, name, metadata) => DoRegister(r, id, name, metadata)
      case Unregister(h) => DoUnregister(r, h)
      case Restore(h, name, metadata) => DoRestore(r, h, name, metadata)
      case SetState(h, target) => DoSetState(r, h, target)
      case Reserve => DoReserve(r)
  }

  /** A public mutation: one of the guarded ones, or Clear, which has no guard. */
  datatype Operation = Call(request: Request) | ClearAll

  /** Clear resets everything, the guard's flag included. */
  function Perform(r: Registry, op: Operation): Answer {
    match op
    case Call(q) => Step(r, q)
    case ClearAll => Answer(EMPTY, Done)
  }

  /** Operations in order: a run of the registry, or what one callback does. */
  function Run(r: Registry, ops: seq<Operation>): Registry {
    if ops == [] then r else Perform(Run(r, ops[..|ops| - 1]), ops[|ops| - 1]).registry
  }

  /** The reply to the k-th operation of a run. */
  function ReplyAt(r: Registry, ops: seq<Operation>, k: nat): Reply
    requires k < |ops|
  {
    Perform(Run(r, ops[..k]), ops[k]).reply
  }

  /** The callbacks of one event, one after the other. */
  function Heard(r: Registry, callbacks: seq<seq<Operation>>): Registry {
    if callbacks == [] then r
    else Run(Heard(r, callbacks[..|callbacks| - 1]), callbacks[|callbacks| - 1])
  }

  /** None of these callbacks calls Clear. */
  predicate Guarded(callbacks: seq<seq<Operation>>) {
    forall i :: 0 <= i < |callbacks| ==> ClearAll !in callbacks[i]
  }
}
