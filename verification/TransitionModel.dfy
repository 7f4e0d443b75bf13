/** TransitionManager.cpp as a step on intents, the staged batch, its records and the result. */
module TransitionModel {
  import opened Prelude
  import opened Sorted

  datatype State = Offline | PendingOnline | Online | PendingOffline

  datatype Kind = Activate | Deactivate

  datatype Outcome = Applied | AlreadyInState | EntityMissing | Failed

  datatype Command = Command(id: nat, kind: Kind)

  datatype Record = Record(id: nat, kind: Kind, outcome: Outcome)

  datatype Result = Result(broughtOnline: seq<nat>, broughtOffline: seq<nat>, tick: nat)

  /** The bubble's two lists for this tick. */
  datatype Delta = Delta(activations: seq<nat>, deactivations: seq<nat>)

  /** What the engine says this tick: who is online (unknown ids are absent), and the outcomes of Apply. */
  datatype Gateway = Gateway(truth: map<nat, bool>, outcomes: seq<Outcome>)

  /** Bubble, registry and gateway are each optional. */
  datatype Input = Input(tick: nat, bubble: Option<Delta>, registered: Option<set<nat>>, gateway: Option<Gateway>)

  type Intent = map<nat, State>

  datatype Manager = Manager(
    intent: Intent, batch: seq<Command>, records: seq<Record>, lastTick: nat, result: Result)

  const EMPTY := Manager(map[], [], [], 0, Result([], [], 0))

  function Get(intent: Intent, id: nat): State {
    if id in intent then intent[id] else Offline
  }

  predicate NeedsActivate(s: State) { s != Online && s != PendingOnline }

  predicate NeedsDeactivate(s: State) { s != Offline && s != PendingOffline }

  /** Online, or on the way there. */
  predicate HeadingOnline(s: State) { s == PendingOnline || s == Online }

  // ------------------------------------------------------------------------- reconcile

  function Confirmed(s: State, id: nat, truth: map<nat, bool>): State {
    if id !in truth then s
    else if s == PendingOnline && truth[id] then Online
    else if s == PendingOffline && !truth[id] then Offline
    else s
  }

  function Reconciled(intent: Intent, gateway: Option<Gateway>): Intent {
    match gateway
    case None => intent
    case Some(g) => map id | id in intent :: Confirmed(intent[id], id, g.truth)
  }

  // ------------------------------------------------------------------------------ staging

  datatype Staging = Staging(intent: Intent, batch: seq<Command>)

  predicate Registered(registered: Option<set<nat>>, id: nat) {
    registered.None? || id in registered.value
  }

  function StageActivation(s: Staging, id: nat, registered: Option<set<nat>>): Staging {
    if Registered(registered, id) && NeedsActivate(Get(s.intent, id))
    then Staging(s.intent[id := PendingOnline], s.batch + [Command(id, Activate)])
    else s
  }

  function StageDeactivation(s: Staging, id: nat, registered: Option<set<nat>>): Staging {
    if Registered(registered, id) && NeedsDeactivate(Get(s.intent, id))
    then Staging(s.intent[id := PendingOffline], s.batch + [Command(id, Deactivate)])
    else s
  }

  /** After the first n of the list. */
  function StageActivations(s: Staging, ids: seq<nat>, n: nat, registered: Option<set<nat>>): Staging
    requires n <= |ids|
  {
    if n == 0 then s else StageActivation(StageActivations(s, ids, n - 1, registered), ids[n - 1], registered)
  }

  function StageDeactivations(s: Staging, ids: seq<nat>, n: nat, registered: Option<set<nat>>): Staging
    requires n <= |ids|
  {
    if n == 0 then s else StageDeactivation(StageDeactivations(s, ids, n - 1, registered), ids[n - 1], registered)
  }

  function Stage(intent: Intent, d: Delta, registered: Option<set<nat>>): Staging {
    StageDeactivations(StageActivations(Staging(intent, []), d.activations, |d.activations|, registered),
                       d.deactivations, |d.deactivations|, registered)
  }

  /** Ascending id, then kind. */
  predicate Before(a: Command, b: Command) {
    a.id < b.id || (a.id == b.id && a.kind == Activate && b.kind == Deactivate)
  }

  function InsertCommand(sorted: seq<Command>, c: Command): seq<Command> {
    if sorted == [] then [c]
    else if Before(c, sorted[|sorted| - 1]) then InsertCommand(sorted[..|sorted| - 1], c) + [sorted[|sorted| - 1]]
    else sorted + [c]
  }

  function Sort(batch: seq<Command>): seq<Command> {
    if batch == [] then [] else InsertCommand(Sort(batch[..|batch| - 1]), batch[|batch| - 1])
  }

  // -------------------------------------------------------------------------------- apply

  /** Commands and outcomes paired up to the common length. */
  function RecordsOf(batch: seq<Command>, outcomes: seq<Outcome>): (rs: seq<Record>)
    ensures |rs| == if |outcomes| < |batch| then |outcomes| else |batch|
    ensures forall i :: 0 <= i < |rs| ==> rs[i] == Record(batch[i].id, batch[i].kind, outcomes[i])
  {
    var n := if |outcomes| < |batch| then |outcomes| else |batch|;
    seq(n, i requires 0 <= i < n => Record(batch[i].id, batch[i].kind, outcomes[i]))
  }

  /** The ids whose switch of this kind was performed, in record order. */
  function Brought(rs: seq<Record>, kind: Kind): seq<nat> {
    if rs == [] then []
    else
      var r := rs[|rs| - 1];
      Brought(rs[..|rs| - 1], kind) + if r.kind == kind && r.outcome == Applied then [r.id] else []
  }

  function ApplyBatch(m: Manager, gateway: Option<Gateway>): Manager {
    match gateway
    case None => m.(records := [], result := Result([], [], m.lastTick))
    case Some(g) =>
      var rs := RecordsOf(m.batch, g.outcomes);
      m.(records := rs, result := Result(Brought(rs, Activate), Brought(rs, Deactivate), m.lastTick))
  }

  /** Without a bubble the tick moves on and the batch is cleared, but records and result stay. */
  function Update(m: Manager, i: Input): Manager {
    var intent := Reconciled(m.intent, i.gateway);
    match i.bubble
    case None => m.(intent := intent, batch := [], lastTick := i.tick)
    case Some(d) =>
      var s := Stage(intent, d, i.registered);
      ApplyBatch(m.(intent := s.intent, batch := Sort(s.batch), lastTick := i.tick), i.gateway)
  }

  // ----------------------------------------------------------------------- the self-check

  ghost predicate BatchOrdered(m: Manager) {
    forall i, j :: 0 <= i < j < |m.batch| ==> m.batch[i].id < m.batch[j].id
  }

  ghost predicate StagedMatchesIntent(m: Manager) {
    forall i :: 0 <= i < |m.batch| ==>
      Get(m.intent, m.batch[i].id) == if m.batch[i].kind == Activate then PendingOnline else PendingOffline
  }

  /** Records are absent, or parallel to the batch. */
  ghost predicate RecordsMatchBatch(m: Manager) {
    m.records != [] ==>
      && |m.records| == |m.batch|
      && forall i :: 0 <= i < |m.records| ==> m.records[i].id == m.batch[i].id && m.records[i].kind == m.batch[i].kind
  }

  ghost predicate Backed(rs: seq<Record>, id: nat, kind: Kind) {
    exists i :: 0 <= i < |rs| && rs[i] == Record(id, kind, Applied)
  }

  ghost predicate ResultConsistent(m: Manager) {
    && Ascending(m.result.broughtOnline) && Ascending(m.result.broughtOffline) && m.result.tick == m.lastTick
    && (forall i :: 0 <= i < |m.result.broughtOnline| ==> Backed(m.records, m.result.broughtOnline[i], Activate))
    && (forall i :: 0 <= i < |m.result.broughtOffline| ==> Backed(m.records, m.result.broughtOffline[i], Deactivate))
  }

  ghost predicate Healthy(m: Manager) {
    BatchOrdered(m) && StagedMatchesIntent(m) && RecordsMatchBatch(m) && ResultConsistent(m)
  }
}
