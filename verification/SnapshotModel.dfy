/**
 * Pool, builder, queue and manager as one state machine on values. A buffer is named by its slot.
 * `holds` and `log` are history: the consumer references outstanding, and what was published.
 */
module SnapshotModel {
  import opened Prelude
  import opened SnapshotTypes

  datatype Slot = Slot(content: Snapshot, refCount: nat, inUse: bool)

  datatype Config = Config(maxEntities: nat, maxPlayers: nat, version: u32)

  /** One player record as the capture reads it; `removed` records are skipped. */
  datatype CapturedPlayer = CapturedPlayer(removed: bool, player: PlayerSnapshot)

  /** What the capture sources yield in one tick: anything. */
  datatype Capture = Capture(
    entities: seq<EntitySnapshot>, players: seq<CapturedPlayer>, weather: Option<(u32, bool)>)

  datatype Publication = Publication(id: nat, tick: nat)

  datatype System = System(
    config: Config,
    slots: seq<Slot>,
    inUse: nat,
    building: Option<nat>,
    nextId: nat,
    current: Option<nat>,
    published: nat,
    tick: nat,
    built: nat,
    publishedCount: nat,
    holds: multiset<nat>,
    log: seq<Publication>)

  // -------------------------------------------------------------------------- the pool

  /** Acquire: the lowest slot not in use, or |slots|. */
  function FirstFree(slots: seq<Slot>, i: nat): (k: nat)
    requires i <= |slots|
    ensures i <= k <= |slots|
    ensures forall j :: i <= j < k ==> slots[j].inUse
    ensures k < |slots| ==> !slots[k].inUse
    decreases |slots| - i
  {
    if i == |slots| || !slots[i].inUse then i else FirstFree(slots, i + 1)
  }

  function AcquireSlot(s: System, i: nat): System
    requires i < |s.slots|
  {
    s.(slots := s.slots[i := s.slots[i].(inUse := true, refCount := 1)], inUse := s.inUse + 1)
  }

  function AddRef(s: System, i: nat): System {
    if i < |s.slots| && s.slots[i].inUse
    then s.(slots := s.slots[i := s.slots[i].(refCount := s.slots[i].refCount + 1)])
    else s
  }

  /** Unknown and free buffers are ignored; the last reference frees the slot. */
  function ReturnToPool(s: System, i: nat): System {
    if i >= |s.slots| || !s.slots[i].inUse then s
    else
      var slot := s.slots[i];
      var rc := if slot.refCount > 0 then slot.refCount - 1 else 0;
      if rc == 0
      then s.(slots := s.slots[i := slot.(refCount := 0, inUse := false)],
              inUse := if s.inUse > 0 then s.inUse - 1 else 0)
      else s.(slots := s.slots[i := slot.(refCount := rc)])
  }

  function Write(s: System, i: nat, content: Snapshot): System
    requires i < |s.slots|
  {
    s.(slots := s.slots[i := s.slots[i].(content := content)])
  }

  // ------------------------------------------------------------------------- the builder

  /** A capture step: the buffer afterwards, and whether the step succeeded. */
  datatype Fill = Fill(content: Snapshot, ok: bool)

  function AddEntitiesFrom(c: Snapshot, es: seq<EntitySnapshot>, i: nat): Fill
    requires i <= |es|
    decreases |es| - i
  {
    if i == |es| then Fill(c, true)
    else if !CanAddEntity(c, es[i]) then Fill(c, false)
    else AddEntitiesFrom(c.(entities := c.entities + [es[i]]), es, i + 1)
  }

  function AddPlayersFrom(c: Snapshot, ps: seq<CapturedPlayer>, i: nat, count: nat, max: nat): Fill
    requires i <= |ps|
    decreases |ps| - i
  {
    if i == |ps| then Fill(c, true)
    else if ps[i].removed then AddPlayersFrom(c, ps, i + 1, count, max)
    else if count >= max || !CanAddPlayer(c, ps[i].player) then Fill(c, false)
    else AddPlayersFrom(c.(players := c.players + [ps[i].player]), ps, i + 1, count + 1, max)
  }

  function EnvironmentOf(tick: u64, weather: Option<(u32, bool)>): EnvironmentSnapshot {
    match weather
    case None => EnvironmentSnapshot(tick, 0, 0, 0, 0, 0)
    case Some(w) => EnvironmentSnapshot(tick, w.0, 0, if w.1 then 1 else 0, 0, 0)
  }

  function Captured(c: Snapshot, config: Config, input: Capture): Fill {
    if |input.entities| > config.maxEntities then Fill(c, false)
    else
      var e := AddEntitiesFrom(c, input.entities, 0);
      if !e.ok then e
      else
        var p := AddPlayersFrom(e.content, input.players, 0, 0, config.maxPlayers);
        if !p.ok then p
        else if p.content.metadata.state != Building then Fill(p.content, false)
        else Fill(p.content.(environment := EnvironmentOf(p.content.metadata.simulationTick, input.weather)), true)
  }

  /** AbortToPool: an abandoned build gives its buffer back. */
  function Abort(s: System): System {
    match s.building
    case None => s
    case Some(i) => ReturnToPool(s, i).(building := None)
  }

  /** Slot i becomes the build: one reference, and the next snapshot id written into it. */
  function Take(s: System, i: nat): System
    requires i < |s.slots|
  {
    Write(AcquireSlot(s, i), i, Begun(s.nextId, Low64(s.tick), s.config.version))
      .(building := Some(i), nextId := s.nextId + 1)
  }

  /** BeginBuild: afterwards `building` names the buffer, or is None when the pool is exhausted. */
  function TakeFree(s: System): System {
    var i := FirstFree(s.slots, 0);
    if i == |s.slots| then s else Take(s, i)
  }

  /** What beginning a build leaves alone. */
  ghost predicate SameOutsideBuild(s: System, s': System) {
    && s'.config == s.config && s'.current == s.current && s'.published == s.published && s'.tick == s.tick
    && s'.built == s.built && s'.publishedCount == s.publishedCount && s'.holds == s.holds && s'.log == s.log
  }

  function BeginBuild(s: System): (s': System)
    ensures SameOutsideBuild(s, s')
  {
    TakeFree(Abort(s))
  }

  // --------------------------------------------------------------------------- the queue

  function Publish(s: System, i: nat): System {
    var s1 := s.(current := Some(i), published := s.published + 1);
    match s.current
    case None => s1
    case Some(superseded) => ReturnToPool(s1, superseded)
  }

  function ConsumerAcquire(s: System): System {
    match s.current
    case None => s
    case Some(i) => AddRef(s, i).(holds := s.holds + multiset{i})
  }

  function ConsumerRelease(s: System, i: nat): System {
    ReturnToPool(s, i).(holds := s.holds - multiset{i})
  }

  // ------------------------------------------------------------------------- the manager

  /** Seal the build and let go of it. */
  function Seal(s: System): System
    requires s.building.Some? && s.building.value < |s.slots|
  {
    Write(s, s.building.value, Sealed(s.slots[s.building.value].content)).(building := None, built := s.built + 1)
  }

  /** Hand a sealed buffer to the queue and record the publication. */
  function HandOver(s: System, i: nat): System
    requires i < |s.slots|
  {
    Recorded(Publish(s, i), s.slots[i].content.metadata.id)
  }

  function Recorded(s: System, id: nat): System {
    s.(publishedCount := s.publishedCount + 1, log := s.log + [Publication(id, s.tick)])
  }

  function Finish(s: System): System
    requires s.building.Some? && s.building.value < |s.slots|
  {
    HandOver(Seal(s), s.building.value)
  }

  /** Capture into the buffer being built, then publish it or give it back. */
  function Complete(s: System, input: Capture): System
    requires s.building.Some? && s.building.value < |s.slots|
  {
    var i := s.building.value;
    var fill := Captured(s.slots[i].content, s.config, input);
    var s1 := Write(s, i, fill.content);
    if fill.ok then Finish(s1) else Abort(s1)
  }

  function Continue(s: System, input: Capture): System {
    if s.building.None? || s.building.value >= |s.slots| then s else Complete(s, input)
  }

  /** The tick counter moves on. */
  function Next(s: System): System {
    s.(tick := s.tick + 1)
  }

  function Tick(s: System, input: Capture): System {
    Continue(BeginBuild(Next(s)), input)
  }

  function Initial(config: Config, capacity: nat): System {
    System(config, seq(capacity, _ => Slot(FRESH_SNAPSHOT, 0, false)), 0, None, 1, None, 0, 0, 0, 0, multiset{}, [])
  }

  datatype Event = TickEvent(input: Capture) | AcquireEvent | ReleaseEvent(slot: nat)

  function Step(s: System, e: Event): System {
    match e
    case TickEvent(input) => Tick(s, input)
    case AcquireEvent => ConsumerAcquire(s)
    case ReleaseEvent(i) => ConsumerRelease(s, i)
  }

  function Run(s: System, events: seq<Event>): System {
    if events == [] then s else Step(Run(s, events[..|events| - 1]), events[|events| - 1])
  }
}
