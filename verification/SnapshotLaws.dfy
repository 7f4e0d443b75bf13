/** What a tick publishes, and exactly when. */
module SnapshotLaws {
  import opened Prelude
  import opened SnapshotTypes
  import opened SnapshotModel
  import opened SnapshotTheorems

  /** The sources are in order and within the configured limits. */
  ghost predicate Capturable(config: Config, input: Capture) {
    && |input.entities| <= config.maxEntities && AscendingEntities(input.entities)
    && |Kept(input.players)| <= config.maxPlayers && AscendingPlayers(Kept(input.players))
  }

  /** The snapshot a consumer gets to see of one tick. */
  ghost predicate Shows(c: Snapshot, id: nat, tick: u64, version: u32, input: Capture) {
    && c.metadata == Metadata(id, tick, version, Low32(|input.entities|), Low32(|Kept(input.players)|), 0, Finalized)
    && c.entities == input.entities && c.players == Kept(input.players)
    && c.environment.simulationTick == tick
    && (input.weather.Some? ==>
          && c.environment.weatherId == input.weather.value.0
          && c.environment.emissionState == if input.weather.value.1 then 1 else 0)
    && (input.weather.None? ==> c.environment.weatherId == c.environment.emissionState == 0)
    && c.environment.timeOfDaySeconds == c.environment.lighting == c.environment.environmentVersion == 0
  }

  /** Sealed, a successful capture is what the consumers are to see. */
  lemma CapturedShows(id: nat, tick: u64, config: Config, input: Capture)
    ensures var f := Captured(Begun(id, tick, config.version), config, input);
      && (f.ok <==> Capturable(config, input))
      && (f.ok ==> Shows(Sealed(f.content), id, tick, config.version, input))
  {
    CaptureSucceedsIff(id, tick, config, input);
  }

  /** The counters of a tick. */
  ghost predicate Counted(s: System, s': System, published: bool) {
    && s'.tick == s.tick + 1 && s'.config == s.config
    && s'.built == s.built + (if published then 1 else 0)
    && s'.published == s.published + (if published then 1 else 0)
    && s'.publishedCount == s.publishedCount + (if published then 1 else 0)
  }

  /** The publication, the buffer it is in, and what is in it. */
  ghost predicate Publishes(s: System, s': System, input: Capture) {
    && s'.log == s.log + [Publication(s.nextId, s.tick + 1)]
    && s'.current.Some? && s'.current.value < |s'.slots| && s'.current.value !in Owners(s)
    && Shows(s'.slots[s'.current.value].content, s.nextId, Low64(s.tick + 1), s.config.version, input)
    && Counted(s, s', true)
  }

  lemma FinishCounts(s2: System)
    requires s2.building.Some? && s2.building.value < |s2.slots|
    ensures var r := Finish(s2);
      && r.built == s2.built + 1 && r.published == s2.published + 1 && r.publishedCount == s2.publishedCount + 1
      && r.config == s2.config && r.nextId == s2.nextId
  {
  }

  lemma AbortCounts(s2: System)
    ensures var r := Abort(s2);
      && r.built == s2.built && r.published == s2.published && r.publishedCount == s2.publishedCount
      && r.config == s2.config && r.nextId == s2.nextId && r.tick == s2.tick
      && r.log == s2.log && r.current == s2.current
  {
  }

  /** A build in a free buffer ends in a publication exactly if the sources can be captured. */
  lemma CompletePublishes(s: System, t: System, s1: System, input: Capture)
    requires Inv(s) && t == Next(s) && Inv(t) && Owners(t) == Owners(s)
    requires s1.building.Some? && BuildingOn(t, s1, s1.building.value)
    requires s1.slots[s1.building.value].content == Begun(s.nextId, Low64(t.tick), s.config.version)
    requires s1.built == s.built && s1.published == s.published && s1.publishedCount == s.publishedCount
    ensures Complete(s1, input).nextId == s1.nextId
    ensures Capturable(s.config, input) ==> Publishes(s, Complete(s1, input), input)
    ensures !Capturable(s.config, input) ==>
      var r := Complete(s1, input); r.log == s.log && r.current == s.current && Counted(s, r, false)
  {
    hide WellFormed, CountInUse, Captured, Good, Shows, Finish, Abort;
    var i := s1.building.value;
    CapturedShows(s.nextId, Low64(t.tick), s.config, input);
    CaptureSucceedsIff(s.nextId, Low64(t.tick), s.config, input);
    var fill := Captured(s1.slots[i].content, s1.config, input);
    WriteBalanced(s1, Owners(t) + multiset{i}, i, fill.content);
    var s2 := Write(s1, i, fill.content);
    assert BuildingOn(t, s2, i);
    if fill.ok {
      FinishKeeps(t, s2, i);
      FinishCounts(s2);
    } else {
      AbortCounts(s2);
    }
  }

  /** What is left when no buffer is free: the tick has moved on, and nothing else. */
  lemma NoBufferSkips(s: System, input: Capture)
    requires Inv(s) && BeginBuild(Next(s)).building.None?
    ensures Tick(s, input) == s.(tick := s.tick + 1)
  {
    NextTick(s);
    BeginBuildTakesFree(Next(s), BeginBuild(Next(s)));
  }

  /**
   * A tick publishes exactly if fewer distinct buffers are held than there are and the sources can be captured.
   * Then the next snapshot id, of this tick, is current, finalized, in a buffer nobody held, with exactly what
   * was sampled. Otherwise what was current stays, and nothing is logged. A tick with a free buffer uses up one
   * snapshot id, whether or not it publishes.
   */
  lemma TickPublishesIff(s: System, input: Capture)
    requires Inv(s)
    ensures var s' := Tick(s, input);
      if |HeldSlots(s)| < |s.slots| && Capturable(s.config, input) then Publishes(s, s', input)
      else s'.log == s.log && s'.current == s.current && Counted(s, s', false)
    ensures Tick(s, input).nextId == s.nextId + if |HeldSlots(s)| < |s.slots| then 1 else 0
  {
    hide Captured, WellFormed, Capturable, Shows, Balanced, Complete;
    var t := Next(s);
    NextTick(s);
    BuildStarts(s);
    var s1 := BeginBuild(t);
    BeginBuildTakesFree(t, s1);
    if s1.building.None? {
      NoBufferSkips(s, input);
    } else {
      CompletePublishes(s, t, s1, input);
    }
  }

  /** The first snapshot there is has id 1 and tick 1. */
  lemma FirstTick(config: Config, capacity: nat, input: Capture)
    requires capacity > 0 && Capturable(config, input)
    ensures Tick(Initial(config, capacity), input).log == [Publication(1, 1)]
  {
    var s := Initial(config, capacity);
    InitialInv(config, capacity);
    TickPublishesIff(s, input);
    assert HeldSlots(s) == {};
    assert s.log + [Publication(1, 1)] == [Publication(1, 1)];
  }

  /** A consumer that acquires gets the current snapshot, as it was published, and holds it from then on. */
  lemma AcquireHolds(s: System)
    requires Inv(s)
    ensures s.current.None? ==> ConsumerAcquire(s) == s
    ensures s.current.Some? ==>
      && ConsumerAcquire(s).holds == s.holds + multiset{s.current.value}
      && ConsumerAcquire(s).current == s.current && ConsumerAcquire(s).log == s.log
      && |ConsumerAcquire(s).slots| == |s.slots|
      && forall k :: 0 <= k < |s.slots| ==>
           && ConsumerAcquire(s).slots[k].content == s.slots[k].content
           && ConsumerAcquire(s).slots[k].refCount
                == s.slots[k].refCount + (if s.current == Some(k) then 1 else 0)
  {
    if s.current.Some? {
      assert s.current.value in Owners(s);
    }
  }

  /** A paired release gives that one reference back; the buffer is free again exactly if it was the last. */
  lemma ReleaseGivesBack(s: System, i: nat)
    requires Inv(s) && i in s.holds
    ensures var r := ConsumerRelease(s, i);
      && r.holds == s.holds - multiset{i} && r.current == s.current && r.log == s.log && |r.slots| == |s.slots|
      && i < |s.slots| && r.slots[i].refCount == s.slots[i].refCount - 1
      && (r.slots[i].inUse <==> s.holds[i] > 1 || s.current == Some(i))
      && forall k :: 0 <= k < |s.slots| && k != i ==> r.slots[k] == s.slots[k]
  {
    assert i in Owners(s);
  }
}
