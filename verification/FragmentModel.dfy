/** Fragmentation.cpp as functions: splitting, reassembly per (connection, message), expiry. */
module FragmentModel {
  import opened Prelude

  datatype Fragment = Fragment(messageId: u16, index: u16, count: u16, bytes: seq<u8>)

  datatype Reassembly = Reassembly(count: u16, firstTick: nat, have: nat, parts: seq<Option<seq<u8>>>)

  type Pending = map<nat, Reassembly>

  /** The 16 low bits are the message, the rest the connection. */
  function Key(connection: nat, messageId: u16): nat {
    connection * 0x1_0000 + messageId
  }

  lemma KeyInjective(c: nat, m: u16, c': nat, m': u16)
    requires Key(c, m) == Key(c', m')
    ensures c == c' && m == m'
  {
  }

  // ------------------------------------------------------------------------- splitting

  function FragmentCount(total: nat, max: nat): nat
    requires max > 0
  {
    if total == 0 then 1 else (total + max - 1) / max
  }

  /** Where piece i starts; the last one stops at the end. */
  function Cut(total: nat, max: nat, i: nat): (at: nat)
    ensures at <= total
  {
    if i * max < total then i * max else total
  }

  /** Index and count travel as 16-bit fields. */
  function Piece(messageId: u16, payload: seq<u8>, max: nat, i: nat): Fragment
    requires max > 0
  {
    CutsAscend(|payload|, max, i);
    Fragment(messageId, i % 0x1_0000, FragmentCount(|payload|, max) % 0x1_0000,
             payload[Cut(|payload|, max, i)..Cut(|payload|, max, i + 1)])
  }

  lemma CutsAscend(total: nat, max: nat, i: nat)
    ensures Cut(total, max, i) <= Cut(total, max, i + 1) <= Cut(total, max, i) + max
  {
    assert (i + 1) * max == i * max + max;
  }

  function Split(messageId: u16, payload: seq<u8>, max: nat): seq<Fragment>
    requires max > 0
  {
    seq(FragmentCount(|payload|, max), i requires 0 <= i => Piece(messageId, payload, max, i))
  }

  // ------------------------------------------------------------------------ reassembly

  datatype Outcome = Incomplete | Completed(bytes: seq<u8>) | Rejected

  /** The parts, in index order; a missing one contributes nothing. */
  function Concat(parts: seq<Option<seq<u8>>>): seq<u8> {
    if parts == [] then []
    else
      var last := parts[|parts| - 1];
      Concat(parts[..|parts| - 1]) + if last.Some? then last.value else []
  }

  /** The reassembly a fragment goes into: the pending one, or an empty one. */
  function EntryFor(pending: Pending, key: nat, f: Fragment, tick: nat): Reassembly {
    if key in pending then pending[key] else Reassembly(f.count, tick, 0, seq(f.count, _ => None))
  }

  /** Storing a part; a duplicate changes nothing. */
  function Store(r: Reassembly, f: Fragment): Reassembly
    requires f.index < |r.parts|
  {
    if r.parts[f.index].Some? then r
    else r.(parts := r.parts[f.index := Some(f.bytes)], have := r.have + 1)
  }

  datatype Accepted = Accepted(pending: Pending, outcome: Outcome)

  predicate PartsMatch(pending: Pending) {
    forall k :: k in pending ==> |pending[k].parts| == pending[k].count
  }

  function Accept(pending: Pending, key: nat, f: Fragment, tick: nat): Accepted
    requires PartsMatch(pending)
  {
    if f.count == 0 || f.index >= f.count then Accepted(pending, Rejected)
    else
      var r := EntryFor(pending, key, f, tick);
      if r.count != f.count then Accepted(pending, Rejected)
      else
        var r1 := Store(r, f);
        if r1.have == r1.count then Accepted(pending - {key}, Completed(Concat(r1.parts)))
        else Accepted(pending[key := r1], Incomplete)
  }

  // ----------------------------------------------------------------------------- expiry

  predicate Expired(firstTick: nat, tick: nat, budget: nat) {
    tick >= firstTick && tick - firstTick > budget
  }

  function Prune(pending: Pending, tick: nat, budget: nat): Pending {
    map k | k in pending && !Expired(pending[k].firstTick, tick, budget) :: pending[k]
  }

  // ------------------------------------------------------------------------------- runs

  datatype Event = Arrival(connection: nat, fragment: Fragment, tick: nat) | PruneAt(tick: nat)

  function Step(pending: Pending, e: Event, budget: nat): (r: Accepted)
    requires PartsMatch(pending)
    ensures PartsMatch(r.pending)
  {
    match e
    case Arrival(c, f, tick) => Accept(pending, Key(c, f.messageId), f, tick)
    case PruneAt(tick) => Accepted(Prune(pending, tick, budget), Incomplete)
  }

  /** The events in order, from a map of pending entries; map[] is a fresh start. */
  function Run(start: Pending, events: seq<Event>, budget: nat): (r: Accepted)
    requires PartsMatch(start)
    ensures PartsMatch(r.pending)
  {
    if events == [] then Accepted(start, Incomplete)
    else Step(Run(start, events[..|events| - 1], budget).pending, events[|events| - 1], budget)
  }
}
