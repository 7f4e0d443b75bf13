/** What is not a save does not load: cut short, changed in a byte, or with another digest. */
module SaveRefusals {
  import opened Prelude
  import opened Wire
  import opened SnapshotTypes
  import opened SaveModel
  import opened SaveTheorems
  import opened DigestLaws

  // --------------------------------------------------------------------- where things are

  /** The payload of a section that starts at `at`, where its size is known: fixed, counted, or as stated. */
  ghost function PayloadSize(d: seq<u8>, id: u16, at: nat): Option<nat>
    requires at + 6 <= |d|
  {
    if id == WORLD then Some(28)
    else if id == ALIFE then Counted(d, at, 28)
    else if id == ENVIRONMENT then Some(20)
    else if id == REGISTRY then Counted(d, at, 56)
    else if id == PLAYERS then Counted(d, at, 33)
    else if id == SCHEDULER then Some(28)
    else if id == STORY then Some(Word(d, at + 2))
    else Some(40)
  }

  ghost function Counted(d: seq<u8>, at: nat, size: nat): Option<nat>
    requires at + 6 <= |d|
  {
    if at + 10 <= |d| then Some(4 + size * Word(d, at + 6)) else None
  }

  /** Where the section ends that starts at `at`; None if it is not that section or does not fit. */
  ghost function Behind(d: seq<u8>, id: u16, at: nat): Option<nat> {
    if at + 6 > |d| || Field(d, at, 2) != id then None
    else
      var size := PayloadSize(d, id, at);
      if size.None? || at + 6 + size.value > |d| then None else Some(at + 6 + size.value)
  }

  /** Where the sections end, one after the other. */
  ghost function End(d: seq<u8>, ids: seq<u16>, at: nat): Option<nat>
    decreases |ids|
  {
    if ids == [] then Some(at)
    else
      var next := Behind(d, ids[0], at);
      if next.None? then None else End(d, ids[1..], next.value)
  }

  lemma FixedBehind(d: seq<u8>, id: u16, c: Cursor)
    requires id in {WORLD, ENVIRONMENT, SCHEDULER, METADATA}
    ensures var r := ReadSection(d, id, c);
      (r.Some? <==> Behind(d, id, c.at).Some?) && (r.Some? ==> Behind(d, id, c.at) == Some(r.value.at))
  {
    hide WorldAt, EnvironmentAt, SchedulerAt, MetadataAt;
  }

  lemma CountedBehind(d: seq<u8>, id: u16, c: Cursor)
    requires id in {REGISTRY, PLAYERS, ALIFE}
    ensures var r := ReadSection(d, id, c);
      (r.Some? <==> Behind(d, id, c.at).Some?) && (r.Some? ==> Behind(d, id, c.at) == Some(r.value.at))
  {
    hide EntitiesAt, PlayersAt, AlifesAt, Word;
  }

  lemma ReadsBehind(d: seq<u8>, id: u16, c: Cursor)
    requires id in ORDER
    ensures var r := ReadSection(d, id, c);
      (r.Some? <==> Behind(d, id, c.at).Some?) && (r.Some? ==> Behind(d, id, c.at) == Some(r.value.at))
  {
    if id in {REGISTRY, PLAYERS, ALIFE} {
      CountedBehind(d, id, c);
    } else if id != STORY {
      FixedBehind(d, id, c);
    }
  }

  /** The digest of everything before the trailer is what the trailer says. */
  ghost predicate Sealed(d: seq<u8>, e: nat) {
    e + 8 <= |d| && Fnv64(d[..e]) == Long(d, e)
  }

  /** How the reader answers, by where the sections end. */
  ghost predicate Answers(d: seq<u8>, end: Option<nat>, r: ParseResult) {
    if end.None? || end.value + 8 > |d| then r == Failed(CorruptedSave)
    else if Sealed(d, end.value) then r.Parsed?
    else r == Failed(ChecksumFailure)
  }

  lemma {:induction false} SectionsAnswer(d: seq<u8>, ids: seq<u16>, c: Cursor)
    requires forall id :: id in ids ==> id in ORDER
    ensures Answers(d, End(d, ids, c.at), ParseSections(d, ids, c))
    decreases |ids|
  {
    if ids != [] {
      hide ReadSection, Behind, Sealed, ParseTrailer;
      ReadsBehind(d, ids[0], c);
      var r := ReadSection(d, ids[0], c);
      if r.Some? {
        SectionsAnswer(d, ids[1..], r.value);
      }
    }
  }

  /**
   * Bytes load exactly if they start with the magic number and the version, their sections fit one after the other
   * in order, and the trailer behind them is the digest of everything before it. Each kind of refusal is told apart.
   */
  lemma {:induction false} LoadsIff(d: seq<u8>)
    ensures var r := Parse(d);
      if |d| < 8 || Word(d, 0) != 0x53504D53 then r == Failed(CorruptedSave)
      else if Word(d, 4) != 1 then r == Failed(VersionMismatch)
      else Answers(d, End(d, ORDER, 8), r)
    ensures ORDER == [1, 2, 3, 4, 5, 6, 7, 8]
  {
    hide ParseSections, End, Answers, Word;
    SectionsAnswer(d, ORDER, Cursor(8, NO_SAVE));
  }

  // --------------------------------------------------------------------------- cut short

  lemma PrefixField(d: seq<u8>, n: nat, at: nat, size: nat)
    requires at + size <= n <= |d|
    ensures Field(d[..n], at, size) == Field(d, at, size)
  {
    assert d[..n][at..at + size] == d[at..at + size];
  }

  lemma PrefixBehind(d: seq<u8>, n: nat, id: u16, at: nat)
    requires n <= |d| && Behind(d[..n], id, at).Some?
    ensures Behind(d, id, at) == Behind(d[..n], id, at) && Behind(d[..n], id, at).value <= n
  {
    hide FromLE;
    PrefixField(d, n, at, 2);
    PrefixField(d, n, at + 2, 4);
    if at + 10 <= n {
      PrefixField(d, n, at + 6, 4);
    }
  }

  lemma {:induction false} PrefixEnd(d: seq<u8>, n: nat, ids: seq<u16>, at: nat)
    requires at <= n <= |d| && End(d[..n], ids, at).Some?
    ensures End(d, ids, at) == End(d[..n], ids, at) && End(d[..n], ids, at).value <= n
    decreases |ids|
  {
    if ids != [] {
      hide Behind;
      PrefixBehind(d, n, ids[0], at);
      PrefixEnd(d, n, ids[1..], Behind(d[..n], ids[0], at).value);
    }
  }

  /** Of a save that loads, nothing that stops before the end of the trailer does. */
  lemma {:induction false} CutShortNeverLoads(d: seq<u8>, n: nat)
    requires Parse(d).Parsed? && n <= |d|
    ensures End(d, ORDER, 8).Some? && (n < End(d, ORDER, 8).value + 8 ==> Parse(d[..n]) == Failed(CorruptedSave))
  {
    LoadsIff(d);
    LoadsIff(d[..n]);
    hide End, Parse, ParseSections, FromLE;
    if n >= 8 {
      PrefixField(d, n, 0, 4);
      PrefixField(d, n, 4, 4);
      if End(d[..n], ORDER, 8).Some? {
        PrefixEnd(d, n, ORDER, 8);
      }
    }
  }

  // ------------------------------------------------------------------------ one byte changed

  lemma {:induction false} FromLETells(b: seq<u8>, k: nat, x: u8)
    requires k < |b| && b[k] != x
    ensures FromLE(b[k := x]) != FromLE(b)
    decreases |b|
  {
    if k == 0 {
      assert b[k := x][1..] == b[1..];
    } else {
      FromLETells(b[1..], k - 1, x);
      assert b[k := x][1..] == b[1..][k - 1 := x];
    }
  }

  lemma FieldTells(d: seq<u8>, k: nat, x: u8, at: nat, size: nat)
    requires at <= k < at + size <= |d| && d[k] != x
    ensures Field(d[k := x], at, size) != Field(d, at, size)
  {
    hide FromLE;
    assert d[k := x][at..at + size] == d[at..at + size][k - at := x];
    FromLETells(d[at..at + size], k - at, x);
  }

  lemma FieldKept(d: seq<u8>, k: nat, x: u8, at: nat, size: nat)
    requires k < |d| && at + size <= |d| && !(at <= k < at + size)
    ensures Field(d[k := x], at, size) == Field(d, at, size)
  {
    assert d[k := x][at..at + size] == d[at..at + size];
  }

  /** A byte of a section's id. */
  ghost predicate InLabel(at: nat, k: nat) {
    at <= k < at + 2
  }

  /** A byte of the count of a counted section, or of the stated length of the story section. */
  ghost predicate InCount(id: u16, at: nat, k: nat) {
    if id == STORY then at + 2 <= k < at + 6 else id in {REGISTRY, PLAYERS, ALIFE} && at + 6 <= k < at + 10
  }

  /** Where a section ends does not depend on any other byte of it. */
  lemma BehindKept(d: seq<u8>, k: nat, x: u8, id: u16, at: nat)
    requires k < |d| && !InLabel(at, k) && !InCount(id, at, k)
    ensures Behind(d[k := x], id, at) == Behind(d, id, at)
  {
    hide FromLE;
    if at + 6 <= |d| {
      FieldKept(d, k, x, at, 2);
      if id == STORY {
        FieldKept(d, k, x, at + 2, 4);
      }
      if id in {REGISTRY, PLAYERS, ALIFE} && at + 10 <= |d| {
        FieldKept(d, k, x, at + 6, 4);
      }
    }
  }

  lemma BehindLost(d: seq<u8>, k: nat, x: u8, id: u16, at: nat)
    requires k < |d| && d[k] != x && InLabel(at, k) && Behind(d, id, at).Some?
    ensures Behind(d[k := x], id, at).None?
  {
    hide FromLE;
    FieldTells(d, k, x, at, 2);
  }

  /** A byte of the id of one of the sections. */
  ghost predicate Label(d: seq<u8>, ids: seq<u16>, at: nat, k: nat)
    decreases |ids|
  {
    && ids != []
    && (InLabel(at, k)
        || (Behind(d, ids[0], at).Some? && Label(d, ids[1..], Behind(d, ids[0], at).value, k)))
  }

  /** A byte of a count or a stated length that says where the next section starts. */
  ghost predicate Count(d: seq<u8>, ids: seq<u16>, at: nat, k: nat)
    decreases |ids|
  {
    && ids != []
    && (InCount(ids[0], at, k)
        || (Behind(d, ids[0], at).Some? && Count(d, ids[1..], Behind(d, ids[0], at).value, k)))
  }

  lemma {:induction false} EndKept(d: seq<u8>, ids: seq<u16>, at: nat, k: nat, x: u8)
    requires k < |d| && !Label(d, ids, at, k) && !Count(d, ids, at, k)
    ensures End(d[k := x], ids, at) == End(d, ids, at)
    decreases |ids|
  {
    if ids != [] {
      hide Behind, InLabel, InCount;
      BehindKept(d, k, x, ids[0], at);
      if Behind(d, ids[0], at).Some? {
        EndKept(d, ids[1..], Behind(d, ids[0], at).value, k, x);
      }
    }
  }

  lemma {:induction false} EndLost(d: seq<u8>, ids: seq<u16>, at: nat, k: nat, x: u8)
    requires k < |d| && d[k] != x && Label(d, ids, at, k) && !Count(d, ids, at, k) && End(d, ids, at).Some?
    ensures End(d[k := x], ids, at).None?
    decreases |ids|
  {
    hide Behind, InCount, InLabel;
    if InLabel(at, k) {
      BehindLost(d, k, x, ids[0], at);
    } else {
      BehindKept(d, k, x, ids[0], at);
      EndLost(d, ids[1..], Behind(d, ids[0], at).value, k, x);
    }
  }

  /** Changing a byte before the end of the trailer breaks the seal. */
  lemma SealBroken(d: seq<u8>, e: nat, k: nat, x: u8)
    requires Sealed(d, e) && k < e + 8 && d[k] != x
    ensures !Sealed(d[k := x], e)
  {
    hide Fnv64, FromLE;
    var changed := d[k := x];
    if k < e {
      assert changed[..e] == d[..e][k := x];
      Fnv64TellsByte(d[..e], k, x);
      FieldKept(d, k, x, e, 8);
    } else {
      assert changed[..e] == d[..e];
      FieldTells(d, k, x, e, 8);
    }
  }

  /**
   * Of a save that loads, change one byte up to the end of the trailer: it loads no more. A byte of the magic
   * number or of a section's id reads as corruption, one of the version as another version, any other as a wrong
   * digest. Not covered are the bytes of a count, which move all that follows.
   */
  lemma {:induction false} ChangedByteNeverLoads(d: seq<u8>, k: nat, x: u8)
    requires Parse(d).Parsed? && k < |d| && d[k] != x && !Count(d, ORDER, 8, k)
    ensures End(d, ORDER, 8).Some?
    ensures k < End(d, ORDER, 8).value + 8 ==>
              Parse(d[k := x]) == Failed(if k < 4 || (k >= 8 && Label(d, ORDER, 8, k)) then CorruptedSave
                                         else if k < 8 then VersionMismatch
                                         else ChecksumFailure)
  {
    LoadsIff(d);
    LoadsIff(d[k := x]);
    hide End, Parse, ParseSections, FromLE, Label, Count, Sealed;
    var e := End(d, ORDER, 8).value;
    if k < 4 {
      FieldTells(d, k, x, 0, 4);
    } else {
      FieldKept(d, k, x, 0, 4);
      if k < 8 {
        FieldTells(d, k, x, 4, 4);
      } else {
        FieldKept(d, k, x, 4, 4);
        if Label(d, ORDER, 8, k) {
          EndLost(d, ORDER, 8, k, x);
        } else if k < e + 8 {
          EndKept(d, ORDER, 8, k, x);
          SealBroken(d, e, k, x);
        }
      }
    }
  }

  // --------------------------------------------------------------------------- whole saves

  lemma {:induction false} EndStep(d: seq<u8>, ids: seq<u16>, at: nat, next: nat, end: nat)
    requires ids != [] && Behind(d, ids[0], at) == Some(next) && End(d, ids[1..], next) == Some(end)
    ensures End(d, ids, at) == Some(end)
  {
    hide Behind;
  }

  lemma {:induction false} FramedSize(sections: seq<(u16, seq<u8>)>, id: u16, payload: seq<u8>)
    requires sections != [] && sections[0] == (id, payload)
    ensures |FramedAll(sections)| == 6 + |payload| + |FramedAll(sections[1..])|
  {
  }

  lemma {:induction false} WrittenNext(d: seq<u8>, s: Snapshot, m: SaveMetadata, sections: seq<(u16, seq<u8>)>,
                                       id: u16, c: Cursor)
    requires |s.entities| < 0x1_0000_0000 && |s.players| < 0x1_0000_0000 && id in ORDER
    requires Rest(d, c.at, sections) && sections != [] && sections[0] == (id, PayloadOf(s, m, id))
    ensures var next := c.at + 6 + |PayloadOf(s, m, id)|;
      && Behind(d, id, c.at) == Some(next) && Rest(d, next, sections[1..])
      && c.at + |FramedAll(sections)| == next + |FramedAll(sections[1..])|
  {
    hide Rest, PayloadOf, ReadSection, Behind, Word, SectionAt, Occurs, With, Restored, FramedAll;
    var payload := PayloadOf(s, m, id);
    RestNext(d, c.at, id, payload, sections, c.at + 6 + |payload|, sections[1..]);
    SectionReads(d, s, m, id, c);
    ReadsBehind(d, id, c);
    FramedSize(sections, id, payload);
  }

  lemma WrittenTail(sections: seq<(u16, seq<u8>)>, s: Snapshot, m: SaveMetadata, ids: seq<u16>)
    requires ids != [] && Written(sections, s, m, ids)
    ensures sections != [] && sections[0] == (ids[0], PayloadOf(s, m, ids[0]))
    ensures Written(sections[1..], s, m, ids[1..])
  {
    hide PayloadOf;
  }

  lemma {:induction false} NoSections(d: seq<u8>, at: nat)
    ensures |FramedAll([])| == 0 && End(d, [], at) == Some(at)
  {
  }

  lemma {:induction false} WrittenEnds(
    d: seq<u8>, s: Snapshot, m: SaveMetadata, sections: seq<(u16, seq<u8>)>, ids: seq<u16>, at: nat)
    requires |s.entities| < 0x1_0000_0000 && |s.players| < 0x1_0000_0000 && forall id :: id in ids ==> id in ORDER
    requires Rest(d, at, sections) && Written(sections, s, m, ids)
    ensures End(d, ids, at) == Some(at + |FramedAll(sections)|)
    decreases |ids|
  {
    hide Rest, PayloadOf, Behind, FramedAll, End;
    if ids == [] {
      NoSections(d, at);
    } else {
      hide Written;
      WrittenTail(sections, s, m, ids);
      WrittenNext(d, s, m, sections, ids[0], Cursor(at, NO_SAVE));
      var next, rest := at + 6 + |PayloadOf(s, m, ids[0])|, ids[1..];
      WrittenEnds(d, s, m, sections[1..], rest, next);
      EndStep(d, ids, at, next, at + |FramedAll(sections)|);
    }
  }

  /** The trailer of a save is its last eight bytes. */
  lemma SaveEnds(s: Snapshot, m: SaveMetadata)
    requires |s.entities| < 0x1_0000_0000 && |s.players| < 0x1_0000_0000
    ensures End(Serialized(s, m), ORDER, 8) == Some(|Serialized(s, m)| - 8)
  {
    SaveSplits(s, m);
    OrderIsWhole(s, m, Restored(s, m));
    hide Rest, Written, FramedAll, End, Sections, Restored;
    WrittenEnds(Serialized(s, m), s, m, Sections(s, m), ORDER, 8);
  }

  /** No save loads that is cut short. */
  lemma TruncatedNeverLoads(s: Snapshot, m: SaveMetadata, n: nat)
    requires |s.entities| < 0x1_0000_0000 && |s.players| < 0x1_0000_0000 && n < |Serialized(s, m)|
    ensures Parse(Serialized(s, m)[..n]) == Failed(CorruptedSave)
  {
    hide Serialized, Parse, End, Restored;
    SaveRoundTrip(s, m);
    SaveEnds(s, m);
    CutShortNeverLoads(Serialized(s, m), n);
  }

  /** No save loads in which a byte was changed, other than one of a count. */
  lemma {:induction false} DamagedNeverLoads(s: Snapshot, m: SaveMetadata, k: nat, x: u8)
    requires |s.entities| < 0x1_0000_0000 && |s.players| < 0x1_0000_0000 && k < |Serialized(s, m)|
    requires x != Serialized(s, m)[k] && !Count(Serialized(s, m), ORDER, 8, k)
    ensures Parse(Serialized(s, m)[k := x]).Failed?
  {
    hide Serialized, Parse, End, Restored, Count, Label;
    SaveRoundTrip(s, m);
    SaveEnds(s, m);
    ChangedByteNeverLoads(Serialized(s, m), k, x);
  }
}
