/** What the content checksum covers: all of a snapshot that a replay must reproduce, and nothing else. */
module ContentLaws {
  import opened Prelude
  import opened Wire
  import opened SnapshotTypes
  import opened SaveModel
  import opened SaveIntegrity
  import opened DigestLaws

  /** Equal but for the wall clock, the snapshot's id and state, its own counts and the environment's tick. */
  ghost predicate SameContent(s: Snapshot, t: Snapshot) {
    && s.metadata.simulationTick == t.metadata.simulationTick && s.metadata.version == t.metadata.version
    && s.entities == t.entities && s.players == t.players
    && s.environment == t.environment.(simulationTick := s.environment.simulationTick)
  }

  lemma {:induction false} EntityWordsLength(es: seq<EntitySnapshot>)
    ensures |AllEntityWords(es)| == 11 * |es|
  {
    if es != [] {
      EntityWordsLength(es[..|es| - 1]);
    }
  }

  lemma {:induction false} PlayerWordsLength(ps: seq<PlayerSnapshot>)
    ensures |AllPlayerWords(ps)| == 8 * |ps|
  {
    if ps != [] {
      PlayerWordsLength(ps[..|ps| - 1]);
    }
  }

  /** Equal wholes of equally long first parts have equal parts. */
  lemma PartsEqual<T>(a: seq<T>, b: seq<T>, c: seq<T>, d: seq<T>)
    requires a + b == c + d && |a| == |c|
    ensures a == c && b == d
  {
    assert (a + b)[..|a|] == a && (c + d)[..|c|] == c && (a + b)[|a|..] == b && (c + d)[|c|..] == d;
  }

  lemma EntityTold(e: EntitySnapshot, f: EntitySnapshot)
    requires EntityWords(e) == EntityWords(f)
    ensures e == f
  {
    var a, b := EntityWords(e), EntityWords(f);
    assert a[0] == b[0] && a[1] == b[1] && a[2] == b[2] && a[3] == b[3] && a[4] == b[4] && a[5] == b[5];
    assert a[6] == b[6] && a[7] == b[7] && a[8] == b[8] && a[9] == b[9] && a[10] == b[10];
  }

  lemma PlayerTold(p: PlayerSnapshot, q: PlayerSnapshot)
    requires PlayerWords(p) == PlayerWords(q)
    ensures p == q
  {
    var a, b := PlayerWords(p), PlayerWords(q);
    assert a[0] == b[0] && a[1] == b[1] && a[2] == b[2] && a[3] == b[3] && a[4] == b[4] && a[5] == b[5];
    assert a[6] == b[6] && a[7] == b[7];
  }

  lemma {:induction false} EntitiesTold(es: seq<EntitySnapshot>, fs: seq<EntitySnapshot>)
    requires |es| == |fs| && AllEntityWords(es) == AllEntityWords(fs)
    ensures es == fs
  {
    if es != [] {
      hide EntityWords;
      var n := |es| - 1;
      EntityWordsLength(es[..n]);
      EntityWordsLength(fs[..n]);
      PartsEqual(AllEntityWords(es[..n]), EntityWords(es[n]), AllEntityWords(fs[..n]), EntityWords(fs[n]));
      EntityTold(es[n], fs[n]);
      EntitiesTold(es[..n], fs[..n]);
      assert es == es[..n] + [es[n]] && fs == fs[..n] + [fs[n]];
    }
  }

  lemma {:induction false} PlayersTold(ps: seq<PlayerSnapshot>, qs: seq<PlayerSnapshot>)
    requires |ps| == |qs| && AllPlayerWords(ps) == AllPlayerWords(qs)
    ensures ps == qs
  {
    if ps != [] {
      hide PlayerWords;
      var n := |ps| - 1;
      PlayerWordsLength(ps[..n]);
      PlayerWordsLength(qs[..n]);
      PartsEqual(AllPlayerWords(ps[..n]), PlayerWords(ps[n]), AllPlayerWords(qs[..n]), PlayerWords(qs[n]));
      PlayerTold(ps[n], qs[n]);
      PlayersTold(ps[..n], qs[..n]);
      assert ps == ps[..n] + [ps[n]] && qs == qs[..n] + [qs[n]];
    }
  }

  lemma HeaderTold(s: Snapshot, t: Snapshot)
    requires HeaderWords(s) == HeaderWords(t)
    requires |s.entities| < 0x1_0000_0000_0000_0000 && |s.players| < 0x1_0000_0000_0000_0000
    requires |t.entities| < 0x1_0000_0000_0000_0000 && |t.players| < 0x1_0000_0000_0000_0000
    ensures s.metadata.simulationTick == t.metadata.simulationTick && s.metadata.version == t.metadata.version
    ensures |s.entities| == |t.entities| && |s.players| == |t.players|
  {
    var a, b := HeaderWords(s), HeaderWords(t);
    assert a[0] == b[0] && a[1] == b[1] && a[2] == b[2] && a[4] == b[4];
  }

  lemma EnvironmentTold(e: EnvironmentSnapshot, f: EnvironmentSnapshot)
    requires EnvironmentWords(e) == EnvironmentWords(f)
    ensures e == f.(simulationTick := e.simulationTick)
  {
    var a, b := EnvironmentWords(e), EnvironmentWords(f);
    assert a[0] == b[0] && a[1] == b[1] && a[2] == b[2] && a[3] == b[3] && a[4] == b[4];
  }

  /** The words that are mixed in are the same exactly for the same content. */
  lemma WordsSameIff(s: Snapshot, t: Snapshot)
    requires |s.entities| < 0x1_0000_0000_0000_0000 && |s.players| < 0x1_0000_0000_0000_0000
    requires |t.entities| < 0x1_0000_0000_0000_0000 && |t.players| < 0x1_0000_0000_0000_0000
    ensures ContentWords(s) == ContentWords(t) <==> SameContent(s, t)
  {
    if ContentWords(s) == ContentWords(t) {
      SameWordsTold(s, t);
    }
  }

  lemma SameWordsTold(s: Snapshot, t: Snapshot)
    requires |s.entities| < 0x1_0000_0000_0000_0000 && |s.players| < 0x1_0000_0000_0000_0000
    requires |t.entities| < 0x1_0000_0000_0000_0000 && |t.players| < 0x1_0000_0000_0000_0000
    requires ContentWords(s) == ContentWords(t)
    ensures SameContent(s, t)
  {
    var h, g, e, f := HeaderWords(s), HeaderWords(t), AllEntityWords(s.entities), AllEntityWords(t.entities);
    var p, q := AllPlayerWords(s.players), AllPlayerWords(t.players);
    var v, w := EnvironmentWords(s.environment), EnvironmentWords(t.environment);
    assert |h| == |g| == 5 && |v| == |w| == 5;
    hide HeaderWords, AllEntityWords, AllPlayerWords, EnvironmentWords;
    assert h + e + p + v == h + (e + p + v) && g + f + q + w == g + (f + q + w);
    PartsEqual(h, e + p + v, g, f + q + w);
    HeaderTold(s, t);
    EntityWordsLength(s.entities);
    EntityWordsLength(t.entities);
    PlayerWordsLength(s.players);
    PlayerWordsLength(t.players);
    PartsEqual(e + p, v, f + q, w);
    PartsEqual(e, p, f, q);
    EntitiesTold(s.entities, t.entities);
    PlayersTold(s.players, t.players);
    EnvironmentTold(s.environment, t.environment);
  }

  // ------------------------------------------------------------------------- the digest

  lemma {:induction false} WordBytesSplit(a: seq<u64>, x: u64, b: seq<u64>)
    ensures WordBytes(a + [x] + b) == WordBytes(a) + LE(x, 8) + WordBytes(b)
  {
    hide LE;
    if b == [] {
      SnocSplit(a, x);
      assert a + [x] + b == a + [x] && WordBytes(a) + LE(x, 8) + [] == WordBytes(a) + LE(x, 8);
    } else {
      var n := |b| - 1;
      WordBytesSplit(a, x, b[..n]);
      SnocSplit(a + [x] + b[..n], b[n]);
      assert a + [x] + b == a + [x] + b[..n] + [b[n]];
      Joined(WordBytes(a) + LE(x, 8), WordBytes(b[..n]), LE(b[n], 8));
    }
  }

  /** One byte of one word changed is a checksum changed. */
  lemma {:induction false} DigestTellsByte(words: seq<u64>, k: nat, y: u64, i: nat, b: u8)
    requires k < |words| && i < 8 && LE(y, 8) == LE(words[k], 8)[i := b] && b != LE(words[k], 8)[i]
    ensures Digest(words[k := y]) != Digest(words)
  {
    hide LE, WordBytes, Fnv64;
    var front, rest := words[..k], words[k + 1..];
    assert words == front + [words[k]] + rest && words[k := y] == front + [y] + rest;
    WordBytesSplit(front, words[k], rest);
    WordBytesSplit(front, y, rest);
    var bytes, at := WordBytes(words), |WordBytes(front)| + i;
    assert WordBytes(words[k := y]) == bytes[at := b];
    Fnv64TellsByte(bytes, at, b);
  }
}
