/** The two digests tell byte strings apart that differ in one byte. */
module DigestLaws {
  import opened Prelude
  import opened Mixing
  import opened SaveModel
  import opened ReplicationPackets

  // ------------------------------------------------------------------------------ 64 bits

  lemma MixByteInjective(g: u64, h: u64, b: u8)
    requires MixByte(g, b) == MixByte(h, b)
    ensures g == h
  {
    Pow2Words();
    hide Xor, Pow2;
    XorFits(g, b, 64);
    XorFits(h, b, 64);
    TimesInjective(Xor(g, b), Xor(h, b), 1099511628211, 14886173955864302971, 887285111055, 0x1_0000_0000_0000_0000);
    XorInjective(g, h, b);
  }

  lemma MixByteTells(h: u64, b: u8, c: u8)
    requires MixByte(h, b) == MixByte(h, c)
    ensures b == c
  {
    Pow2Words();
    hide Xor, Pow2;
    XorFits(h, b, 64);
    XorFits(h, c, 64);
    TimesInjective(Xor(h, b), Xor(h, c), 1099511628211, 14886173955864302971, 887285111055, 0x1_0000_0000_0000_0000);
    XorSymmetric(h, b);
    XorSymmetric(h, c);
    XorInjective(b, c, h);
  }

  lemma {:induction false} Fnv64Snoc(a: seq<u8>, b: u8)
    ensures Fnv64(a + [b]) == MixByte(Fnv64(a), b)
  {
    hide MixByte;
    SnocSplit(a, b);
  }

  /** What follows does not make different digests equal. */
  lemma {:induction false} Fnv64Suffix(a: seq<u8>, b: seq<u8>, s: seq<u8>)
    ensures Fnv64(a + s) == Fnv64(b + s) <==> Fnv64(a) == Fnv64(b)
  {
    hide Fnv64, MixByte;
    if s == [] {
      assert a + s == a && b + s == b;
    } else {
      var n := |s| - 1;
      Fnv64Suffix(a, b, s[..n]);
      Fnv64Snoc(a + s[..n], s[n]);
      Fnv64Snoc(b + s[..n], s[n]);
      assert a + s == a + s[..n] + [s[n]] && b + s == b + s[..n] + [s[n]];
      if Fnv64(a + s) == Fnv64(b + s) {
        MixByteInjective(Fnv64(a + s[..n]), Fnv64(b + s[..n]), s[n]);
      }
    }
  }

  /** One byte changed is a digest changed. */
  lemma Fnv64TellsByte(d: seq<u8>, k: nat, x: u8)
    requires k < |d| && d[k] != x
    ensures Fnv64(d[k := x]) != Fnv64(d)
  {
    var front, rest := d[..k], d[k + 1..];
    assert d == front + [d[k]] + rest && d[k := x] == front + [x] + rest;
    hide Fnv64, MixByte;
    Fnv64Suffix(front + [d[k]], front + [x], rest);
    Fnv64Snoc(front, d[k]);
    Fnv64Snoc(front, x);
    if Fnv64(d[k := x]) == Fnv64(d) {
      MixByteTells(Fnv64(front), d[k], x);
    }
  }

  // ------------------------------------------------------------------------------ 32 bits

  function Mix32(h: u32, b: u8): u32 {
    Low32(Xor(h, b) * 16777619)
  }

  lemma Mix32Injective(g: u32, h: u32, b: u8)
    requires Mix32(g, b) == Mix32(h, b)
    ensures g == h
  {
    Pow2Words();
    hide Xor, Pow2;
    XorFits(g, b, 32);
    XorFits(h, b, 32);
    TimesInjective(Xor(g, b), Xor(h, b), 16777619, 899433627, 3513497, 0x1_0000_0000);
    XorInjective(g, h, b);
  }

  lemma Mix32Tells(h: u32, b: u8, c: u8)
    requires Mix32(h, b) == Mix32(h, c)
    ensures b == c
  {
    Pow2Words();
    hide Xor, Pow2;
    XorFits(h, b, 32);
    XorFits(h, c, 32);
    TimesInjective(Xor(h, b), Xor(h, c), 16777619, 899433627, 3513497, 0x1_0000_0000);
    XorSymmetric(h, b);
    XorSymmetric(h, c);
    XorInjective(b, c, h);
  }

  lemma {:induction false} Fnv32Snoc(a: seq<u8>, b: u8)
    ensures Fnv32(a + [b]) == Mix32(Fnv32(a), b)
  {
    hide Xor;
    SnocSplit(a, b);
  }

  lemma {:induction false} Fnv32Suffix(a: seq<u8>, b: seq<u8>, s: seq<u8>)
    ensures Fnv32(a + s) == Fnv32(b + s) <==> Fnv32(a) == Fnv32(b)
  {
    hide Fnv32, Mix32;
    if s == [] {
      assert a + s == a && b + s == b;
    } else {
      var n := |s| - 1;
      Fnv32Suffix(a, b, s[..n]);
      Fnv32Snoc(a + s[..n], s[n]);
      Fnv32Snoc(b + s[..n], s[n]);
      assert a + s == a + s[..n] + [s[n]] && b + s == b + s[..n] + [s[n]];
      if Fnv32(a + s) == Fnv32(b + s) {
        Mix32Injective(Fnv32(a + s[..n]), Fnv32(b + s[..n]), s[n]);
      }
    }
  }

  lemma Fnv32TellsByte(d: seq<u8>, k: nat, x: u8)
    requires k < |d| && d[k] != x
    ensures Fnv32(d[k := x]) != Fnv32(d)
  {
    var front, rest := d[..k], d[k + 1..];
    assert d == front + [d[k]] + rest && d[k := x] == front + [x] + rest;
    hide Fnv32, Mix32;
    Fnv32Suffix(front + [d[k]], front + [x], rest);
    Fnv32Snoc(front, d[k]);
    Fnv32Snoc(front, x);
    if Fnv32(d[k := x]) == Fnv32(d) {
      Mix32Tells(Fnv32(front), d[k], x);
    }
  }

  // ----------------------------------------------------------------------- worked examples

  /** A byte that takes the low byte of a word out. */
  lemma LowByteOut(high: nat, low: u8)
    ensures Xor(high * 0x100 + low, low) == high * 0x100
  {
    assert Pow2(8) == 0x100;
    hide Xor, Pow2;
    XorSplit(high, low, 0, low, 8);
    SelfXor(low);
    XorSymmetric(high, 0);
    NothingXor(high);
  }

  /**
   * Digests of short strings. The update frame starts from FNV-1a's offset basis 2166136261; the save starts from
   * 1469598103934665603, which is the 64-bit basis 14695981039346656037 without its last digit.
   */
  lemma DigestExamples()
    ensures Fnv32([]) == 2166136261 && Fnv32([0]) == 0x050C5D1F && Fnv32([0xC5]) == 1074472704
    ensures Fnv64([]) == 14695981039346656037 / 10 && Fnv64([0]) == 4953163356653287321
    ensures Fnv64([0x83]) == 4953019320629991680
  {
    hide Xor;
    LowByteOut(0x811C9D, 0xC5);
    LowByteOut(0x14650fb0739d03, 0x83);
    XorSymmetric(2166136261, 0);
    NothingXor(2166136261);
    XorSymmetric(1469598103934665603, 0);
    NothingXor(1469598103934665603);
    OneByte32(0);
    OneByte32(0xC5);
    OneByte64(0);
    OneByte64(0x83);
  }

  lemma {:induction false} OneByte32(b: u8)
    ensures Fnv32([b]) == Low32(Xor(2166136261, b) * 16777619)
  {
    hide Xor;
    assert [b][..0] == [];
  }

  lemma {:induction false} OneByte64(b: u8)
    ensures Fnv64([b]) == Low64(Xor(1469598103934665603, b) * 1099511628211)
  {
    hide Xor;
    assert [b][..0] == [];
  }
}
