/** Challenge values and reconnect tokens tell connections apart, but for one pair of each. */
module TokenLaws {
  import opened Prelude
  import opened Mixing
  import opened NetTypes

  // ----------------------------------------------------------------- the multiplied word

  function Spread(x: nat): u32 {
    Low32(x * 2654435761)
  }

  /** Multiplying a word by the constant loses nothing: its inverse is 244002641. */
  lemma SpreadInjective(x: u32, y: u32)
    requires Spread(x) == Spread(y)
    ensures x == y
  {
    TimesInjective(x, y, 2654435761, 244002641, 150801925, 0x1_0000_0000);
  }

  // ----------------------------------------------------------------------------- the nonce

  /** The id, multiplied and mixed, before it is turned by 13 bits. */
  function Scrambled(id: nat): nat {
    Xor(Spread(id), 0x5350AA55)
  }

  lemma ScrambledFits(id: nat)
    ensures Scrambled(id) < 0x1_0000_0000
  {
    Pow2Words();
    XorFits(Spread(id), 0x5350AA55, 32);
  }

  lemma ScrambledInjective(i: u32, j: u32)
    requires Scrambled(i) == Scrambled(j)
    ensures i == j
  {
    hide Xor;
    XorInjective(Spread(i), Spread(j), 0x5350AA55);
    SpreadInjective(i, j);
  }

  /** The 13 high bits come down, the 19 low bits go up. */
  function Turned(y: u32): u32 {
    y % 0x80000 * 0x2000 + y / 0x80000
  }

  lemma Turns(y: u32)
    ensures Low32(y * 0x2000) + y / 0x80000 == Turned(y)
  {
    var low, high := y % 0x80000, y / 0x80000;
    assert y * 0x2000 == 0x1_0000_0000 * high + low * 0x2000;
    Divided(y * 0x2000, 0x1_0000_0000, high, low * 0x2000);
  }

  lemma TurnedInjective(x: u32, y: u32)
    requires Turned(x) == Turned(y)
    ensures x == y
  {
  }

  lemma NonceUnfolds(id: nat, y: u32)
    requires Scrambled(id) == y
    ensures var z := Low32(y * 0x2000) + y / 0x80000; ServerNonce(id) == if Low32(z) == 0 then 1 else Low32(z)
  {
    hide Xor;
    assert Low32(Xor(Low32(id * 2654435761), 0x5350AA55)) == y;
  }

  lemma NonceIs(id: nat)
    ensures Scrambled(id) < 0x1_0000_0000
    ensures ServerNonce(id) == if Scrambled(id) == 0 then 1 else Turned(Scrambled(id))
  {
    ScrambledFits(id);
    hide Scrambled, ServerNonce, Xor;
    var y: u32 := Scrambled(id);
    NonceUnfolds(id, y);
    Turns(y);
    if Turned(y) == 0 {
      TurnedInjective(y, 0);
    }
  }

  lemma Pow2Small()
    ensures Pow2(19) == 0x80000 && Pow2(20) == 0x100000
  {
    assert Pow2(10) == 0x400;
    hide Pow2;
    Pow2Sum(10, 10);
    Pow2Next(19);
  }

  lemma Pow2Next(n: nat)
    ensures Pow2(n + 1) == 2 * Pow2(n)
  {
  }

  /** A bit above the bits of a number is added to it. */
  lemma {:induction false} BitAbove(n: nat, d: nat)
    requires d < Pow2(n)
    ensures Xor(Pow2(n), d) == Pow2(n) + d
  {
    hide Xor, Pow2;
    XorSplit(1, 0, 0, d, n);
    NothingXor(d);
    NothingXor(1);
    XorSymmetric(0, 1);
  }

  /** The constant does not have the bit 0x80000. */
  lemma OneBit()
    ensures Xor(0x80000, 0x5350AA55) == 0x5358AA55
  {
    hide Xor, Pow2;
    Pow2Small();
    XorSplit(0, 0x80000, 0x535, 0xAA55, 20);
    BitAbove(19, 0xAA55);
    NothingXor(0x535);
  }

  /** Which ids are mixed to nothing, and which to the bit that turns into 1. */
  lemma ScrambledAre()
    ensures Scrambled(1307738085) == 0 && Scrambled(3363471333) == 0x80000
  {
    hide Xor;
    SelfXor(0x5350AA55);
    OneBit();
    XorUndone(0x80000, 0x5350AA55);
    assert Spread(1307738085) == 0x5350AA55 && Spread(3363471333) == 0x5358AA55;
  }

  /** Two connections have the same challenge value only if they are these two; and then it is 1. */
  lemma NoncesCollideIff(i: u32, j: u32)
    ensures ServerNonce(i) == ServerNonce(j)
       <==> i == j || (i == 1307738085 && j == 3363471333) || (i == 3363471333 && j == 1307738085)
  {
    NonceIs(i);
    NonceIs(j);
    ScrambledAre();
    hide Scrambled, ServerNonce;
    NonceIs(1307738085);
    NonceIs(3363471333);
    if ServerNonce(i) == ServerNonce(j) {
      var x: u32, y: u32 := Scrambled(i), Scrambled(j);
      Collide(x, y);
      if x == y {
        ScrambledInjective(i, j);
      } else {
        ScrambledInjective(i, if x == 0 then 1307738085 else 3363471333);
        ScrambledInjective(j, if y == 0 then 1307738085 else 3363471333);
      }
    }
  }

  lemma Collide(x: u32, y: u32)
    requires (if x == 0 then 1 else Turned(x)) == (if y == 0 then 1 else Turned(y))
    ensures x == y || (x == 0 && y == 0x80000) || (x == 0x80000 && y == 0)
  {
    if x == 0 && y != 0 {
      TurnedInjective(y, 0x80000);
    } else if y == 0 && x != 0 {
      TurnedInjective(x, 0x80000);
    } else if x != 0 {
      TurnedInjective(x, y);
    }
  }

  /** Two values worked out by hand: no connection, and the one whose mixed id is zero. */
  lemma NonceExamples()
    ensures ServerNonce(0) == 0x154AAA6A && ServerNonce(1307738085) == 1
  {
    hide Xor;
    NonceIs(0);
    NonceIs(1307738085);
    ScrambledAre();
    NothingXor(0x5350AA55);
    assert Spread(0) == 0;
  }

  // ----------------------------------------------------------------------------- the token

  /** What a token is before zero is replaced: the id over the high word of the tick's product, then its low word. */
  function Minted(id: u32, tick: u32): nat {
    var product := tick * 2654435761;
    Xor(Xor(id, product / 0x1_0000_0000), 0x5350AA55) * 0x1_0000_0000 + Xor(Spread(tick), 0xA55A5350)
  }

  lemma WordsXor(a: u32, b: u32, c: u32, d: u32)
    ensures Xor(a * 0x1_0000_0000 + b, c * 0x1_0000_0000 + d) == Xor(a, c) * 0x1_0000_0000 + Xor(b, d)
    ensures Xor(a, c) < 0x1_0000_0000 && Xor(b, d) < 0x1_0000_0000
  {
    Pow2Words();
    hide Xor, Pow2;
    XorSplit(a, b, c, d, 32);
    XorFits(a, c, 32);
    XorFits(b, d, 32);
  }

  lemma TokenIs(id: u32, tick: u32)
    ensures MintToken(id, tick) == if Minted(id, tick) == 0 then 1 else Minted(id, tick)
  {
    hide Xor;
    var product := tick * 2654435761;
    var high, low := product / 0x1_0000_0000, product % 0x1_0000_0000;
    assert Low64(product) == high * 0x1_0000_0000 + low;
    WordsXor(id, 0, high, low);
    NothingXor(low);
    var t := Xor(id * 0x1_0000_0000, product);
    assert t == Xor(id, high) * 0x1_0000_0000 + low;
    WordsXor(Xor(id, high), low, 0x5350AA55, 0xA55A5350);
  }

  lemma WordsEqual(a: u32, b: u32, c: u32, d: u32)
    requires a * 0x1_0000_0000 + b == c * 0x1_0000_0000 + d
    ensures a == c && b == d
  {
  }

  lemma MintedInjective(i: u32, s: u32, j: u32, t: u32)
    requires Minted(i, s) == Minted(j, t)
    ensures i == j && s == t
  {
    hide Xor, Spread;
    var g, h := s * 2654435761 / 0x1_0000_0000, t * 2654435761 / 0x1_0000_0000;
    WordsXor(i, 0, g, 0);
    WordsXor(j, 0, h, 0);
    WordsXor(Xor(i, g), Spread(s), 0x5350AA55, 0xA55A5350);
    WordsXor(Xor(j, h), Spread(t), 0x5350AA55, 0xA55A5350);
    WordsEqual(Xor(Xor(i, g), 0x5350AA55), Xor(Spread(s), 0xA55A5350),
               Xor(Xor(j, h), 0x5350AA55), Xor(Spread(t), 0xA55A5350));
    XorInjective(Spread(s), Spread(t), 0xA55A5350);
    SpreadInjective(s, t);
    XorInjective(Xor(i, g), Xor(j, h), 0x5350AA55);
    XorInjective(i, j, g);
  }

  /** Minted as 0, which is replaced by 1; and minted as 1. */
  predicate Blank(id: u32, tick: u32) {
    tick == 2203061328 && Xor(id, 1361566775) == 0x5350AA55
  }

  predicate One(id: u32, tick: u32) {
    tick == 2447063969 && Xor(id, 1512368700) == 0x5350AA55
  }

  lemma MintedBlank(id: u32, tick: u32)
    ensures Minted(id, tick) == 0 <==> Blank(id, tick)
  {
    hide Xor;
    var high := tick * 2654435761 / 0x1_0000_0000;
    WordsXor(id, 0, high, 0);
    WordsXor(Xor(id, high), Spread(tick), 0x5350AA55, 0xA55A5350);
    WordsEqualZero(Xor(Xor(id, high), 0x5350AA55), Xor(Spread(tick), 0xA55A5350), 0);
    XorZero(Xor(id, high), 0x5350AA55);
    XorZero(Spread(tick), 0xA55A5350);
    assert Spread(2203061328) == 0xA55A5350;
    if Spread(tick) == 0xA55A5350 {
      SpreadInjective(tick, 2203061328);
    }
  }

  lemma WordsEqualZero(a: u32, b: u32, d: u32)
    ensures a * 0x1_0000_0000 + b == d <==> a == 0 && b == d
  {
  }

  lemma {:induction false} LowestBit(x: nat)
    ensures Xor(x, 0xA55A5350) == 1 <==> x == 0xA55A5351
  {
    hide Xor;
    XorUndone(x, 0xA55A5350);
    XorStep(1, 0xA55A5350);
    NothingXor(0x52AD29A8);
    XorUndone(1, 0xA55A5350);
  }

  lemma MintedOne(id: u32, tick: u32)
    ensures Minted(id, tick) == 1 <==> One(id, tick)
  {
    hide Xor;
    var high := tick * 2654435761 / 0x1_0000_0000;
    WordsXor(id, 0, high, 0);
    WordsXor(Xor(id, high), Spread(tick), 0x5350AA55, 0xA55A5350);
    WordsEqualZero(Xor(Xor(id, high), 0x5350AA55), Xor(Spread(tick), 0xA55A5350), 1);
    XorZero(Xor(id, high), 0x5350AA55);
    LowestBit(Spread(tick));
    assert Spread(2447063969) == 0xA55A5351;
    if Spread(tick) == 0xA55A5351 {
      SpreadInjective(tick, 2447063969);
    }
  }

  /**
   * Two members that joined within the first 2^32 ticks leave with the same token only if both their ids and
   * their join ticks are the same, or they are the two whose token is 1.
   */
  lemma TokensCollideIff(i: u32, s: u32, j: u32, t: u32)
    ensures MintToken(i, s) == MintToken(j, t)
       <==> (i == j && s == t) || (Blank(i, s) && One(j, t)) || (One(i, s) && Blank(j, t))
  {
    TokenIs(i, s);
    TokenIs(j, t);
    MintedBlank(i, s);
    MintedBlank(j, t);
    MintedOne(i, s);
    MintedOne(j, t);
    hide Minted, MintToken, Blank, One;
    if Minted(i, s) == Minted(j, t) {
      MintedInjective(i, s, j, t);
    }
  }
}
