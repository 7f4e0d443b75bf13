/** Little-endian byte codec and the bounds-checked cursors over it. */
module Wire {
  import opened Prelude

  /** The n low bytes of v, least significant first (the shift-and-mask writes). */
  function LE(v: nat, n: nat): (b: seq<u8>)
    ensures |b| == n
  {
    if n == 0 then [] else [v % 256] + LE(v / 256, n - 1)
  }

  /** The value of a little-endian byte string (the shift-and-or reads). */
  function FromLE(b: seq<u8>): nat {
    if b == [] then 0 else b[0] + 256 * FromLE(b[1..])
  }

  function Pow256(n: nat): nat {
    if n == 0 then 1 else 256 * Pow256(n - 1)
  }

  lemma {:induction false} LittleEndianRoundTrip(v: nat, n: nat)
    requires v < Pow256(n)
    ensures FromLE(LE(v, n)) == v
  {
    if n > 0 {
      LittleEndianRoundTrip(v / 256, n - 1);
      assert LE(v, n)[1..] == LE(v / 256, n - 1);
    }
  }

  lemma {:induction false} FromLEBound(b: seq<u8>)
    ensures FromLE(b) < Pow256(|b|)
  {
    if b != [] {
      FromLEBound(b[1..]);
    }
  }

  lemma Widths()
    ensures Pow256(1) == 0x100 && Pow256(2) == 0x1_0000
    ensures Pow256(4) == 0x1_0000_0000 && Pow256(8) == 0x1_0000_0000_0000_0000
  {
    assert Pow256(4) == 256 * Pow256(3) && Pow256(3) == 256 * Pow256(2);
    assert Pow256(8) == 256 * Pow256(7) && Pow256(7) == 256 * Pow256(6);
    assert Pow256(6) == 256 * Pow256(5) && Pow256(5) == 256 * Pow256(4);
  }

  /** Reads n bytes at a position; None is the cursor's underflow. */
  function Peek(data: seq<u8>, at: nat, n: nat): (r: Option<nat>)
    ensures r.Some? <==> at + n <= |data|
  {
    if at + n <= |data| then Some(FromLE(data[at..at + n])) else None
  }

  /** A field of n bytes, read where it is known to be. */
  function Field(data: seq<u8>, at: nat, n: nat): nat
    requires at + n <= |data|
  {
    FromLE(data[at..at + n])
  }

  /** Reads of one, two and four bytes fit their widths. */
  lemma FieldBounds(data: seq<u8>)
    ensures forall at: nat :: at + 1 <= |data| ==> Field(data, at, 1) < 0x100
    ensures forall at: nat :: at + 2 <= |data| ==> Field(data, at, 2) < 0x1_0000
    ensures forall at: nat :: at + 4 <= |data| ==> Field(data, at, 4) < 0x1_0000_0000
  {
    Widths();
    forall at: nat, n: nat | at + n <= |data| ensures Field(data, at, n) < Pow256(n) {
      FromLEBound(data[at..at + n]);
    }
  }

  /** A 64-bit value is written as two 32-bit words, low word first. */
  function U64Bytes(v: u64): (b: seq<u8>)
    ensures |b| == 8
  {
    LE(v % 0x1_0000_0000, 4) + LE(v / 0x1_0000_0000, 4)
  }

  function U64At(data: seq<u8>, at: nat): u64
    requires at + 8 <= |data|
  {
    FieldBounds(data);
    Field(data, at, 4) + 0x1_0000_0000 * Field(data, at + 4, 4)
  }

  lemma U64ReadsBack(data: seq<u8>, at: nat, v: u64)
    requires at + 8 <= |data| && data[at..at + 8] == U64Bytes(v)
    ensures U64At(data, at) == v
  {
    Widths();
    assert data[at..at + 8][..4] == data[at..at + 4] && data[at..at + 8][4..] == data[at + 4..at + 8];
    LittleEndianRoundTrip(v % 0x1_0000_0000, 4);
    LittleEndianRoundTrip(v / 0x1_0000_0000, 4);
  }

  /** A field reads back what was written there. */
  lemma {:induction false} FieldReadsBack(data: seq<u8>, at: nat, n: nat, v: nat)
    requires at + n <= |data| && data[at..at + n] == LE(v, n) && v < Pow256(n)
    ensures Field(data, at, n) == v
  {
    LittleEndianRoundTrip(v, n);
  }

  lemma SliceOfSlice(s: seq<u8>, lo: nat, hi: nat, i: nat, j: nat)
    requires lo <= hi <= |s| && i <= j <= hi - lo
    ensures s[lo..hi][i..j] == s[lo + i..lo + j]
  {
    assert forall k :: 0 <= k < j - i ==> s[lo..hi][i..j][k] == s[lo..hi][i + k] == s[lo + i + k];
  }

  /** Three 32-bit words; floats travel as their bit patterns. */
  function Words(a: u32, b: u32, c: u32): (bytes: seq<u8>)
    ensures |bytes| == 12
  {
    LE(a, 4) + LE(b, 4) + LE(c, 4)
  }

  function Word(b: seq<u8>, at: nat): u32
    requires at + 4 <= |b|
  {
    FieldBounds(b);
    Field(b, at, 4)
  }

  lemma {:induction false} WordReadsBack(b: seq<u8>, at: nat, x: u32)
    requires at + 4 <= |b| && b[at..at + 4] == LE(x, 4)
    ensures Word(b, at) == x
  {
    Widths();
    FieldReadsBack(b, at, 4, x);
  }

  lemma WordsReadBack(b: seq<u8>, at: nat, x: u32, y: u32, z: u32)
    requires at + 12 <= |b| && b[at..at + 12] == Words(x, y, z)
    ensures Word(b, at) == x && Word(b, at + 4) == y && Word(b, at + 8) == z
  {
    var w := b[at..at + 12];
    SliceOfSlice(b, at, at + 12, 0, 4);
    SliceOfSlice(b, at, at + 12, 4, 8);
    SliceOfSlice(b, at, at + 12, 8, 12);
    assert w[0..4] == LE(x, 4) && w[4..8] == LE(y, 4) && w[8..12] == LE(z, 4);
    WordReadsBack(b, at, x);
    WordReadsBack(b, at + 4, y);
    WordReadsBack(b, at + 8, z);
  }
}
