/** Fixed-width integers, options and the exclusive-or that the wire and hash code uses. */
module Prelude {
  type u8 = x: int | 0 <= x < 0x100
  type u16 = x: int | 0 <= x < 0x1_0000
  type u32 = x: int | 0 <= x < 0x1_0000_0000
  type u64 = x: int | 0 <= x < 0x1_0000_0000_0000_0000

  datatype Option<+T> = None | Some(value: T)

  /** Bitwise exclusive-or. */
  function Xor(a: nat, b: nat): nat
    decreases a + b
  {
    if a == 0 && b == 0 then 0 else (a + b) % 2 + 2 * Xor(a / 2, b / 2)
  }

  /** Truncation of an arithmetic result to 32 and to 64 bits. */
  function Low32(x: nat): u32 { x % 0x1_0000_0000 }

  function Low64(x: nat): u64 { x % 0x1_0000_0000_0000_0000 }

  /** Concatenation is associative. */
  lemma Joined<T>(s: seq<T>, x: seq<T>, y: seq<T>)
    ensures s + x + y == s + (x + y)
  {
  }

  /** The last write to a key wins. */
  lemma Overwritten<K, V>(m: map<K, V>, k: K, first: V, last: V)
    ensures m[k := first][k := last] == m[k := last]
  {
  }

  /** All of a sequence. */
  lemma WholePrefix<T>(s: seq<T>)
    ensures s[..|s|] == s
  {
  }

  /** Short lists, one element at a time. */
  lemma Listed<T>(a: T, b: T, c: T, d: T, e: T)
    ensures [] + [a] == [a] && [a] + [b] == [a, b] && [a, b] + [c] == [a, b, c]
    ensures [a, b, c] + [d] == [a, b, c, d] && [a, b, c, d] + [e] == [a, b, c, d, e]
  {
  }

  /** Concatenation of one value at the end, seen from the front. */
  lemma SnocSplit<T>(s: seq<T>, x: T)
    ensures (s + [x])[..|s|] == s && (s + [x])[|s|] == x && |s + [x]| == |s| + 1
  {
  }
}
