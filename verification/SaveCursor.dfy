/** SaveByteCursor.h: a growing little-endian writer, and a reader that latches its first overrun. */
module SaveCursors {
  import opened Prelude
  import opened Wire

  class ByteWriter {
    var bytes: seq<u8>

    constructor ()
      ensures bytes == []
    {
      bytes := [];
    }

    method PutU8(v: u8)
      modifies this
      ensures bytes == old(bytes) + LE(v, 1)
    {
      bytes := bytes + [v];
    }

    method PutU16(v: u16)
      modifies this
      ensures bytes == old(bytes) + LE(v, 2)
    {
      bytes := bytes + [v % 256];
      bytes := bytes + [v / 256 % 256];
    }

    method PutU32(v: u32)
      modifies this
      ensures bytes == old(bytes) + LE(v, 4)
    {
      PutLow(v, 4);
    }

    method PutU64(v: u64)
      modifies this
      ensures bytes == old(bytes) + LE(v, 8)
    {
      PutLow(v, 8);
    }

    /** The byte loop of both: shift right by eight, keep the low byte. */
    method PutLow(v: nat, n: nat)
      modifies this
      ensures bytes == old(bytes) + LE(v, n)
    {
      var rest := v;
      for i := 0 to n
        invariant bytes + LE(rest, n - i) == old(bytes) + LE(v, n)
      {
        ghost var before := bytes;
        bytes := bytes + [rest % 256];
        Joined(before, [rest % 256], LE(rest / 256, n - i - 1));
        rest := rest / 256;
      }
    }

    method PutBytes(data: seq<u8>)
      modifies this
      ensures bytes == old(bytes) + data
    {
      bytes := bytes + data;
    }
  }

  class ByteReader {
    const data: seq<u8>
    var pos: nat
    var error: bool

    ghost predicate Valid()
      reads this
    {
      pos <= |data|
    }

    constructor (data: seq<u8>)
      ensures Valid() && this.data == data && pos == 0 && !error
    {
      this.data := data;
      pos, error := 0, false;
    }

    /** Advance over n bytes, or latch the error and stay. */
    method Take(n: nat) returns (ok: bool)
      requires Valid()
      modifies this
      ensures Valid() && ok == (!old(error) && old(pos) + n <= |data|) && error == !ok
      ensures pos == old(pos) + if ok then n else 0
    {
      if error || n > |data| - pos {
        error := true;
        return false;
      }
      pos := pos + n;
      ok := true;
    }

    /** A number of n bytes; None after an overrun. */
    method Get(n: nat) returns (value: Option<nat>)
      requires Valid()
      modifies this
      ensures Valid() && value == (if old(error) then None else Peek(data, old(pos), n)) && error == value.None?
      ensures pos == old(pos) + if value.Some? then n else 0
    {
      var ok := Take(n);
      if !ok {
        return None;
      }
      var v := Assemble(data[pos - n..pos]);
      value := Some(v);
    }
  }

  /** The byte loop of every read: each byte shifted to its place. */
  method Assemble(field: seq<u8>) returns (v: nat)
    ensures v == FromLE(field)
  {
    v := 0;
    var scale: nat := 1;
    for i := 0 to |field|
      invariant FromLE(field) == v + scale * FromLE(field[i..])
    {
      assert field[i..][1..] == field[i + 1..];
      ScaleByte(v, scale, field[i], FromLE(field[i + 1..]));
      v := v + scale * field[i];
      scale := scale * 256;
    }
    assert field[|field|..] == [];
  }

  lemma ScaleByte(v: nat, scale: nat, byte: nat, rest: nat)
    ensures v + scale * (byte + 256 * rest) == v + scale * byte + scale * 256 * rest
  {
  }
}
