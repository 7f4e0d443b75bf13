/** ByteCursor.h: bounds-checked little-endian cursors over a caller's buffer. */
module ByteCursors {
  import opened Prelude
  import opened Wire

  class ByteWriter {
    const buffer: array<u8>
    var position: nat

    ghost predicate Valid()
      reads this
    {
      position <= buffer.Length
    }

    ghost function Written(): seq<u8>
      requires Valid()
      reads this, buffer
    {
      buffer[..position]
    }

    constructor (buffer: array<u8>)
      ensures Valid() && this.buffer == buffer && position == 0
    {
      this.buffer := buffer;
      position := 0;
    }

    /** Every write happens whole or not at all. */
    method WriteU8(value: u8) returns (ok: bool)
      requires Valid()
      modifies this`position, buffer
      ensures Valid() && ok == (old(position) + 1 <= buffer.Length)
      ensures Written() == if ok then old(Written()) + [value] else old(Written())
    {
      if position + 1 > buffer.Length {
        return false;
      }
      buffer[position] := value;
      position := position + 1;
      ok := true;
    }

    method WriteU16(value: u16) returns (ok: bool)
      requires Valid()
      modifies this`position, buffer
      ensures Valid() && ok == (old(position) + 2 <= buffer.Length)
      ensures Written() == if ok then old(Written()) + LE(value, 2) else old(Written())
    {
      if position + 2 > buffer.Length {
        return false;
      }
      LEBytes(value);
      buffer[position] := value % 256;
      buffer[position + 1] := value / 256 % 256;
      position := position + 2;
      ok := true;
    }

    method WriteU32(value: u32) returns (ok: bool)
      requires Valid()
      modifies this`position, buffer
      ensures Valid() && ok == (old(position) + 4 <= buffer.Length)
      ensures Written() == if ok then old(Written()) + LE(value, 4) else old(Written())
    {
      if position + 4 > buffer.Length {
        return false;
      }
      LEBytes(value);
      buffer[position] := value % 256;
      buffer[position + 1] := value / 0x100 % 256;
      buffer[position + 2] := value / 0x1_0000 % 256;
      buffer[position + 3] := value / 0x100_0000 % 256;
      position := position + 4;
      ok := true;
    }

    /** Two words, low word first. */
    method WriteU64(value: u64) returns (ok: bool)
      requires Valid()
      modifies this`position, buffer
      ensures Valid() && (ok <==> old(position) + 8 <= buffer.Length)
      ensures ok ==> Written() == old(Written()) + U64Bytes(value)
    {
      ok := WriteU32(value % 0x1_0000_0000);
      if ok {
        ok := WriteU32(value / 0x1_0000_0000);
      }
    }
  }

  lemma Shifts(v: nat)
    ensures v / 256 / 256 == v / 0x1_0000 && v / 256 / 256 / 256 == v / 0x100_0000
  {
  }

  /** The shift-and-mask bytes of a value. */
  lemma {:induction false} LEBytes(v: u32)
    ensures LE(v, 2) == [v % 256, v / 0x100 % 256]
    ensures LE(v, 4) == [v % 256, v / 0x100 % 256, v / 0x1_0000 % 256, v / 0x100_0000 % 256]
  {
    Shifts(v);
    var a, b, c := v / 256, v / 256 / 256, v / 256 / 256 / 256;
    LEByte(v, a, 3);
    LEByte(v, a, 1);
    LEByte(a, b, 2);
    LEByte(a, b, 0);
    LEByte(b, c, 1);
    LEByte(c, c / 256, 0);
  }

  lemma LEByte(v: nat, rest: nat, n: nat)
    requires rest == v / 256
    ensures LE(v, n + 1) == [v % 256] + LE(rest, n)
  {
  }

  /** The shift-and-or of four bytes. */
  function FourBytes(b0: nat, b1: nat, b2: nat, b3: nat): nat {
    b0 + 0x100 * b1 + 0x1_0000 * b2 + 0x100_0000 * b3
  }

  class ByteReader {
    const buffer: array<u8>
    var position: nat

    ghost predicate Valid()
      reads this
    {
      position <= buffer.Length
    }

    constructor (buffer: array<u8>)
      ensures Valid() && this.buffer == buffer && position == 0
    {
      this.buffer := buffer;
      position := 0;
    }

    /** A read gives the field at the cursor, or reports underflow and stays. */
    method ReadU8() returns (value: Option<nat>)
      requires Valid()
      modifies this`position
      ensures Valid() && value == Peek(buffer[..], old(position), 1)
      ensures position == old(position) + if value.Some? then 1 else 0
    {
      if position + 1 > buffer.Length {
        return None;
      }
      assert buffer[..][position..position + 1] == [buffer[position]];
      assert FromLE([buffer[position]]) == buffer[position];
      value := Some(buffer[position]);
      position := position + 1;
    }

    method ReadU16() returns (value: Option<nat>)
      requires Valid()
      modifies this`position
      ensures Valid() && value == Peek(buffer[..], old(position), 2)
      ensures position == old(position) + if value.Some? then 2 else 0
    {
      if position + 2 > buffer.Length {
        return None;
      }
      FromLEOf(buffer[..][position..position + 2]);
      value := Some(FourBytes(buffer[position], buffer[position + 1], 0, 0));
      position := position + 2;
    }

    method ReadU32() returns (value: Option<nat>)
      requires Valid()
      modifies this`position
      ensures Valid() && value == Peek(buffer[..], old(position), 4)
      ensures position == old(position) + if value.Some? then 4 else 0
    {
      if position + 4 > buffer.Length {
        return None;
      }
      FromLEOf(buffer[..][position..position + 4]);
      value := Some(FourBytes(buffer[position], buffer[position + 1], buffer[position + 2], buffer[position + 3]));
      position := position + 4;
    }
  }

  /** It is the value of two and of four little-endian bytes. */
  lemma {:induction false} FromLEOf(b: seq<u8>)
    ensures |b| == 2 ==> FromLE(b) == FourBytes(b[0], b[1], 0, 0)
    ensures |b| == 4 ==> FromLE(b) == FourBytes(b[0], b[1], b[2], b[3])
  {
    if |b| == 2 {
      assert b[1..][1..] == [] && FromLE(b[1..]) == b[1];
    }
    if |b| == 4 {
      assert b[1..][1..] == b[2..] && b[2..][1..] == b[3..] && b[3..][1..] == [];
      assert FromLE(b[3..]) == b[3];
      assert FromLE(b[2..]) == FourBytes(b[2], b[3], 0, 0);
      assert FromLE(b[1..]) == FourBytes(b[1], b[2], b[3], 0);
    }
  }
}
