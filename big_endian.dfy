/**
 * The big-endian primitives of `java.io.DataInput` / `DataOutput` that the
 * side-data files use: `readInt`/`writeInt` (four bytes, most significant
 * first, two's complement) and `readUTF`/`writeUTF` (a two-byte unsigned
 * length followed by that many bytes of modified UTF-8, here kept as bytes),
 * and a `DataInputStream` cursor over a byte sequence.
 */
module BigEndian {
  import opened JavaTypes

  /** The bytes `writeUTF` emits after the length: at most 65535 of them. */
  type Utf = s: seq<byte> | |s| < 0x1_0000

  // ----- readUnsignedShort / writeShort -----

  function UInt16At(data: seq<byte>, pos: nat): uint16
    requires pos + 2 <= |data|
  {
    data[pos] as int * 0x100 + data[pos + 1]
  }

  function UInt16Bytes(n: uint16): (r: seq<byte>)
    ensures |r| == 2
  {
    [n / 0x100, n % 0x100]
  }

  lemma UInt16RoundTrip(n: uint16, data: seq<byte>, pos: nat)
    requires pos + 2 <= |data| && data[pos..pos + 2] == UInt16Bytes(n)
    ensures UInt16At(data, pos) == n
  {
    assert data[pos] == UInt16Bytes(n)[0] && data[pos + 1] == UInt16Bytes(n)[1];
  }

  // ----- readInt / writeInt -----

  /** The four bytes at `pos` as an unsigned number, most significant first. */
  function UInt32At(data: seq<byte>, pos: nat): (u: int)
    requires pos + 4 <= |data|
    ensures 0 <= u < TWO_TO_32
  {
    ((data[pos] as int * 0x100 + data[pos + 1]) * 0x100 + data[pos + 2]) * 0x100 + data[pos + 3]
  }

  /** `readInt`: the four bytes at `pos` read as a two's-complement `int`. */
  function Int32At(data: seq<byte>, pos: nat): int32
    requires pos + 4 <= |data|
  {
    var u := UInt32At(data, pos);
    if u <= MAX_INT then u else u - TWO_TO_32
  }

  /** The four bytes `writeInt(x)` emits. */
  function Int32Bytes(x: int32): (r: seq<byte>)
    ensures |r| == 4
  {
    var u := if x < 0 then x + TWO_TO_32 else x;
    var v1 := u / 0x100;
    var v2 := v1 / 0x100;
    [v2 / 0x100, v2 % 0x100, v1 % 0x100, u % 0x100]
  }

  /** `readInt` recovers what `writeInt` wrote. */
  lemma Int32RoundTrip(x: int32, data: seq<byte>, pos: nat)
    requires pos + 4 <= |data| && data[pos..pos + 4] == Int32Bytes(x)
    ensures Int32At(data, pos) == x
  {
    var u := if x < 0 then x + TWO_TO_32 else x;
    var v1 := u / 0x100;
    var v2 := v1 / 0x100;
    var b := Int32Bytes(x);
    assert data[pos] == b[0] && data[pos + 1] == b[1] && data[pos + 2] == b[2] && data[pos + 3] == b[3];
    assert v2 == (v2 / 0x100) * 0x100 + v2 % 0x100;
    assert v1 == v2 * 0x100 + v1 % 0x100;
    assert u == v1 * 0x100 + u % 0x100;
    assert UInt32At(data, pos) == u;
  }

  /** `writeInt` of what `readInt` read reproduces the four bytes. */
  lemma Int32BytesOfRead(data: seq<byte>, pos: nat)
    requires pos + 4 <= |data|
    ensures Int32Bytes(Int32At(data, pos)) == data[pos..pos + 4]
  {
    var d0, d1, d2, d3: int := data[pos], data[pos + 1], data[pos + 2], data[pos + 3];
    var v2 := d0 * 0x100 + d1;
    var v1 := v2 * 0x100 + d2;
    var u := v1 * 0x100 + d3;
    assert u == UInt32At(data, pos);
    assert u / 0x100 == v1 && u % 0x100 == d3;
    assert v1 / 0x100 == v2 && v1 % 0x100 == d2;
    assert v2 / 0x100 == d0 && v2 % 0x100 == d1;
    var b := Int32Bytes(Int32At(data, pos));
    assert b == [d0, d1, d2, d3];
  }

  // ----- readUTF / writeUTF -----

  /** A whole UTF entry (length and body) starts at `pos`. */
  predicate UtfFits(data: seq<byte>, pos: nat) {
    pos + 2 <= |data| && pos + 2 + UInt16At(data, pos) <= |data|
  }

  /** The position just after the UTF entry at `pos`. */
  function UtfEnd(data: seq<byte>, pos: nat): nat
    requires UtfFits(data, pos)
  {
    pos + 2 + UInt16At(data, pos)
  }

  /** The body of the UTF entry at `pos`. */
  function UtfAt(data: seq<byte>, pos: nat): Utf
    requires UtfFits(data, pos)
  {
    data[pos + 2..UtfEnd(data, pos)]
  }

  /** The bytes `writeUTF` emits for a string whose modified UTF-8 form is `s`. */
  function UtfBytes(s: Utf): (r: seq<byte>)
    ensures |r| == 2 + |s|
  {
    UInt16Bytes(|s|) + s
  }

  lemma UtfRoundTrip(s: Utf, data: seq<byte>, pos: nat)
    requires pos + 2 + |s| <= |data| && data[pos..pos + 2 + |s|] == UtfBytes(s)
    ensures UtfFits(data, pos) && UtfEnd(data, pos) == pos + 2 + |s| && UtfAt(data, pos) == s
  {
    assert data[pos..pos + 2] == data[pos..pos + 2 + |s|][..2];
    UInt16RoundTrip(|s|, data, pos);
    assert data[pos + 2..pos + 2 + |s|] == data[pos..pos + 2 + |s|][2..];
  }

  lemma UtfBytesOfRead(data: seq<byte>, pos: nat)
    requires UtfFits(data, pos)
    ensures UtfBytes(UtfAt(data, pos)) == data[pos..UtfEnd(data, pos)]
  {
    var s := UtfAt(data, pos);
    assert UInt16Bytes(|s|) == data[pos..pos + 2];
    assert data[pos..UtfEnd(data, pos)] == data[pos..pos + 2] + data[pos + 2..UtfEnd(data, pos)];
  }

  /**
   * `java.io.DataInputStream` over the bytes of a resource. A read past the
   * end throws `EOFException` (here: returns None) and leaves the stream
   * exhausted.
   */
  class DataInputStream {
    const data: seq<byte>
    var pos: nat

    ghost predicate Valid()
      reads this
    {
      pos <= |data|
    }

    constructor (data: seq<byte>)
      ensures Valid() && this.data == data && pos == 0
    {
      this.data := data;
      pos := 0;
    }

    method ReadInt() returns (r: Option<int32>)
      requires Valid()
      modifies this
      ensures Valid()
      ensures old(pos) + 4 <= |data| ==> r == Some(Int32At(data, old(pos))) && pos == old(pos) + 4
      ensures old(pos) + 4 > |data| ==> r.None? && pos == |data|
    {
      if pos + 4 <= |data| {
        r := Some(Int32At(data, pos));
        pos := pos + 4;
      } else {
        r := None;
        pos := |data|;
      }
    }

    method ReadUTF() returns (r: Option<Utf>)
      requires Valid()
      modifies this
      ensures Valid()
      ensures UtfFits(data, old(pos)) ==> r == Some(UtfAt(data, old(pos))) && pos == UtfEnd(data, old(pos))
      ensures !UtfFits(data, old(pos)) ==> r.None? && pos == |data|
    {
      if pos + 2 > |data| {
        r := None;
        pos := |data|;
        return;
      }
      var length := UInt16At(data, pos);
      if pos + 2 + length > |data| {
        r := None;
        pos := |data|;
        return;
      }
      r := Some(data[pos + 2..pos + 2 + length]);
      pos := pos + 2 + length;
    }
  }
}
