/** The file as the reader sees it through its random-access input stream:
    a byte sequence, a byte order and a file pointer. Reads follow
    java.io.RandomAccessFile: a read that runs past the end raises an
    end-of-file error and leaves the pointer at the end of the file,
    `skipBytes` never moves past the end, and a negative seek fails. */
module LsmStream {
  import opened JavaRuntime

  newtype byte = x: int | 0 <= x < 256

  function Pow256(n: nat): (p: nat)
    ensures p >= 1
  {
    if n == 0 then 1 else 256 * Pow256(n - 1)
  }

  /** The unsigned value of `bs` read with its first byte least significant. */
  function LittleEndianValue(bs: seq<byte>): (u: nat)
    ensures u < Pow256(|bs|)
  {
    if bs == [] then 0 else bs[0] as nat + 256 * LittleEndianValue(bs[1..])
  }

  function Reversed(bs: seq<byte>): (r: seq<byte>)
    ensures |r| == |bs|
  {
    if bs == [] then [] else Reversed(bs[1..]) + [bs[0]]
  }

  /** The unsigned value of `bs` in the stream's byte order. */
  function UnsignedValue(bs: seq<byte>, littleEndian: bool): (u: nat)
    ensures u < Pow256(|bs|)
  {
    if littleEndian then LittleEndianValue(bs) else LittleEndianValue(Reversed(bs))
  }

  /** `readInt`: four bytes as a two's complement Java `int`. */
  function DecodeInt(bs: seq<byte>, littleEndian: bool): (v: int)
    requires |bs| == 4
    ensures IsInt(v)
  {
    var u := UnsignedValue(bs, littleEndian);
    assert Pow256(4) == TWO_32;
    if u > INT_MAX then u - TWO_32 else u
  }

  /** One read at a file position: the value and the position after it, or end of file. */
  datatype Read<+T> = Got(value: T, next: nat) | Eof

  function IntAt(bytes: seq<byte>, pos: nat, littleEndian: bool): (r: Read<int>)
    ensures r.Got? <==> pos + 4 <= |bytes|
    ensures r.Got? ==> r.next == pos + 4 && IsInt(r.value)
  {
    if pos + 4 <= |bytes| then Got(DecodeInt(bytes[pos..pos + 4], littleEndian), pos + 4) else Eof
  }

  function BytesAt(bytes: seq<byte>, pos: nat, n: nat): (r: Read<seq<byte>>)
    ensures r.Got? <==> pos + n <= |bytes|
    ensures r.Got? ==> r.next == pos + n && r.value == bytes[pos..pos + n]
  {
    if pos + n <= |bytes| then Got(bytes[pos..pos + n], pos + n) else Eof
  }

  /** The file pointer after `skipBytes(n)`. */
  function SkipTo(bytes: seq<byte>, pos: nat, n: int): (p: nat)
    ensures n <= 0 ==> p == pos
    ensures n > 0 ==> p == Min(pos + n, |bytes|)
  {
    if n <= 0 then pos else if pos + n > |bytes| then |bytes| else pos + n
  }

  /** The file pointer after a read that hit the end of the file. */
  function EofPos(bytes: seq<byte>, pos: nat): nat
  {
    if pos < |bytes| then |bytes| else pos
  }

  /** Bytes of a `readString` become characters one for one (ISO-8859-1). */
  function Latin1(bs: seq<byte>): (s: string)
    ensures |s| == |bs|
    ensures forall i :: 0 <= i < |bs| ==> s[i] as int == bs[i] as int
  {
    if bs == [] then [] else [bs[0] as int as char] + Latin1(bs[1..])
  }

  class Cursor {
    const bytes: seq<byte>
    const littleEndian: bool
    var pos: nat

    constructor (bytes: seq<byte>, littleEndian: bool)
      ensures this.bytes == bytes && this.littleEndian == littleEndian && pos == 0
    {
      this.bytes := bytes;
      this.littleEndian := littleEndian;
      pos := 0;
    }

    method Seek(p: int) returns (ok: bool)
      modifies this
      ensures ok <==> p >= 0
      ensures pos == if ok then p else old(pos)
    {
      ok := p >= 0;
      if ok {
        pos := p;
      }
    }

    method ReadInt() returns (r: Read<int>)
      modifies this
      ensures r == IntAt(bytes, old(pos), littleEndian)
      ensures pos == if r.Got? then r.next else EofPos(bytes, old(pos))
    {
      r := IntAt(bytes, pos, littleEndian);
      pos := if r.Got? then r.next else EofPos(bytes, pos);
    }

    method ReadBytes(n: nat) returns (r: Read<seq<byte>>)
      modifies this
      ensures r == BytesAt(bytes, old(pos), n)
      ensures pos == if r.Got? then r.next else EofPos(bytes, old(pos))
    {
      r := BytesAt(bytes, pos, n);
      pos := if r.Got? then r.next else EofPos(bytes, pos);
    }

    method SkipBytes(n: int)
      modifies this
      ensures pos == SkipTo(bytes, old(pos), n)
    {
      pos := SkipTo(bytes, pos, n);
    }
  }
}
