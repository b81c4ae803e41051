/** The tag/type/size/value records of the LSM scan information: one value
    (`readValue`) and the tag table of one sub-block (`SubBlock.read`). */
module ScanValues {
  import opened JavaRuntime
  import opened LsmStream

  /** The value types of a scan-information entry. */
  const TYPE_SUBBLOCK: int := 0
  const TYPE_ASCII: int := 2
  const TYPE_LONG: int := 4
  const TYPE_RATIONAL: int := 5

  /** A decoded value: a 32-bit integer, the 64-bit pattern of a double
      (kept uninterpreted), or text. Unknown value types decode to the empty
      text. */
  datatype Value =
    | LongValue(n: int)
    | RationalValue(bits: nat)
    | AsciiValue(text: string)

  /** The outcome of `readValue`: a value (None for a SUBBLOCK-typed entry)
      and the position after it, an end-of-file error, or a fault that is
      not an I/O error. */
  datatype ValueRead =
    | ValueGot(value: Option<Value>, next: nat)
    | ValueEof
    | ValueCrash(fault: Fault)

  /** `readValue` at `pos`: a type and a size, then a payload whose length
      depends on the type. */
  function ValueAt(bytes: seq<byte>, pos: nat, littleEndian: bool): (r: ValueRead)
    ensures r.ValueGot? ==> pos + 8 <= r.next <= |bytes|
    ensures r.ValueCrash? ==> r.fault == NegativeArraySize
  {
    match IntAt(bytes, pos, littleEndian)
    case Eof => ValueEof
    case Got(blockType, p1) =>
      match IntAt(bytes, p1, littleEndian)
      case Eof => ValueEof
      case Got(dataSize, p2) =>
        if blockType == TYPE_LONG then
          match IntAt(bytes, p2, littleEndian)
          case Eof => ValueEof
          case Got(v, p3) => ValueGot(Some(LongValue(v)), p3)
        else if blockType == TYPE_RATIONAL then
          match BytesAt(bytes, p2, 8)
          case Eof => ValueEof
          case Got(bits, p3) => ValueGot(Some(RationalValue(UnsignedValue(bits, littleEndian))), p3)
        else if blockType == TYPE_ASCII then
          if dataSize < 0 then ValueCrash(NegativeArraySize)
          else
            match BytesAt(bytes, p2, dataSize)
            case Eof => ValueEof
            case Got(text, p3) => ValueGot(Some(AsciiValue(Latin1(text))), p3)
        else if blockType == TYPE_SUBBLOCK then ValueGot(None, p2)
        else ValueGot(Some(AsciiValue("")), SkipTo(bytes, p2, dataSize))
  }

  /** The bytes `readValue` consumes: 8 header bytes, then 4 for LONG, 8 for
      RATIONAL, the declared size for ASCII and for unknown types (the
      latter clamped to the end of the file and giving ""), and nothing for
      SUBBLOCK, which alone yields no value. */
  lemma ValueConsumption(bytes: seq<byte>, pos: nat, littleEndian: bool)
    requires pos + 8 <= |bytes|
    ensures var blockType := IntAt(bytes, pos, littleEndian).value;
      var dataSize := IntAt(bytes, pos + 4, littleEndian).value;
      var r := ValueAt(bytes, pos, littleEndian);
      (r.ValueGot? && r.value.None? <==> blockType == TYPE_SUBBLOCK) &&
      (blockType == TYPE_SUBBLOCK ==> r.next == pos + 8) &&
      (blockType == TYPE_LONG ==> (r.ValueGot? <==> pos + 12 <= |bytes|) && (r.ValueGot? ==> r.next == pos + 12)) &&
      (blockType == TYPE_RATIONAL ==> (r.ValueGot? <==> pos + 16 <= |bytes|) && (r.ValueGot? ==> r.next == pos + 16)) &&
      (blockType == TYPE_ASCII ==>
        (r.ValueCrash? <==> dataSize < 0) &&
        (r.ValueGot? <==> 0 <= dataSize && pos + 8 + dataSize <= |bytes|) &&
        (r.ValueGot? ==> r.next == pos + 8 + dataSize && |r.value.value.text| == dataSize)) &&
      (blockType !in {TYPE_SUBBLOCK, TYPE_ASCII, TYPE_LONG, TYPE_RATIONAL} ==>
        r == ValueGot(Some(AsciiValue("")), SkipTo(bytes, pos + 8, dataSize)))
  {
  }

  /** The tag table of a sub-block, as `SubBlock.read` leaves it. */
  datatype BlockRead =
    | BlockDone(data: map<int, Value>, next: nat)  // ended by a SUBBLOCK-typed value
    | BlockTruncated(data: map<int, Value>)        // an I/O error, caught by the constructor
    | BlockCrash(fault: Fault)                     // an error the constructor does not catch

  /** The entries of a sub-block from `pos` on, added to `data`: tag, then
      value, until a SUBBLOCK-typed value; a tag already present keeps its
      first value. */
  function EntriesFrom(bytes: seq<byte>, pos: nat, littleEndian: bool, data: map<int, Value>): (r: BlockRead)
    ensures !r.BlockCrash? ==> forall k :: k in data ==> k in r.data && r.data[k] == data[k]
    ensures r.BlockDone? ==> pos + 12 <= r.next <= |bytes|
    decreases |bytes| - pos
  {
    match IntAt(bytes, pos, littleEndian)
    case Eof => BlockTruncated(data)
    case Got(entry, p1) =>
      match ValueAt(bytes, p1, littleEndian)
      case ValueEof => BlockTruncated(data)
      case ValueCrash(f) => BlockCrash(f)
      case ValueGot(v, p2) =>
        if v.None? then BlockDone(data, p2)
        else EntriesFrom(bytes, p2, littleEndian, if entry in data then data else data[entry := v.value])
  }

  /** `SubBlock.read`: the table starts empty. */
  function BlockAt(bytes: seq<byte>, pos: nat, littleEndian: bool): BlockRead
  {
    EntriesFrom(bytes, pos, littleEndian, map[])
  }

  /** A tag that repeats keeps its first value: a second entry with the same
      tag is consumed but does not replace it. */
  lemma {:induction false} RepeatedTagKeepsFirst(bytes: seq<byte>, pos: nat, littleEndian: bool,
                                                 data: map<int, Value>, entry: int, v: Value, p2: nat)
    requires IntAt(bytes, pos, littleEndian) == Got(entry, pos + 4)
    requires ValueAt(bytes, pos + 4, littleEndian) == ValueGot(Some(v), p2)
    requires entry in data
    ensures EntriesFrom(bytes, pos, littleEndian, data) == EntriesFrom(bytes, p2, littleEndian, data)
  {
  }

  /** A tag not yet in the table is stored with the value `readValue` gives
      for it, and the table goes on after that value; the stored value
      survives to the end of the table. */
  lemma {:induction false} NewTagIsStored(bytes: seq<byte>, pos: nat, littleEndian: bool,
                                          data: map<int, Value>, entry: int, v: Value, p2: nat)
    requires IntAt(bytes, pos, littleEndian) == Got(entry, pos + 4)
    requires ValueAt(bytes, pos + 4, littleEndian) == ValueGot(Some(v), p2)
    requires entry !in data
    ensures EntriesFrom(bytes, pos, littleEndian, data) == EntriesFrom(bytes, p2, littleEndian, data[entry := v])
    ensures var r := EntriesFrom(bytes, pos, littleEndian, data);
      !r.BlockCrash? ==> entry in r.data && r.data[entry] == v
  {
  }

  /** An entry whose value type is SUBBLOCK ends the table: the table read so
      far is the result, and reading resumes right after the entry's 12 bytes
      (the tag, the type and the size). */
  lemma SubblockEndsTable(bytes: seq<byte>, pos: nat, littleEndian: bool, data: map<int, Value>)
    requires pos + 12 <= |bytes|
    requires IntAt(bytes, pos + 4, littleEndian).value == TYPE_SUBBLOCK
    ensures EntriesFrom(bytes, pos, littleEndian, data) == BlockDone(data, pos + 12)
  {
    ValueConsumption(bytes, pos + 4, littleEndian);
  }

  /** A value read through the cursor: `readValue`. */
  method ReadValue(c: Cursor) returns (r: ValueRead)
    modifies c
    ensures r == ValueAt(c.bytes, old(c.pos), c.littleEndian)
    ensures r.ValueGot? ==> c.pos == r.next
    ensures r.ValueEof? ==> c.pos >= |c.bytes|
  {
    var t := c.ReadInt();
    if t.Eof? {
      return ValueEof;
    }
    var s := c.ReadInt();
    if s.Eof? {
      return ValueEof;
    }
    var blockType, dataSize := t.value, s.value;
    if blockType == TYPE_LONG {
      var v := c.ReadInt();
      r := if v.Eof? then ValueEof else ValueGot(Some(LongValue(v.value)), v.next);
    } else if blockType == TYPE_RATIONAL {
      var bits := c.ReadBytes(8);
      r := if bits.Eof? then ValueEof else ValueGot(Some(RationalValue(UnsignedValue(bits.value, c.littleEndian))), bits.next);
    } else if blockType == TYPE_ASCII {
      if dataSize < 0 {
        return ValueCrash(NegativeArraySize);
      }
      var text := c.ReadBytes(dataSize);
      r := if text.Eof? then ValueEof else ValueGot(Some(AsciiValue(Latin1(text.value))), text.next);
    } else if blockType == TYPE_SUBBLOCK {
      r := ValueGot(None, c.pos);
    } else {
      c.SkipBytes(dataSize);
      r := ValueGot(Some(AsciiValue("")), c.pos);
    }
  }

  /** `SubBlock.read` through the cursor: fills the tag table in a loop. */
  method ReadBlockData(c: Cursor) returns (r: BlockRead)
    modifies c
    ensures r == BlockAt(c.bytes, old(c.pos), c.littleEndian)
    ensures r.BlockDone? ==> c.pos == r.next
    ensures r.BlockTruncated? ==> c.pos >= |c.bytes|
  {
    var data: map<int, Value> := map[];
    while true
      invariant BlockAt(c.bytes, old(c.pos), c.littleEndian) == EntriesFrom(c.bytes, c.pos, c.littleEndian, data)
      decreases |c.bytes| - c.pos
    {
      ghost var start := c.pos;
      var entry := c.ReadInt();
      if entry.Eof? {
        return BlockTruncated(data);
      }
      var value := ReadValue(c);
      match value {
        case ValueEof =>
          return BlockTruncated(data);
        case ValueCrash(f) =>
          return BlockCrash(f);
        case ValueGot(v, _) =>
          if v.None? {
            return BlockDone(data, c.pos);
          }
          if entry.value !in data {
            data := data[entry.value := v.value];
          }
      }
    }
  }
}
