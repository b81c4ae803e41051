/** The walk over the scan information: a flat sequence of 12-byte entry
    headers (tag, type, size). A SUBBLOCK header with a known tag starts a
    record whose tag table follows; a SUBBLOCK header with another tag is
    consumed alone, so the walk continues inside that block; any other entry
    is skipped by its declared size. */
module ScanWalk {
  import opened JavaRuntime
  import opened LsmStream
  import opened ScanValues
  import opened ScanBlocks

  /** What one entry header at `pos` leads to: a skip to the next header, a
      record and the header after its tag table, an unread record that ends
      the walk, or an error that escapes. */
  datatype Step =
    | Skip(next: nat)
    | Record(block: Block, next: nat)
    | Stop(last: Block)
    | Fail(fault: Fault)

  function StepAt(bytes: seq<byte>, pos: nat, littleEndian: bool): (s: Step)
    requires pos + 12 < |bytes|
    ensures (s.Skip? || s.Record?) ==> pos + 12 <= s.next
    ensures s.Record? ==> Fits(s.block.kind, s.block.fields)
    ensures s.Stop? ==> Fits(s.last.kind, s.last.fields) && s.last.acquire
  {
    var entry := IntAt(bytes, pos, littleEndian).value;
    var blockType := IntAt(bytes, pos + 4, littleEndian).value;
    var dataSize := IntAt(bytes, pos + 8, littleEndian).value;
    if blockType != TYPE_SUBBLOCK then Skip(SkipTo(bytes, pos + 12, dataSize))
    else
      match KindOf(entry)
      case None => Skip(pos + 12)
      case Some(kind) =>
        match BlockAt(bytes, pos + 12, littleEndian)
        case BlockCrash(f) => Fail(f)
        case BlockTruncated(_) => Stop(Unread(kind))
        case BlockDone(data, next) =>
          match Derive(kind, data)
          case Err(f) => Fail(f)
          case Ok(b) => Record(b, next)
  }

  /** The records built while walking from `pos`: the scan-information loop
      of `initMetadata`. */
  function WalkFrom(bytes: seq<byte>, pos: nat, littleEndian: bool): (r: Result<seq<Block>>)
    ensures r.Ok? ==> forall k :: 0 <= k < |r.value| ==> Fits(r.value[k].kind, r.value[k].fields)
    decreases |bytes| - pos
  {
    if pos + 12 >= |bytes| then Ok([])
    else
      match StepAt(bytes, pos, littleEndian)
      case Skip(next) => WalkFrom(bytes, next, littleEndian)
      case Record(b, next) =>
        var rest :- WalkFrom(bytes, next, littleEndian);
        Ok([b] + rest)
      case Stop(b) => Ok([b])
      case Fail(f) => Err(f)
  }

  /** A SUBBLOCK header whose tag names no record type costs exactly its 12
      bytes: the walk resumes at the first byte after it. */
  lemma UnknownSubblockIsEntered(bytes: seq<byte>, pos: nat, littleEndian: bool)
    requires pos + 12 < |bytes|
    requires IntAt(bytes, pos + 4, littleEndian).value == TYPE_SUBBLOCK
    requires KindOf(IntAt(bytes, pos, littleEndian).value).None?
    ensures WalkFrom(bytes, pos, littleEndian) == WalkFrom(bytes, pos + 12, littleEndian)
  {
  }

  /** Any other entry type is skipped by its declared size (a size that is
      not positive skips nothing, and the skip stops at the end of the file). */
  lemma OtherEntryIsSkipped(bytes: seq<byte>, pos: nat, littleEndian: bool)
    requires pos + 12 < |bytes|
    requires IntAt(bytes, pos + 4, littleEndian).value != TYPE_SUBBLOCK
    ensures var dataSize := IntAt(bytes, pos + 8, littleEndian).value;
      WalkFrom(bytes, pos, littleEndian) == WalkFrom(bytes, SkipTo(bytes, pos + 12, dataSize), littleEndian)
  {
  }

  /** A SUBBLOCK header with a known tag whose tag table ends cleanly and
      whose `read()` completes contributes the derived record, and the walk
      resumes after the table. */
  lemma KnownRecordIsDerived(bytes: seq<byte>, pos: nat, littleEndian: bool, kind: Kind,
                             data: map<int, Value>, next: nat, b: Block)
    requires pos + 12 < |bytes|
    requires IntAt(bytes, pos + 4, littleEndian).value == TYPE_SUBBLOCK
    requires KindOf(IntAt(bytes, pos, littleEndian).value) == Some(kind)
    requires BlockAt(bytes, pos + 12, littleEndian) == BlockDone(data, next)
    requires Derive(kind, data) == Ok(b)
    ensures WalkFrom(bytes, pos, littleEndian) == Prepend([b], WalkFrom(bytes, next, littleEndian))
  {
  }

  /** A known record whose `read()` fails ends the walk with that fault. */
  lemma FailedRecordEndsWalk(bytes: seq<byte>, pos: nat, littleEndian: bool, kind: Kind,
                             data: map<int, Value>, next: nat)
    requires pos + 12 < |bytes|
    requires IntAt(bytes, pos + 4, littleEndian).value == TYPE_SUBBLOCK
    requires KindOf(IntAt(bytes, pos, littleEndian).value) == Some(kind)
    requires BlockAt(bytes, pos + 12, littleEndian) == BlockDone(data, next)
    requires Derive(kind, data).Err?
    ensures WalkFrom(bytes, pos, littleEndian) == Err(Derive(kind, data).fault)
  {
  }

  /** A record whose tag table runs into the end of the file is kept, unread,
      and ends the walk. */
  lemma TruncatedRecordEndsWalk(bytes: seq<byte>, pos: nat, littleEndian: bool)
    requires pos + 12 < |bytes|
    requires IntAt(bytes, pos + 4, littleEndian).value == TYPE_SUBBLOCK
    requires KindOf(IntAt(bytes, pos, littleEndian).value).Some?
    requires BlockAt(bytes, pos + 12, littleEndian).BlockTruncated?
    ensures WalkFrom(bytes, pos, littleEndian) == Ok([Unread(KindOf(IntAt(bytes, pos, littleEndian).value).value)])
  {
  }

  /** The scan information of a series: offset 0 means there is none, and a
      negative offset is a failed seek. */
  function ScanInformation(bytes: seq<byte>, offset: int, littleEndian: bool): (r: Result<seq<Block>>)
    ensures offset == 0 ==> r == Ok([])
    ensures offset < 0 ==> r == Err(NegativeSeek)
  {
    if offset == 0 then Ok([])
    else if offset < 0 then Err(NegativeSeek)
    else WalkFrom(bytes, offset, littleEndian)
  }

  /** One step through the cursor: reads the header and, for a record, its
      tag table. */
  method ReadStep(c: Cursor) returns (s: Step)
    requires c.pos + 12 < |c.bytes|
    modifies c
    ensures s == StepAt(c.bytes, old(c.pos), c.littleEndian)
    ensures (s.Skip? || s.Record?) ==> c.pos == s.next
    ensures s.Stop? ==> c.pos >= |c.bytes|
  {
    var entry := c.ReadInt();
    var blockType := c.ReadInt();
    var dataSize := c.ReadInt();
    if blockType.value != TYPE_SUBBLOCK {
      c.SkipBytes(dataSize.value);
      return Skip(c.pos);
    }
    var kind := KindOf(entry.value);
    if kind.None? {
      return Skip(c.pos);
    }
    var table := ReadBlockData(c);
    match table {
      case BlockCrash(f) =>
        s := Fail(f);
      case BlockTruncated(_) =>
        s := Stop(Unread(kind.value));
      case BlockDone(data, next) =>
        var b := Derive(kind.value, data);
        s := if b.Err? then Fail(b.fault) else Record(b.value, next);
    }
  }

  /** The cursor loop of the scan-information walk. */
  method ReadScanBlocks(c: Cursor) returns (r: Result<seq<Block>>)
    modifies c
    ensures r == WalkFrom(c.bytes, old(c.pos), c.littleEndian)
  {
    var blocks: seq<Block> := [];
    PrependNothing(WalkFrom(c.bytes, c.pos, c.littleEndian));
    // The source also stops on a negative file pointer, which a `nat` cannot be.
    while c.pos + 12 < |c.bytes|
      invariant WalkFrom(c.bytes, old(c.pos), c.littleEndian) == Prepend(blocks, WalkFrom(c.bytes, c.pos, c.littleEndian))
      decreases |c.bytes| - c.pos
    {
      var s := ReadStep(c);
      match s {
        case Fail(f) =>
          return Err(f);
        case Skip(_) =>
        case Stop(b) =>
          PrependTwice(blocks, [b], Ok([]));
          assert [b] + [] == [b];
          blocks := blocks + [b];
        case Record(b, _) =>
          PrependTwice(blocks, [b], WalkFrom(c.bytes, c.pos, c.littleEndian));
          blocks := blocks + [b];
      }
    }
    r := Ok(blocks);
    assert blocks + [] == blocks;
  }
}
