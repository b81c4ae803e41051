/** The small framing rules of the LSM reader: the event list's count and
    description clamps, the overlay list's header test and shape-to-shape
    re-seek, and the list of files a dataset uses. */
module Framing {
  import opened JavaRuntime
  import opened LsmStream

  // ---------------------------------------------------------------------
  // Event list

  const MAX_EVENTS: int := 65535
  const MAX_DESCRIPTION: int := 65536

  /** The reading the count is taken from: the same four bytes are read in
      the stream's byte order (`numEvents`) and in the opposite order
      (`tmpEvents`); a negative first reading takes the second, otherwise the
      smaller of the two. */
  function ChosenReading(numEvents: int, tmpEvents: int): (chosen: int)
    ensures numEvents < 0 ==> chosen == tmpEvents
    ensures numEvents >= 0 ==> chosen <= numEvents && chosen <= tmpEvents &&
                               (chosen == numEvents || chosen == tmpEvents)
  {
    if numEvents < 0 then tmpEvents else Min(numEvents, tmpEvents)
  }

  /** The event count: the chosen reading, except that a reading above 65535
      becomes 0, so the whole list is skipped rather than read in part. */
  function EventCount(numEvents: int, tmpEvents: int): (n: int)
    ensures n <= MAX_EVENTS
    ensures ChosenReading(numEvents, tmpEvents) > MAX_EVENTS ==> n == 0
    ensures ChosenReading(numEvents, tmpEvents) <= MAX_EVENTS ==> n == ChosenReading(numEvents, tmpEvents)
    ensures n > 0 ==> n <= tmpEvents && (numEvents >= 0 ==> n <= numEvents)
  {
    var count := ChosenReading(numEvents, tmpEvents);
    if count > MAX_EVENTS then 0 else count
  }

  /** With both readings non-negative the byte order does not matter, and a
      count that both readings allow is kept. */
  lemma EventCountSymmetric(a: int, b: int)
    requires a >= 0 && b >= 0
    ensures EventCount(a, b) == EventCount(b, a)
    ensures a == b && a <= MAX_EVENTS ==> EventCount(a, b) == a
  {
  }

  /** The description length of an event of `size` bytes: `size - 16` in
      32-bit arithmetic, clamped to [0, 65536]. */
  function DescriptionLength(size: int): (len: nat)
    requires IsInt(size)
    ensures len <= MAX_DESCRIPTION
    ensures Wrap(size - 16) > MAX_DESCRIPTION ==> len == MAX_DESCRIPTION
    ensures Wrap(size - 16) < 0 ==> len == 0
    ensures 0 <= Wrap(size - 16) <= MAX_DESCRIPTION ==> len == Wrap(size - 16)
    ensures 16 <= size <= 16 + MAX_DESCRIPTION ==> len == size - 16
    ensures size < 16 && size >= INT_MIN + 16 ==> len == 0
  {
    var len := Wrap(size - 16);
    if len > MAX_DESCRIPTION then MAX_DESCRIPTION else if len < 0 then 0 else len
  }

  /** The sizes whose 32-bit `size - 16` wraps to a large positive value get
      the longest description. */
  lemma WrappedSizeGetsLongestDescription(size: int)
    requires INT_MIN <= size < INT_MIN + 16
    ensures DescriptionLength(size) == MAX_DESCRIPTION
  {
  }

  datatype Event = Event(time: nat, eventType: int, description: string)

  /** One iteration of the event loop at `pos`: nothing read when fewer than
      16 bytes are left; otherwise size, time, type and the description,
      then a re-seek to the start of the event plus `size`. */
  datatype EventStep = EventRead(event: Event, next: nat) | TooShort | EventFailed(fault: Fault)

  function EventAt(bytes: seq<byte>, pos: nat, littleEndian: bool): (s: EventStep)
    ensures s.TooShort? <==> pos + 16 > |bytes|
    ensures pos + 16 <= |bytes| ==>
      var size := IntAt(bytes, pos, littleEndian).value;
      (s == EventFailed(EndOfFile) <==> pos + 16 + DescriptionLength(size) > |bytes|) &&
      (s == EventFailed(NegativeSeek) <==> pos + 16 + DescriptionLength(size) <= |bytes| && pos + size < 0) &&
      (s.EventRead? ==> s.next == pos + size && |s.event.description| == DescriptionLength(size) &&
                        s.event.eventType == IntAt(bytes, pos + 12, littleEndian).value)
    ensures s.EventRead? ==> |s.event.description| <= MAX_DESCRIPTION
    ensures s.EventFailed? ==> s.fault in {EndOfFile, NegativeSeek}
  {
    if pos + 16 > |bytes| then TooShort
    else
      var size := IntAt(bytes, pos, littleEndian).value;
      var time := UnsignedValue(bytes[pos + 4..pos + 12], littleEndian);
      var eventType := IntAt(bytes, pos + 12, littleEndian).value;
      match BytesAt(bytes, pos + 16, DescriptionLength(size))
      case Eof => EventFailed(EndOfFile)
      case Got(text, _) =>
        if pos + size < 0 then EventFailed(NegativeSeek)
        else EventRead(Event(time, eventType, Latin1(text)), pos + size)
  }

  /** The events of `remaining` more iterations from `pos` on. */
  function EventsFrom(bytes: seq<byte>, pos: nat, littleEndian: bool, remaining: nat): (r: Result<seq<Event>>)
    ensures r.Ok? ==> |r.value| <= remaining
    ensures r.Ok? ==> forall k :: 0 <= k < |r.value| ==> |r.value[k].description| <= MAX_DESCRIPTION
    ensures r.Err? ==> r.fault in {EndOfFile, NegativeSeek}
    decreases remaining
  {
    if remaining == 0 then Ok([])
    else
      match EventAt(bytes, pos, littleEndian)
      case TooShort => EventsFrom(bytes, pos, littleEndian, remaining - 1)
      case EventFailed(f) => Err(f)
      case EventRead(e, next) =>
        var rest :- EventsFrom(bytes, next, littleEndian, remaining - 1);
        Ok([e] + rest)
  }

  /** Once fewer than 16 bytes are left, the remaining iterations read
      nothing. */
  lemma {:induction false} ShortTailReadsNothing(bytes: seq<byte>, pos: nat, littleEndian: bool, remaining: nat)
    requires pos + 16 > |bytes|
    ensures EventsFrom(bytes, pos, littleEndian, remaining) == Ok([])
    decreases remaining
  {
    if remaining > 0 {
      ShortTailReadsNothing(bytes, pos, littleEndian, remaining - 1);
    }
  }

  /** The event list at `offset`; offset 0 means there is none. The count
      sits 4 bytes into the list and the events follow it. */
  function EventList(bytes: seq<byte>, offset: int, littleEndian: bool): (r: Result<seq<Event>>)
    ensures r.Ok? ==> |r.value| <= MAX_EVENTS
    ensures offset > 0 && offset + 8 <= |bytes| ==>
      var raw := bytes[offset + 4..offset + 8];
      var count := EventCount(DecodeInt(raw, littleEndian), DecodeInt(raw, !littleEndian));
      (r.Ok? ==> |r.value| <= Max(0, count)) && (count <= 0 ==> r == Ok([]))
  {
    if offset == 0 then Ok([])
    else if offset + 4 < 0 then Err(NegativeSeek)
    else
      match BytesAt(bytes, offset + 4, 4)
      case Eof => Err(EndOfFile)
      case Got(raw, next) =>
        var count := EventCount(DecodeInt(raw, littleEndian), DecodeInt(raw, !littleEndian));
        EventsFrom(bytes, next, littleEndian, Max(0, count))
  }

  /** One iteration of the event loop through the cursor. */
  method ReadEvent(c: Cursor) returns (s: EventStep)
    modifies c
    ensures s == EventAt(c.bytes, old(c.pos), c.littleEndian)
    ensures s.EventRead? ==> c.pos == s.next
    ensures s.TooShort? ==> c.pos == old(c.pos)
  {
    if c.pos + 16 > |c.bytes| {
      return TooShort;
    }
    ghost var start := c.pos;
    var size := c.ReadInt();
    var time := c.ReadBytes(8);
    var eventType := c.ReadInt();
    assert time.value == c.bytes[start + 4..start + 12];
    var fp := c.pos;
    var text := c.ReadBytes(DescriptionLength(size.value));
    if text.Eof? {
      return EventFailed(EndOfFile);
    }
    var ok := c.Seek(fp + size.value - 16);
    if !ok {
      return EventFailed(NegativeSeek);
    }
    s := EventRead(Event(UnsignedValue(time.value, c.littleEndian), eventType.value, Latin1(text.value)), c.pos);
  }

  /** The event loop through the cursor. */
  method ReadEvents(c: Cursor, count: int) returns (r: Result<seq<Event>>)
    modifies c
    ensures r == EventsFrom(c.bytes, old(c.pos), c.littleEndian, Max(0, count))
  {
    var events: seq<Event> := [];
    PrependNothing(EventsFrom(c.bytes, c.pos, c.littleEndian, Max(0, count)));
    var i := 0;
    while i < count
      invariant 0 <= i <= Max(0, count)
      invariant EventsFrom(c.bytes, old(c.pos), c.littleEndian, Max(0, count)) ==
                Prepend(events, EventsFrom(c.bytes, c.pos, c.littleEndian, Max(0, count) - i))
    {
      var s := ReadEvent(c);
      match s {
        case EventFailed(f) =>
          return Err(f);
        case TooShort =>
        case EventRead(e, _) =>
          PrependTwice(events, [e], EventsFrom(c.bytes, c.pos, c.littleEndian, Max(0, count) - i - 1));
          events := events + [e];
      }
      i := i + 1;
    }
    r := Ok(events);
    assert events + [] == events;
  }

  /** The event-list block of `initMetadata` through the cursor: the count
      is read twice, once per byte order, from the same four bytes. */
  method ReadEventList(c: Cursor, offset: int) returns (r: Result<seq<Event>>)
    modifies c
    ensures r == EventList(c.bytes, offset, c.littleEndian)
  {
    if offset == 0 {
      return Ok([]);
    }
    var ok := c.Seek(offset + 4);
    if !ok {
      return Err(NegativeSeek);
    }
    var raw := c.ReadBytes(4);
    if raw.Eof? {
      return Err(EndOfFile);
    }
    var numEvents := DecodeInt(raw.value, c.littleEndian);
    var tmpEvents := DecodeInt(raw.value, !c.littleEndian);
    r := ReadEvents(c, EventCount(numEvents, tmpEvents));
  }

  // ---------------------------------------------------------------------
  // Overlays

  /** The header size at or below which an overlay list is ignored, and the
      bytes a shape's fixed header takes before its type-specific part. */
  const IGNORED_HEADER_SIZE: int := 194
  const SHAPE_HEADER: nat := 170

  datatype Shape = Shape(start: nat, shapeType: int, blockLength: int)

  /** One shape at `pos`: its fixed header must be there; the next shape
      starts `blockLength` bytes after this one's start, whatever its body
      read. */
  datatype ShapeStep = ShapeRead(shape: Shape, next: nat) | ShapeFailed(fault: Fault)

  function ShapeAt(bytes: seq<byte>, pos: nat, littleEndian: bool): (s: ShapeStep)
    ensures s.ShapeRead? ==> s.shape.start == pos && pos + SHAPE_HEADER <= |bytes| &&
                             s.next == pos + s.shape.blockLength
  {
    if pos + SHAPE_HEADER > |bytes| then ShapeFailed(EndOfFile)
    else
      var shapeType := IntAt(bytes, pos, littleEndian).value;
      var blockLength := IntAt(bytes, pos + 4, littleEndian).value;
      if pos + blockLength < 0 then ShapeFailed(NegativeSeek)
      else ShapeRead(Shape(pos, shapeType, blockLength), pos + blockLength)
  }

  /** The shapes from `pos` on, `remaining` more: one per shape, each
      starting where the previous one's block length leads. */
  function ShapesFrom(bytes: seq<byte>, pos: nat, littleEndian: bool, remaining: nat): (r: Result<seq<Shape>>)
    ensures r.Ok? ==> |r.value| == remaining
    decreases remaining
  {
    if remaining == 0 then Ok([])
    else
      match ShapeAt(bytes, pos, littleEndian)
      case ShapeFailed(f) => Err(f)
      case ShapeRead(shape, next) =>
        var rest :- ShapesFrom(bytes, next, littleEndian, remaining - 1);
        Ok([shape] + rest)
  }

  /** The shapes of a successful list are chained: the first starts at
      `pos`, each next one starts `blockLength` bytes after the previous
      one's start, and every fixed shape header lies within the file. */
  lemma {:induction false} ShapesChained(bytes: seq<byte>, pos: nat, littleEndian: bool, remaining: nat)
    ensures var r := ShapesFrom(bytes, pos, littleEndian, remaining);
      r.Ok? ==>
        (remaining > 0 ==> r.value[0].start == pos) &&
        (forall k :: 0 <= k < |r.value| - 1 ==>
          r.value[k + 1].start == r.value[k].start + r.value[k].blockLength) &&
        (forall k :: 0 <= k < |r.value| ==> r.value[k].start + SHAPE_HEADER <= |bytes|)
    decreases remaining
  {
    var r := ShapesFrom(bytes, pos, littleEndian, remaining);
    if remaining > 0 && r.Ok? {
      var s := ShapeAt(bytes, pos, littleEndian);
      var rest := ShapesFrom(bytes, s.next, littleEndian, remaining - 1);
      ShapesChained(bytes, s.next, littleEndian, remaining - 1);
      assert r.value == [s.shape] + rest.value;
      forall k | 0 <= k < |r.value| - 1
        ensures r.value[k + 1].start == r.value[k].start + r.value[k].blockLength
      {
        if k > 0 { assert r.value[k] == rest.value[k - 1]; }
      }
    }
  }

  /** The overlay list at `data`: 0 means none; a header size of 194 or
      less means it is ignored; otherwise 20 bytes are skipped, a validity
      word read, 164 more bytes skipped, and `numberOfShapes` shapes
      follow. */
  function Overlays(bytes: seq<byte>, data: int, littleEndian: bool): (r: Result<seq<Shape>>)
    ensures data == 0 ==> r == Ok([])
    ensures data < 0 ==> r == Err(NegativeSeek)
  {
    if data == 0 then Ok([])
    else if data < 0 then Err(NegativeSeek)
    else
      match IntAt(bytes, data, littleEndian)
      case Eof => Err(EndOfFile)
      case Got(numberOfShapes, p1) =>
        match IntAt(bytes, p1, littleEndian)
        case Eof => Err(EndOfFile)
        case Got(size, p2) =>
          if size <= IGNORED_HEADER_SIZE then Ok([])
          else
            var p3 := SkipTo(bytes, p2, 20);
            match IntAt(bytes, p3, littleEndian)
            case Eof => Err(EndOfFile)
            case Got(_, p4) => ShapesFrom(bytes, SkipTo(bytes, p4, 164), littleEndian, Max(0, numberOfShapes))
  }

  /** A readable header with a size of at most 194 yields no shapes; a
      successful list holds exactly `numberOfShapes` shapes (none for a
      negative count). */
  lemma OverlayHeaderRule(bytes: seq<byte>, data: nat, littleEndian: bool)
    requires 0 < data && data + 8 <= |bytes|
    ensures var numberOfShapes := IntAt(bytes, data, littleEndian).value;
      var size := IntAt(bytes, data + 4, littleEndian).value;
      var r := Overlays(bytes, data, littleEndian);
      (size <= IGNORED_HEADER_SIZE ==> r == Ok([])) &&
      (size > IGNORED_HEADER_SIZE && r.Ok? ==> |r.value| == Max(0, numberOfShapes))
  {
  }

  /** The fixed header of one shape through the cursor, then the re-seek
      past its block; the type-specific part is not modelled. */
  method ReadShape(c: Cursor) returns (s: ShapeStep)
    modifies c
    ensures s == ShapeAt(c.bytes, old(c.pos), c.littleEndian)
    ensures s.ShapeRead? ==> c.pos == s.next
  {
    var offset := c.pos;
    if offset + SHAPE_HEADER > |c.bytes| {
      return ShapeFailed(EndOfFile);
    }
    var shapeType := c.ReadInt();
    var blockLength := c.ReadInt();
    var ok := c.Seek(offset + blockLength.value);
    if !ok {
      return ShapeFailed(NegativeSeek);
    }
    s := ShapeRead(Shape(offset, shapeType.value, blockLength.value), c.pos);
  }

  /** One shape less to read: the list from `pos` is the shape there
      followed by the list from where its block length leads, or the
      fault that stopped it; `acc` is what was read before. */
  lemma ShapesFromStep(acc: seq<Shape>, bytes: seq<byte>, pos: nat, littleEndian: bool, remaining: nat)
    requires remaining > 0
    ensures var s := ShapeAt(bytes, pos, littleEndian);
      Prepend(acc, ShapesFrom(bytes, pos, littleEndian, remaining)) ==
        if s.ShapeFailed? then Err(s.fault)
        else Prepend(acc + [s.shape], ShapesFrom(bytes, s.next, littleEndian, remaining - 1))
  {
    var s := ShapeAt(bytes, pos, littleEndian);
    if s.ShapeRead? {
      PrependTwice(acc, [s.shape], ShapesFrom(bytes, s.next, littleEndian, remaining - 1));
    }
  }

  /** One turn of the shape loop: what is left of the list is the shape
      read, then the rest from the cursor's new position. */
  method ReadNextShape(c: Cursor, ghost total: Result<seq<Shape>>, ghost shapes: seq<Shape>, remaining: nat)
      returns (s: ShapeStep)
    requires remaining > 0
    requires total == Prepend(shapes, ShapesFrom(c.bytes, c.pos, c.littleEndian, remaining))
    modifies c
    ensures s.ShapeFailed? ==> total == Err(s.fault)
    ensures s.ShapeRead? ==> total == Prepend(shapes + [s.shape], ShapesFrom(c.bytes, c.pos, c.littleEndian, remaining - 1))
  {
    ShapesFromStep(shapes, c.bytes, c.pos, c.littleEndian, remaining);
    s := ReadShape(c);
  }

  /** The shape loop through the cursor. */
  method ReadShapes(c: Cursor, numberOfShapes: int) returns (r: Result<seq<Shape>>)
    modifies c
    ensures r == ShapesFrom(c.bytes, old(c.pos), c.littleEndian, Max(0, numberOfShapes))
  {
    ghost var total := ShapesFrom(c.bytes, c.pos, c.littleEndian, Max(0, numberOfShapes));
    var shapes: seq<Shape> := [];
    PrependNothing(total);
    var remaining: nat := Max(0, numberOfShapes);
    while remaining > 0
      invariant total == Prepend(shapes, ShapesFrom(c.bytes, c.pos, c.littleEndian, remaining))
      decreases remaining
    {
      var s := ReadNextShape(c, total, shapes, remaining);
      if s.ShapeFailed? {
        return Err(s.fault);
      }
      shapes := shapes + [s.shape];
      remaining := remaining - 1;
    }
    r := Ok(shapes);
    assert shapes + [] == shapes;
  }

  /** `parseOverlays` through the cursor, its framing only. */
  method ReadOverlays(c: Cursor, data: int) returns (r: Result<seq<Shape>>)
    modifies c
    ensures r == Overlays(c.bytes, data, c.littleEndian)
  {
    if data == 0 {
      return Ok([]);
    }
    var ok := c.Seek(data);
    if !ok {
      return Err(NegativeSeek);
    }
    var numberOfShapes := c.ReadInt();
    if numberOfShapes.Eof? {
      return Err(EndOfFile);
    }
    var size := c.ReadInt();
    if size.Eof? {
      return Err(EndOfFile);
    }
    if size.value <= IGNORED_HEADER_SIZE {
      return Ok([]);
    }
    c.SkipBytes(20);
    var valid := c.ReadInt();
    if valid.Eof? {
      return Err(EndOfFile);
    }
    c.SkipBytes(164);
    r := ReadShapes(c, numberOfShapes.value);
  }

  // ---------------------------------------------------------------------
  // Used files

  /** `getUsedFiles`: with `noPixels`, only an MDB dataset names a file (its
      own); otherwise the LSM files of the dataset followed by the current
      file, unless the dataset is that one file. */
  function UsedFiles(currentId: string, currentIsMdb: bool, lsmFilenames: Option<seq<string>>,
                     noPixels: bool): (r: Option<seq<string>>)
    ensures noPixels ==> (r.Some? <==> currentIsMdb) && (r.Some? ==> r.value == [currentId])
    ensures !noPixels ==> r.Some? && |r.value| >= 1 && r.value[|r.value| - 1] == currentId
    ensures !noPixels && lsmFilenames.None? ==> r == Some([currentId])
    ensures !noPixels && lsmFilenames.Some? ==>
      |lsmFilenames.value| <= |r.value| && r.value[..|lsmFilenames.value|] == lsmFilenames.value
  {
    if noPixels then
      if currentIsMdb then Some([currentId]) else None
    else if lsmFilenames.None? then Some([currentId])
    else if |lsmFilenames.value| == 1 && currentId == lsmFilenames.value[0] then lsmFilenames
    else Some(lsmFilenames.value + [currentId])
  }

  /** The current file is listed exactly once more than among the LSM
      files, except for a single-file dataset that is the current file. */
  lemma UsedFilesCount(currentId: string, currentIsMdb: bool, lsmFilenames: seq<string>)
    ensures var r := UsedFiles(currentId, currentIsMdb, Some(lsmFilenames), false).value;
      if lsmFilenames == [currentId] then r == [currentId]
      else |r| == |lsmFilenames| + 1 && multiset(r)[currentId] == multiset(lsmFilenames)[currentId] + 1
  {
    if lsmFilenames != [currentId] {
      var r := UsedFiles(currentId, currentIsMdb, Some(lsmFilenames), false).value;
      assert r == lsmFilenames + [currentId];
    }
  }
}
