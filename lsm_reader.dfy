/** The reader state that the scan information feeds: the records kept after
    the acquire filter and the adjacency validation, the four slot counters
    that `populateMetadataStore` advances, the metadata-store calls (kept as
    an append-only event log), and the split-planes decision. */
module LsmReader {
  import opened JavaRuntime
  import opened LsmStream
  import opened ScanBlocks
  import opened ScanWalk
  import opened Dimensions

  /** One metadata-store call made by `populateMetadataStore`. Light sources
      are named by their index ("LightSource:" + index); doubles stay as their
      64-bit patterns. */
  datatype StoreEvent =
    | ObjectiveSettings(description: Option<string>, correction: Option<string>, immersion: Option<string>,
                        magnification: Option<int>, lensNAText: Option<string>, iris: Option<bool>)
    | LaserMedium(laser: int, medium: string)
    | LaserType(laser: int, laserType: string)
    | LightSourceId(laser: int)
    | TimeIncrement(increment: Option<nat>)
    | ChannelLightSource(channel: int, lightSource: int)
    | ChannelName(channel: int, name: string)
    | PinholeSize(channel: int, bits: nat)
    | ExcitationWavelength(channel: int, bits: nat)

  /** The reader's four slot counters. */
  datatype Slots = Slots(nextLaser: int, nextDataChannel: int, nextIllumChannel: int, nextDetectChannel: int)

  const NoSlots := Slots(0, 0, 0, 0)

  predicate AllFit(blocks: seq<Block>)
  {
    forall k :: 0 <= k < |blocks| ==> Fits(blocks[k].kind, blocks[k].fields)
  }

  // ---------------------------------------------------------------------
  // The pinhole test

  const TWO_52: nat := 0x10_0000_0000_0000

  /** The biased exponent and the fraction of a double's bit pattern. */
  function Exponent(bits: nat): nat { (bits / TWO_52) % 2048 }
  function Fraction(bits: nat): nat { bits % TWO_52 }

  /** `(float) d == 0f` for the double with pattern `bits`: the conversion
      rounds to nearest-even, so every magnitude up to 2^-150 (half the
      smallest float) becomes zero; that is an exponent field below 873, or
      exactly 873 with a zero fraction. NaN and the infinities are not zero. */
  predicate FloatIsZero(bits: nat)
  {
    Exponent(bits) < 873 || (Exponent(bits) == 873 && Fraction(bits) == 0)
  }

  /** Both zeros and the double 2^-150 convert to a zero float; the smallest
      double above 2^-150, the double 1.0 and a NaN do not. */
  lemma FloatIsZeroSamples()
    ensures FloatIsZero(0) && FloatIsZero(0x8000_0000_0000_0000)
    ensures FloatIsZero(0x3690_0000_0000_0000)
    ensures !FloatIsZero(0x3690_0000_0000_0001)
    ensures !FloatIsZero(0x3FF0_0000_0000_0000) && !FloatIsZero(0x7FF8_0000_0000_0000)
  {
  }

  // ---------------------------------------------------------------------
  // populateMetadataStore

  /** What one acquired record contributes: its store calls and the new slot
      counters. */
  function PopulateStep(s: Slots, b: Block, sizeC: int): (r: (Slots, seq<StoreEvent>))
    requires Fits(b.kind, b.fields)
    ensures r.0.nextLaser == s.nextLaser + (if b.kind == Laser then 1 else 0)
    ensures r.0.nextDetectChannel == s.nextDetectChannel + (if b.kind == DetectionChannel then 1 else 0)
    ensures s.nextDataChannel <= r.0.nextDataChannel <= Max(s.nextDataChannel, sizeC)
    ensures s.nextIllumChannel <= r.0.nextIllumChannel <= Max(s.nextIllumChannel, sizeC)
    // a DataChannel takes a slot only when it has a name and a slot below sizeC is left
    ensures r.0.nextDataChannel ==
      s.nextDataChannel + (if b.kind == DataChannel && b.fields.name.Some? && s.nextDataChannel < sizeC then 1 else 0)
    // an IlluminationChannel with a wavelength takes a slot below sizeC and writes the
    // wavelength there; one without a wavelength still takes a slot below sizeC - 1
    ensures r.0.nextIllumChannel == s.nextIllumChannel +
      (if b.kind == IlluminationChannel &&
          ((b.fields.wavelength.Some? && s.nextIllumChannel < sizeC) || s.nextIllumChannel < sizeC - 1)
       then 1 else 0)
    ensures b.kind == IlluminationChannel ==>
      r.1 == if b.fields.wavelength.Some? && s.nextIllumChannel < sizeC
             then [ExcitationWavelength(s.nextIllumChannel, b.fields.wavelength.value)] else []
  {
    match b.kind
    case Recording =>
      var f := b.fields;
      (s, [ObjectiveSettings(f.description, f.correction, f.immersion, f.magnification, f.lensNAText, f.iris)])
    case Laser =>
      var f := b.fields;
      var n := s.nextLaser;
      (s.(nextLaser := n + 1),
       (if f.medium.Some? then [LaserMedium(n, f.medium.value)] else []) +
       (if f.laserType.Some? then [LaserType(n, f.laserType.value)] else []) +
       [LightSourceId(n)])
    case Track =>
      (s, [TimeIncrement(b.fields.timeIncrement)])
    case DataChannel =>
      var n := s.nextDataChannel;
      if b.fields.name.Some? && n < sizeC then
        var lightSource := if n < s.nextLaser then n else s.nextLaser - 1;
        (s.(nextDataChannel := n + 1),
         (if lightSource >= 0 then [ChannelLightSource(n, lightSource)] else []) +
         [ChannelName(n, b.fields.name.value)])
      else (s, [])
    case DetectionChannel =>
      var n := s.nextDetectChannel;
      var pinhole := b.fields.pinhole;
      if pinhole.Some? && !FloatIsZero(pinhole.value) && n < sizeC then
        (s.(nextDetectChannel := n + 1), [PinholeSize(n, pinhole.value)])
      else (s.(nextDetectChannel := n + 1), [])
    case IlluminationChannel =>
      var n := s.nextIllumChannel;
      var wavelength := b.fields.wavelength;
      if wavelength.Some? && n < sizeC then
        (s.(nextIllumChannel := n + 1), [ExcitationWavelength(n, wavelength.value)])
      else if n < sizeC - 1 then (s.(nextIllumChannel := n + 1), [])
      else (s, [])
    case _ => (s, [])
  }

  /** The number of acquired records of one kind. */
  function AcquiredCount(blocks: seq<Block>, kind: Kind): (n: nat)
    ensures n <= |blocks|
  {
    if blocks == [] then 0
    else
      var b := blocks[|blocks| - 1];
      AcquiredCount(blocks[..|blocks| - 1], kind) + (if b.acquire && b.kind == kind then 1 else 0)
  }

  /** The calls made for the records in order, skipping those whose acquire
      flag is false, and the counters afterwards: one laser slot per acquired
      Laser, one detection slot per acquired DetectionChannel, and the data
      and illumination slots never pushed past sizeC by these calls. */
  function PopulateAll(s: Slots, blocks: seq<Block>, sizeC: int): (r: (Slots, seq<StoreEvent>))
    requires AllFit(blocks)
    ensures r.0.nextLaser == s.nextLaser + AcquiredCount(blocks, Laser)
    ensures r.0.nextDetectChannel == s.nextDetectChannel + AcquiredCount(blocks, DetectionChannel)
    ensures s.nextDataChannel <= r.0.nextDataChannel <= Max(s.nextDataChannel, sizeC)
    ensures s.nextIllumChannel <= r.0.nextIllumChannel <= Max(s.nextIllumChannel, sizeC)
    decreases |blocks|
  {
    if blocks == [] then (s, [])
    else
      var (s1, e1) := PopulateAll(s, blocks[..|blocks| - 1], sizeC);
      var b := blocks[|blocks| - 1];
      if b.acquire then
        var (s2, e2) := PopulateStep(s1, b, sizeC);
        (s2, e1 + e2)
      else (s1, e1)
  }

  /** A prefix of records that fit still fits. */
  lemma AllFitPrefix(blocks: seq<Block>, n: nat)
    requires AllFit(blocks) && n <= |blocks|
    ensures AllFit(blocks[..n])
  {
    forall k | 0 <= k < n ensures Fits(blocks[..n][k].kind, blocks[..n][k].fields) {
      assert blocks[..n][k] == blocks[k];
    }
  }

  /** The channel indices of the ChannelName calls, in order. */
  function NamedChannels(events: seq<StoreEvent>): seq<int>
  {
    if events == [] then []
    else
      var e := events[|events| - 1];
      NamedChannels(events[..|events| - 1]) + (if e.ChannelName? then [e.channel] else [])
  }

  function Range(lo: int, hi: int): (r: seq<int>)
    requires lo <= hi
    ensures |r| == hi - lo && forall k :: 0 <= k < |r| ==> r[k] == lo + k
    decreases hi - lo
  {
    if lo == hi then [] else Range(lo, hi - 1) + [hi - 1]
  }

  lemma NamedChannelsAppend(a: seq<StoreEvent>, b: seq<StoreEvent>)
    ensures NamedChannels(a + b) == NamedChannels(a) + NamedChannels(b)
    decreases |b|
  {
    if b == [] {
      assert a + b == a;
    } else {
      assert (a + b)[..|a + b| - 1] == a + b[..|b| - 1];
      assert (a + b)[|a + b| - 1] == b[|b| - 1];
      NamedChannelsAppend(a, b[..|b| - 1]);
    }
  }

  lemma RangeAppend(lo: int, mid: int, hi: int)
    requires lo <= mid <= hi
    ensures Range(lo, mid) + Range(mid, hi) == Range(lo, hi)
  {
  }

  /** Logical channel names go to consecutive channel slots, one each, from
      the counter's starting value up to its final value. */
  lemma {:induction false} ChannelNamesAreConsecutive(s: Slots, blocks: seq<Block>, sizeC: int)
    requires AllFit(blocks)
    ensures var (s1, events) := PopulateAll(s, blocks, sizeC);
      NamedChannels(events) == Range(s.nextDataChannel, s1.nextDataChannel)
    decreases |blocks|
  {
    if blocks == [] {
      assert NamedChannels([]) == [];
    } else {
      var front := blocks[..|blocks| - 1];
      assert AllFit(front) by {
        forall k | 0 <= k < |front| ensures Fits(front[k].kind, front[k].fields) {
          assert front[k] == blocks[k];
        }
      }
      ChannelNamesAreConsecutive(s, front, sizeC);
      var r1 := PopulateAll(s, front, sizeC);
      var b := blocks[|blocks| - 1];
      if b.acquire {
        var r2 := PopulateStep(r1.0, b, sizeC);
        NamedChannelsAppend(r1.1, r2.1);
        StepNamedChannels(r1.0, b, sizeC);
        RangeAppend(s.nextDataChannel, r1.0.nextDataChannel, r2.0.nextDataChannel);
      }
    }
  }

  /** One record names at most the next data-channel slot. */
  lemma StepNamedChannels(s: Slots, b: Block, sizeC: int)
    requires Fits(b.kind, b.fields)
    ensures var r := PopulateStep(s, b, sizeC);
      NamedChannels(r.1) == Range(s.nextDataChannel, r.0.nextDataChannel)
  {
    var r := PopulateStep(s, b, sizeC);
    if b.kind == DataChannel && b.fields.name.Some? && s.nextDataChannel < sizeC {
      var n := s.nextDataChannel;
      var lightSource := if n < s.nextLaser then n else s.nextLaser - 1;
      var named := [ChannelName(n, b.fields.name.value)];
      assert NamedChannels(named) == [n] by {
        assert named[..0] == [];
        assert NamedChannels([]) == [];
      }
      if lightSource >= 0 {
        var declared := [ChannelLightSource(n, lightSource)];
        assert NamedChannels(declared) == [] by {
          assert declared[..0] == [];
          assert NamedChannels([]) == [];
        }
        NamedChannelsAppend(declared, named);
      }
      assert Range(n, n + 1) == [n];
    } else {
      NoChannelNameOutsideDataChannel(s, b, sizeC);
    }
  }

  lemma NoChannelNameOutsideDataChannel(s: Slots, b: Block, sizeC: int)
    requires Fits(b.kind, b.fields)
    requires !(b.kind == DataChannel && b.fields.name.Some? && s.nextDataChannel < sizeC)
    ensures NamedChannels(PopulateStep(s, b, sizeC).1) == []
  {
    var e := PopulateStep(s, b, sizeC).1;
    match b.kind {
      case Laser =>
        var f := b.fields;
        var n := s.nextLaser;
        var m: seq<StoreEvent> := if f.medium.Some? then [LaserMedium(n, f.medium.value)] else [];
        var t: seq<StoreEvent> := if f.laserType.Some? then [LaserType(n, f.laserType.value)] else [];
        assert e == m + t + [LightSourceId(n)];
        NamedChannelsAppend(m + t, [LightSourceId(n)]);
        NamedChannelsAppend(m, t);
      case _ =>
    }
  }

  /** The channel indices of the ExcitationWavelength calls, in order. */
  function WavelengthChannels(events: seq<StoreEvent>): seq<int>
  {
    if events == [] then []
    else
      var e := events[|events| - 1];
      WavelengthChannels(events[..|events| - 1]) + (if e.ExcitationWavelength? then [e.channel] else [])
  }

  lemma WavelengthChannelsAppend(a: seq<StoreEvent>, b: seq<StoreEvent>)
    ensures WavelengthChannels(a + b) == WavelengthChannels(a) + WavelengthChannels(b)
    decreases |b|
  {
    if b == [] {
      assert a + b == a;
    } else {
      assert (a + b)[..|a + b| - 1] == a + b[..|b| - 1];
      assert (a + b)[|a + b| - 1] == b[|b| - 1];
      WavelengthChannelsAppend(a, b[..|b| - 1]);
    }
  }

  /** `w` lists slots in [lo, hi), each below sizeC, strictly ascending. */
  predicate AscendingSlots(w: seq<int>, lo: int, hi: int, sizeC: int)
  {
    (forall k :: 0 <= k < |w| ==> lo <= w[k] < hi && w[k] < sizeC) &&
    (forall j, k :: 0 <= j < k < |w| ==> w[j] < w[k])
  }

  /** Excitation wavelengths land in illumination slots below sizeC, each in a
      slot the illumination counter hands out during the run, in strictly
      ascending order; a slot skipped by a wavelength-less record gets none. */
  lemma {:induction false} WavelengthSlotsAscending(s: Slots, blocks: seq<Block>, sizeC: int)
    requires AllFit(blocks)
    ensures var r := PopulateAll(s, blocks, sizeC);
      AscendingSlots(WavelengthChannels(r.1), s.nextIllumChannel, r.0.nextIllumChannel, sizeC)
    decreases |blocks|
  {
    if blocks == [] {
      assert WavelengthChannels([]) == [];
    } else {
      var front := blocks[..|blocks| - 1];
      assert AllFit(front) by {
        forall k | 0 <= k < |front| ensures Fits(front[k].kind, front[k].fields) {
          assert front[k] == blocks[k];
        }
      }
      WavelengthSlotsAscending(s, front, sizeC);
      var r1 := PopulateAll(s, front, sizeC);
      var w1 := WavelengthChannels(r1.1);
      var b := blocks[|blocks| - 1];
      if !b.acquire {
        assert PopulateAll(s, blocks, sizeC) == r1;
      } else {
        var r2 := PopulateStep(r1.0, b, sizeC);
        WavelengthChannelsAppend(r1.1, r2.1);
        StepWavelengthChannels(r1.0, b, sizeC);
        assert PopulateAll(s, blocks, sizeC) == (r2.0, r1.1 + r2.1);
        AscendingSlotsExtend(w1, WavelengthChannels(r2.1), s.nextIllumChannel, r1.0.nextIllumChannel,
                             r2.0.nextIllumChannel, sizeC);
      }
    }
  }

  /** Appending nothing, or the next slot below sizeC, keeps the slots ascending. */
  lemma AscendingSlotsExtend(w1: seq<int>, w2: seq<int>, lo: int, mid: int, hi: int, sizeC: int)
    requires AscendingSlots(w1, lo, mid, sizeC) && lo <= mid <= hi
    requires w2 == [] || (w2 == [mid] && hi == mid + 1 && mid < sizeC)
    ensures AscendingSlots(w1 + w2, lo, hi, sizeC)
  {
    var w := w1 + w2;
    forall k | 0 <= k < |w| ensures lo <= w[k] < hi && w[k] < sizeC {
      if k >= |w1| { assert w[k] == mid; }
    }
    forall j, k | 0 <= j < k < |w| ensures w[j] < w[k] {
      if k >= |w1| { assert w[k] == mid; }
    }
  }

  /** One record writes a wavelength to at most the illumination slot it takes. */
  lemma StepWavelengthChannels(s: Slots, b: Block, sizeC: int)
    requires Fits(b.kind, b.fields)
    ensures var r := PopulateStep(s, b, sizeC);
      WavelengthChannels(r.1) ==
        if b.kind == IlluminationChannel && b.fields.wavelength.Some? && s.nextIllumChannel < sizeC
        then [s.nextIllumChannel] else []
  {
    var e := PopulateStep(s, b, sizeC).1;
    if b.kind == IlluminationChannel {
      if b.fields.wavelength.Some? && s.nextIllumChannel < sizeC {
        assert e == [ExcitationWavelength(s.nextIllumChannel, b.fields.wavelength.value)];
        assert e[..0] == [];
      } else {
        assert e == [];
      }
    } else {
      NoWavelengthOutsideIllumination(s, b, sizeC);
    }
  }

  lemma NoWavelengthOutsideIllumination(s: Slots, b: Block, sizeC: int)
    requires Fits(b.kind, b.fields) && b.kind != IlluminationChannel
    ensures WavelengthChannels(PopulateStep(s, b, sizeC).1) == []
  {
    var e := PopulateStep(s, b, sizeC).1;
    match b.kind {
      case Laser =>
        var f := b.fields;
        var n := s.nextLaser;
        var m: seq<StoreEvent> := if f.medium.Some? then [LaserMedium(n, f.medium.value)] else [];
        var t: seq<StoreEvent> := if f.laserType.Some? then [LaserType(n, f.laserType.value)] else [];
        assert e == m + t + [LightSourceId(n)];
        WavelengthChannelsAppend(m + t, [LightSourceId(n)]);
        WavelengthChannelsAppend(m, t);
      case DataChannel =>
        var n := s.nextDataChannel;
        if b.fields.name.Some? && n < sizeC {
          var lightSource := if n < s.nextLaser then n else s.nextLaser - 1;
          var declared: seq<StoreEvent> := if lightSource >= 0 then [ChannelLightSource(n, lightSource)] else [];
          assert e == declared + [ChannelName(n, b.fields.name.value)];
          WavelengthChannelsAppend(declared, [ChannelName(n, b.fields.name.value)]);
        }
      case _ =>
    }
  }

  /** Every ChannelLightSource call in `events` names a light source in
      [0, final), declared by an earlier LightSourceId call unless it lies
      below `start`; and every slot in [start, final) is declared. */
  predicate DeclaredBeforeUse(start: int, final: int, events: seq<StoreEvent>)
  {
    (forall k :: 0 <= k < |events| && events[k].ChannelLightSource? ==>
      0 <= events[k].lightSource < final &&
      (events[k].lightSource >= start ==> LightSourceId(events[k].lightSource) in events[..k])) &&
    (forall n :: start <= n < final ==> LightSourceId(n) in events)
  }

  /** Every light source a data channel refers to was declared by an earlier
      call of the same run, or lies below the laser counter's starting value. */
  lemma {:induction false} LightSourcesDeclaredFirst(s: Slots, blocks: seq<Block>, sizeC: int)
    requires AllFit(blocks)
    ensures var r := PopulateAll(s, blocks, sizeC);
      DeclaredBeforeUse(s.nextLaser, r.0.nextLaser, r.1)
    decreases |blocks|
  {
    if blocks != [] {
      var front := blocks[..|blocks| - 1];
      AllFitPrefix(blocks, |blocks| - 1);
      LightSourcesDeclaredFirst(s, front, sizeC);
      var r1 := PopulateAll(s, front, sizeC);
      var e1 := r1.1;
      assert DeclaredBeforeUse(s.nextLaser, r1.0.nextLaser, e1);
      var b := blocks[|blocks| - 1];
      if b.acquire {
        var r2 := PopulateStep(r1.0, b, sizeC);
        var e2 := r2.1;
        var events := e1 + e2;
        assert PopulateAll(s, blocks, sizeC) == (r2.0, events);
        forall k | 0 <= k < |events| && events[k].ChannelLightSource?
          ensures 0 <= events[k].lightSource < r2.0.nextLaser
          ensures events[k].lightSource >= s.nextLaser ==> LightSourceId(events[k].lightSource) in events[..k]
        {
          if k < |e1| {
            assert events[k] == e1[k];
            assert e1[k].ChannelLightSource?;
            assert e1[..k] == events[..k];
          } else {
            assert events[k] == e2[k - |e1|];
            StepLightSource(r1.0, b, sizeC, k - |e1|);
            var ls := events[k].lightSource;
            if ls >= s.nextLaser {
              assert LightSourceId(ls) in e1;
              assert e1 == events[..k][..|e1|];
            }
          }
        }
        forall n | s.nextLaser <= n < r2.0.nextLaser ensures LightSourceId(n) in events {
          if n < r1.0.nextLaser {
            assert LightSourceId(n) in e1;
          } else {
            assert b.kind == Laser && n == r1.0.nextLaser;
            assert e2[|e2| - 1] == LightSourceId(n);
            assert events[|events| - 1] == LightSourceId(n);
          }
        }
      }
    }
  }

  /** The light source a step's ChannelLightSource call names is a laser
      slot already handed out. */
  lemma StepLightSource(s: Slots, b: Block, sizeC: int, k: nat)
    requires Fits(b.kind, b.fields)
    requires k < |PopulateStep(s, b, sizeC).1| && PopulateStep(s, b, sizeC).1[k].ChannelLightSource?
    ensures 0 <= PopulateStep(s, b, sizeC).1[k].lightSource < s.nextLaser
  {
  }

  /** Every channel-indexed call of a run that starts from zero counters
      names a channel below sizeC. */
  lemma {:induction false} ChannelIndicesInRange(s: Slots, blocks: seq<Block>, sizeC: int)
    requires AllFit(blocks)
    requires s.nextDataChannel >= 0 && s.nextIllumChannel >= 0 && s.nextDetectChannel >= 0
    ensures var (_, events) := PopulateAll(s, blocks, sizeC);
      forall e :: e in events && (e.ChannelName? || e.ChannelLightSource? || e.PinholeSize? || e.ExcitationWavelength?) ==>
        0 <= e.channel < sizeC
    decreases |blocks|
  {
    if blocks != [] {
      var front := blocks[..|blocks| - 1];
      assert AllFit(front) by {
        forall k | 0 <= k < |front| ensures Fits(front[k].kind, front[k].fields) {
          assert front[k] == blocks[k];
        }
      }
      ChannelIndicesInRange(s, front, sizeC);
      var (s1, e1) := PopulateAll(s, front, sizeC);
      var b := blocks[|blocks| - 1];
      if b.acquire {
        var (s2, e2) := PopulateStep(s1, b, sizeC);
        assert s1.nextDetectChannel >= 0;
        forall e | e in e1 + e2 && (e.ChannelName? || e.ChannelLightSource? || e.PinholeSize? || e.ExcitationWavelength?)
          ensures 0 <= e.channel < sizeC
        {
          if e !in e1 {
            assert e in e2;
          }
        }
      }
    }
  }

  // ---------------------------------------------------------------------
  // The acquire filter and the adjacency validation

  /** The records whose acquire flag is set, in their order. */
  function Acquired(blocks: seq<Block>): (r: seq<Block>)
    ensures |r| <= |blocks|
    ensures forall k :: 0 <= k < |r| ==> r[k].acquire && r[k] in blocks
  {
    if blocks == [] then []
    else
      var rest := Acquired(blocks[..|blocks| - 1]);
      var b := blocks[|blocks| - 1];
      if b.acquire then rest + [b] else rest
  }

  lemma AcquiredFits(blocks: seq<Block>)
    requires AllFit(blocks)
    ensures AllFit(Acquired(blocks))
  {
    var r := Acquired(blocks);
    forall k | 0 <= k < |r| ensures Fits(r[k].kind, r[k].fields) {
      var j :| 0 <= j < |blocks| && blocks[j] == r[k];
    }
  }

  /** The filter commutes with concatenation, so it keeps the order of
      what it keeps. */
  lemma {:induction false} AcquiredAppend(a: seq<Block>, b: seq<Block>)
    ensures Acquired(a + b) == Acquired(a) + Acquired(b)
    decreases |b|
  {
    if b == [] {
      assert a + b == a;
    } else {
      assert (a + b)[..|a + b| - 1] == a + b[..|b| - 1];
      assert (a + b)[|a + b| - 1] == b[|b| - 1];
      AcquiredAppend(a, b[..|b| - 1]);
    }
  }

  /** The filter drops exactly the records whose flag is false: every record
      with the flag set keeps its number of occurrences, the others have
      none left. */
  lemma {:induction false} AcquiredCounts(blocks: seq<Block>, b: Block)
    ensures multiset(Acquired(blocks))[b] == if b.acquire then multiset(blocks)[b] else 0
    decreases |blocks|
  {
    if blocks != [] {
      var front := blocks[..|blocks| - 1];
      AcquiredCounts(front, b);
      assert blocks == front + [blocks[|blocks| - 1]];
    }
  }

  /** An IlluminationChannel that is not last and is followed by neither a
      DataChannel nor an IlluminationChannel. */
  predicate MisplacedIllumination(blocks: seq<Block>, i: nat)
    requires i < |blocks|
  {
    blocks[i].kind == IlluminationChannel && i + 1 < |blocks| &&
    blocks[i + 1].kind !in {DataChannel, IlluminationChannel}
  }

  /** A DetectionChannel after the first position preceded by neither a
      Track nor a DetectionChannel. */
  predicate MisplacedDetection(blocks: seq<Block>, i: nat)
    requires i < |blocks|
  {
    blocks[i].kind == DetectionChannel && i > 0 &&
    blocks[i - 1].kind !in {Track, DetectionChannel}
  }

  /** The validation of record `i`, reading only the record types of its
      neighbours: a misplaced IlluminationChannel loses its wavelength, a
      misplaced DetectionChannel its acquire flag, and every other record,
      well-placed channels included, is left as it is. */
  function ValidatedAt(blocks: seq<Block>, i: nat): (b: Block)
    requires i < |blocks|
    ensures b.kind == blocks[i].kind
    ensures Fits(blocks[i].kind, blocks[i].fields) ==> Fits(b.kind, b.fields)
    ensures MisplacedIllumination(blocks, i) ==> b == blocks[i].(fields := IlluminationFields(None))
    ensures MisplacedDetection(blocks, i) ==> b == blocks[i].(acquire := false)
    ensures !MisplacedIllumination(blocks, i) && !MisplacedDetection(blocks, i) ==> b == blocks[i]
  {
    var b := blocks[i];
    if b.kind == IlluminationChannel && i < |blocks| - 1 then
      if blocks[i + 1].kind !in {DataChannel, IlluminationChannel} then b.(fields := IlluminationFields(None))
      else b
    else if b.kind == DetectionChannel && i > 0 then
      if blocks[i - 1].kind !in {Track, DetectionChannel} then b.(acquire := false)
      else b
    else b
  }

  /** The whole list validated: each record by the rule above, against the
      record types of the list before validation. */
  function Validated(blocks: seq<Block>): (r: seq<Block>)
    ensures |r| == |blocks|
    ensures forall i :: 0 <= i < |r| ==> r[i] == ValidatedAt(blocks, i)
    ensures AllFit(blocks) ==> AllFit(r)
  {
    seq(|blocks|, i requires 0 <= i < |blocks| => ValidatedAt(blocks, i))
  }

  /** What validation leaves behind: the record types are those of the
      input, every IlluminationChannel that still has a wavelength is last
      or followed by a DataChannel or an IlluminationChannel, every
      DetectionChannel after the first position that is still acquired
      follows a Track or a DetectionChannel, well-placed channels are left
      unchanged, and a second validation changes nothing. */
  lemma ValidatedGuarantees(blocks: seq<Block>)
    ensures var r := Validated(blocks);
      (forall i :: 0 <= i < |r| ==> r[i].kind == blocks[i].kind) &&
      (forall i :: (0 <= i < |r| - 1 && r[i].kind == IlluminationChannel &&
        r[i].fields.IlluminationFields? && r[i].fields.wavelength.Some?) ==>
        r[i + 1].kind in {DataChannel, IlluminationChannel}) &&
      (forall i :: 0 < i < |r| && r[i].kind == DetectionChannel && r[i].acquire ==>
        r[i - 1].kind in {Track, DetectionChannel}) &&
      (forall i :: (0 <= i < |r| && blocks[i].kind == IlluminationChannel &&
                    (i == |r| - 1 || blocks[i + 1].kind in {DataChannel, IlluminationChannel})) ==>
        r[i] == blocks[i]) &&
      (forall i :: (0 <= i < |r| && blocks[i].kind == DetectionChannel &&
                    (i == 0 || blocks[i - 1].kind in {Track, DetectionChannel})) ==>
        r[i] == blocks[i]) &&
      Validated(r) == r
  {
    var r := Validated(blocks);
    forall i | 0 <= i < |r| ensures ValidatedAt(r, i) == r[i] {
      assert i + 1 < |r| ==> r[i + 1].kind == blocks[i + 1].kind;
      assert i > 0 ==> r[i - 1].kind == blocks[i - 1].kind;
    }
  }

  /** Validating record `i` looks only at that record and at the record
      types of its neighbours. */
  lemma ValidatedAtReadsKinds(xs: seq<Block>, ys: seq<Block>, i: nat)
    requires |xs| == |ys| && i < |xs| && xs[i] == ys[i]
    requires i > 0 ==> xs[i - 1].kind == ys[i - 1].kind
    requires i + 1 < |xs| ==> xs[i + 1].kind == ys[i + 1].kind
    ensures ValidatedAt(xs, i) == ValidatedAt(ys, i)
  {
  }

  /** Records other than IlluminationChannel and DetectionChannel pass
      through validation unchanged, as does the whole list when it holds
      neither. */
  lemma ValidationTouchesOnlyChannels(blocks: seq<Block>, i: nat)
    requires i < |blocks|
    requires blocks[i].kind !in {IlluminationChannel, DetectionChannel}
    ensures Validated(blocks)[i] == blocks[i]
  {
  }

  // ---------------------------------------------------------------------
  // Loops

  /** The acquire filter of the scan information (in `initMetadata`):
      the source removes each record whose flag is false from its list. */
  method DropUnacquired(blocks: seq<Block>) returns (kept: seq<Block>)
    ensures kept == Acquired(blocks)
  {
    kept := [];
    var i := 0;
    while i < |blocks|
      invariant 0 <= i <= |blocks|
      invariant kept == Acquired(blocks[..i])
    {
      assert blocks[..i + 1][..i] == blocks[..i];
      if blocks[i].acquire {
        kept := kept + [blocks[i]];
      }
      i := i + 1;
    }
    assert blocks[..i] == blocks;
  }

  /** The checks of the validation loop for record `i`, on the list as it
      stands (`initMetadata`). */
  method ValidateRecord(a: array<Block>, i: nat) returns (b: Block)
    requires i < a.Length
    ensures b == ValidatedAt(a[..], i)
  {
    b := a[i];
    if b.kind == IlluminationChannel && i < a.Length - 1 {
      var next := a[i + 1];
      if next.kind != DataChannel && next.kind != IlluminationChannel {
        b := b.(fields := IlluminationFields(None));
      }
    } else if b.kind == DetectionChannel && i > 0 {
      var prev := a[i - 1];
      if prev.kind != Track && prev.kind != DetectionChannel {
        b := b.(acquire := false);
      }
    }
  }

  /** Record `i` validated and written back: the array then holds the
      validated list up to `i` and the untouched input after it. */
  method ValidateInPlace(a: array<Block>, i: nat, ghost input: seq<Block>) returns (b: Block)
    requires |input| == a.Length && i < a.Length
    requires a[..i] == Validated(input)[..i] && a[i..] == input[i..]
    modifies a
    ensures b == Validated(input)[i]
    ensures a[..i + 1] == Validated(input)[..i + 1] && a[i + 1..] == input[i + 1..]
  {
    ghost var v := Validated(input);
    assert i > 0 ==> a[i - 1] == v[i - 1];
    b := ValidateRecord(a, i);
    ValidatedAtReadsKinds(a[..], input, i);
    ghost var before := a[..];
    a[i] := b;
    assert a[..i + 1] == before[..i] + [b];
    assert a[i + 1..] == before[i + 1..];
  }

  /** The reader fields the scan information updates. */
  class LsmReaderState {
    var nextLaser: int
    var nextDataChannel: int
    var nextIllumChannel: int
    var nextDetectChannel: int
    var splitPlanes: bool
    var events: seq<StoreEvent>

    function Counters(): Slots
      reads this
    {
      Slots(nextLaser, nextDataChannel, nextIllumChannel, nextDetectChannel)
    }

    constructor ()
      ensures Counters() == NoSlots && !splitPlanes && events == []
    {
      nextLaser, nextDataChannel, nextIllumChannel, nextDetectChannel := 0, 0, 0, 0;
      splitPlanes := false;
      events := [];
    }

    /** `populateMetadataStore` for one record. */
    method PopulateMetadataStore(b: Block, sizeC: int)
      requires Fits(b.kind, b.fields)
      modifies this
      ensures Counters() == PopulateStep(old(Counters()), b, sizeC).0
      ensures events == old(events) + PopulateStep(old(Counters()), b, sizeC).1
      ensures splitPlanes == old(splitPlanes)
    {
      match b.kind {
        case Recording =>
          var f := b.fields;
          events := events + [ObjectiveSettings(f.description, f.correction, f.immersion,
                                                f.magnification, f.lensNAText, f.iris)];
        case Laser =>
          PopulateLaser(b);
        case Track =>
          events := events + [TimeIncrement(b.fields.timeIncrement)];
        case DataChannel =>
          PopulateDataChannel(b, sizeC);
        case DetectionChannel =>
          var pinhole := b.fields.pinhole;
          if pinhole.Some? && !FloatIsZero(pinhole.value) && nextDetectChannel < sizeC {
            events := events + [PinholeSize(nextDetectChannel, pinhole.value)];
          }
          nextDetectChannel := nextDetectChannel + 1;
        case IlluminationChannel =>
          var wavelength := b.fields.wavelength;
          if wavelength.Some? && nextIllumChannel < sizeC {
            events := events + [ExcitationWavelength(nextIllumChannel, wavelength.value)];
            nextIllumChannel := nextIllumChannel + 1;
          } else if nextIllumChannel < sizeC - 1 {
            nextIllumChannel := nextIllumChannel + 1;
          }
        case _ =>
      }
    }

    /** The Laser branch of `populateMetadataStore`: medium, type and the
        light-source id of the next laser slot (sizeC plays no part). */
    method PopulateLaser(b: Block)
      requires b.kind == Laser && Fits(b.kind, b.fields)
      modifies this
      ensures Counters() == PopulateStep(old(Counters()), b, 0).0
      ensures events == old(events) + PopulateStep(old(Counters()), b, 0).1
      ensures splitPlanes == old(splitPlanes)
    {
      if b.fields.medium.Some? {
        events := events + [LaserMedium(nextLaser, b.fields.medium.value)];
      }
      if b.fields.laserType.Some? {
        events := events + [LaserType(nextLaser, b.fields.laserType.value)];
      }
      events := events + [LightSourceId(nextLaser)];
      nextLaser := nextLaser + 1;
    }

    /** The DataChannel branch of `populateMetadataStore`: a named channel
        below sizeC gets its light source and its name. */
    method PopulateDataChannel(b: Block, sizeC: int)
      requires b.kind == DataChannel && Fits(b.kind, b.fields)
      modifies this
      ensures Counters() == PopulateStep(old(Counters()), b, sizeC).0
      ensures events == old(events) + PopulateStep(old(Counters()), b, sizeC).1
      ensures splitPlanes == old(splitPlanes)
    {
      if b.fields.name.Some? && nextDataChannel < sizeC {
        var lightSource := if nextDataChannel < nextLaser then nextDataChannel else nextLaser - 1;
        if lightSource >= 0 {
          events := events + [ChannelLightSource(nextDataChannel, lightSource)];
        }
        events := events + [ChannelName(nextDataChannel, b.fields.name.value)];
        nextDataChannel := nextDataChannel + 1;
      }
    }

    /** The counters and the log are those of a populate run over `done`
        that started from `start` with the log at `log0`. */
    ghost predicate RanOver(start: Slots, log0: seq<StoreEvent>, done: seq<Block>, sizeC: int)
      reads this
    {
      AllFit(done) &&
      Counters() == PopulateAll(start, done, sizeC).0 &&
      events == log0 + PopulateAll(start, done, sizeC).1
    }

    /** The populate half of one loop iteration: an acquired record is
        passed to `populateMetadataStore`, another one is skipped. */
    method PopulateNext(b: Block, sizeC: int, ghost start: Slots, ghost log0: seq<StoreEvent>,
                        ghost done: seq<Block>)
      requires Fits(b.kind, b.fields) && RanOver(start, log0, done, sizeC)
      modifies this
      ensures RanOver(start, log0, done + [b], sizeC)
      ensures splitPlanes == old(splitPlanes)
    {
      ghost var all := done + [b];
      assert all[..|all| - 1] == done;
      assert AllFit(all) by {
        forall k | 0 <= k < |all| ensures Fits(all[k].kind, all[k].fields) {
          if k < |done| { assert all[k] == done[k]; }
        }
      }
      ghost var r := PopulateAll(start, done, sizeC);
      if b.acquire {
        PopulateMetadataStore(b, sizeC);
        ghost var st := PopulateStep(r.0, b, sizeC);
        assert (log0 + r.1) + st.1 == log0 + (r.1 + st.1);
      }
    }

    /** `initMetadata`'s validation loop: each record is validated
      in place against its already validated predecessor and its not yet
      validated successor, then passed to `populateMetadataStore` if it is
      still acquired. */
    method ValidateAndPopulate(a: array<Block>, sizeC: int)
      requires AllFit(a[..])
      modifies this, a
      ensures a[..] == Validated(old(a[..]))
      ensures Counters() == PopulateAll(old(Counters()), a[..], sizeC).0
      ensures events == old(events) + PopulateAll(old(Counters()), a[..], sizeC).1
      ensures splitPlanes == old(splitPlanes)
    {
      ghost var input := a[..];
      ghost var v := Validated(input);
      ghost var start := Counters();
      var i := 0;
      assert v[..0] == [];
      while i < a.Length
        invariant 0 <= i <= a.Length && |v| == a.Length && AllFit(v)
        invariant a[..i] == v[..i] && a[i..] == input[i..]
        invariant RanOver(start, old(events), v[..i], sizeC)
        invariant splitPlanes == old(splitPlanes)
      {
        var b := ValidateInPlace(a, i, input);
        assert v[..i + 1] == v[..i] + [b];
        PopulateNext(b, sizeC, start, old(events), v[..i]);
        i := i + 1;
      }
      assert v[..i] == v;
      assert a[..] == a[..i];
    }

    /** `initMetadata`'s record filtering: unacquired records are dropped, then the
        rest validated and populated in a new array. */
    method FilterAndValidate(walked: seq<Block>, sizeC: int) returns (list: seq<Block>)
      requires AllFit(walked)
      modifies this
      ensures AllFit(Acquired(walked)) && list == Validated(Acquired(walked))
      ensures Counters() == PopulateAll(old(Counters()), list, sizeC).0
      ensures events == old(events) + PopulateAll(old(Counters()), list, sizeC).1
      ensures splitPlanes == old(splitPlanes)
    {
      var kept := DropUnacquired(walked);
      AcquiredFits(walked);
      var a := new Block[|kept|](k requires 0 <= k < |kept| => kept[k]);
      assert a[..] == kept;
      ValidateAndPopulate(a, sizeC);
      list := a[..];
    }

    /** The scan-information part of `initMetadata`:
        with a non-zero offset the counters restart from zero, the records
        are walked, filtered, validated and populated; offset 0 leaves the
        counters as the previous series left them. The result is the list
        of validated records. */
    method ReadScanInformation(c: Cursor, offset: int, sizeC: int) returns (r: Result<seq<Block>>)
      modifies this, c
      ensures offset == 0 ==> r == Ok([]) && Counters() == old(Counters()) && events == old(events)
      ensures offset != 0 ==> (r.Err? <==> ScanInformation(c.bytes, offset, c.littleEndian).Err?)
      ensures r.Err? ==> r == Err(ScanInformation(c.bytes, offset, c.littleEndian).fault) && events == old(events)
      ensures offset != 0 && r.Ok? ==>
        var walked := ScanInformation(c.bytes, offset, c.littleEndian).value;
        AllFit(walked) && AllFit(Acquired(walked)) &&
        r.value == Validated(Acquired(walked)) &&
        Counters() == PopulateAll(NoSlots, r.value, sizeC).0 &&
        events == old(events) + PopulateAll(NoSlots, r.value, sizeC).1
      ensures splitPlanes == old(splitPlanes)
    {
      if offset == 0 {
        return Ok([]);
      }
      var ok := c.Seek(offset);
      if !ok {
        return Err(NegativeSeek);
      }
      nextLaser, nextDataChannel, nextDetectChannel, nextIllumChannel := 0, 0, 0, 0;
      var walked := ReadScanBlocks(c);
      if walked.Err? {
        return Err(walked.fault);
      }
      var list := FilterAndValidate(walked.value, sizeC);
      r := Ok(list);
    }

    /** The split-planes decision at the end of `initMetadata`. */
    method DecideSplitPlanes(core: CoreMetadata)
      modifies this, core
      ensures (core.Current(), splitPlanes) == SplitDecision(old(core.Current()), nextDataChannel, old(splitPlanes))
      ensures Counters() == old(Counters()) && events == old(events)
      ensures core.sizeX == old(core.sizeX) && core.sizeY == old(core.sizeY)
      ensures core.indexed == old(core.indexed) && core.interleaved == old(core.interleaved)
    {
      var nLogicalChannels := if nextDataChannel == 0 then 1 else nextDataChannel;
      if nLogicalChannels == core.sizeC {
        splitPlanes := core.rgb;
        core.rgb := false;
        if splitPlanes {
          core.imageCount := Wrap(core.imageCount * core.sizeC);
        }
      }
    }
  }
}
