/** Envelope normalisation of one series (ZeissLSMReader.initFile):
    thumbnail image descriptors are dropped, the predictor of every
    non-LZW descriptor is forced to 1, and first strip offsets that
    wrapped past 4 GiB are corrected, in ascending descriptor order. */
module Envelope {
  import opened JavaRuntime

  /** TIFF compression code of LZW. */
  const LZW: int := 5

  /** What the source adds to a wrapped offset: 0xFFFFFFFF, one less than 2^32. */
  const OFFSET_STEP: int := 0xFFFF_FFFF

  /** One TIFF image file directory, reduced to the entries the reader
      inspects: the NEW_SUBFILE_TYPE value (0 when absent), the compression
      code, the PREDICTOR entry and the STRIP_OFFSETS values (Java longs). */
  datatype Ifd = Ifd(subFileType: int, compression: int, predictor: Option<int>, stripOffsets: seq<int>)

  predicate IsThumbnail(ifd: Ifd) { ifd.subFileType != 0 }

  /** A kept descriptor as the reader leaves it: PREDICTOR = 1 unless LZW. */
  function FixPredictor(ifd: Ifd): Ifd
  {
    if ifd.compression != LZW then ifd.(predictor := Some(1)) else ifd
  }

  /** The descriptors that survive thumbnail removal, in their original order. */
  function KeptFrames(ifds: seq<Ifd>): seq<Ifd>
  {
    if ifds == [] then []
    else if IsThumbnail(ifds[0]) then KeptFrames(ifds[1..])
    else [FixPredictor(ifds[0])] + KeptFrames(ifds[1..])
  }

  /** The indices from `i` on of the descriptors that are not thumbnails, ascending. */
  function NonThumbnailsFrom(ifds: seq<Ifd>, i: nat): (ix: seq<nat>)
    requires i <= |ifds|
    ensures forall k :: 0 <= k < |ix| ==> i <= ix[k] < |ifds| && !IsThumbnail(ifds[ix[k]])
    ensures forall k, l :: 0 <= k < l < |ix| ==> ix[k] < ix[l]
    ensures forall j :: i <= j < |ifds| && !IsThumbnail(ifds[j]) ==> j in ix
    decreases |ifds| - i
  {
    if i == |ifds| then []
    else if IsThumbnail(ifds[i]) then NonThumbnailsFrom(ifds, i + 1)
    else [i] + NonThumbnailsFrom(ifds, i + 1)
  }

  /** Thumbnail removal keeps exactly the non-thumbnail descriptors, in their
      original order (NonThumbnailsFrom), each altered only by FixPredictor. */
  lemma {:induction false} KeptFramesAreNonThumbnails(ifds: seq<Ifd>, i: nat)
    requires i <= |ifds|
    ensures var kept, ix := KeptFrames(ifds[i..]), NonThumbnailsFrom(ifds, i);
      |kept| == |ix| && forall k :: 0 <= k < |ix| ==> kept[k] == FixPredictor(ifds[ix[k]])
    decreases |ifds| - i
  {
    if i < |ifds| {
      KeptFramesAreNonThumbnails(ifds, i + 1);
      assert ifds[i..][1..] == ifds[i + 1..];
      if !IsThumbnail(ifds[i]) {
        PrependKept(ifds, KeptFrames(ifds[i + 1..]), NonThumbnailsFrom(ifds, i + 1), i);
      }
    }
  }

  lemma PrependKept(ifds: seq<Ifd>, rest: seq<Ifd>, ixr: seq<nat>, i: nat)
    requires i < |ifds| && |rest| == |ixr|
    requires forall k :: 0 <= k < |ixr| ==> ixr[k] < |ifds| && rest[k] == FixPredictor(ifds[ixr[k]])
    ensures var kept, ix := [FixPredictor(ifds[i])] + rest, [i] + ixr;
      |kept| == |ix| && forall k :: 0 <= k < |ix| ==> kept[k] == FixPredictor(ifds[ix[k]])
  {
    var kept, ix := [FixPredictor(ifds[i])] + rest, [i] + ixr;
    forall k | 0 <= k < |ix| ensures kept[k] == FixPredictor(ifds[ix[k]]) {
      if k > 0 { assert kept[k] == rest[k - 1] && ix[k] == ixr[k - 1]; }
    }
  }

  /** Every kept descriptor is a full frame, and every non-LZW one has PREDICTOR = 1. */
  lemma {:induction false} KeptFramesPredictor(ifds: seq<Ifd>)
    ensures forall f :: f in KeptFrames(ifds) ==>
      !IsThumbnail(f) && (f.compression != LZW ==> f.predictor == Some(1))
  {
    if ifds != [] {
      KeptFramesPredictor(ifds[1..]);
    }
  }

  /** Removing thumbnails, as the source does it: walk the descriptors and
      append each full frame, with its predictor fixed, to a new list. */
  method RemoveThumbnails(ifds: seq<Ifd>) returns (kept: seq<Ifd>)
    ensures kept == KeptFrames(ifds)
  {
    kept := [];
    var i := 0;
    while i < |ifds|
      invariant 0 <= i <= |ifds|
      invariant kept + KeptFrames(ifds[i..]) == KeptFrames(ifds)
    {
      assert ifds[i..][1..] == ifds[i + 1..];
      if !IsThumbnail(ifds[i]) {
        kept := kept + [FixPredictor(ifds[i])];
      }
      i := i + 1;
    }
    assert ifds[i..] == [];
  }

  // ---------------------------------------------------------------------
  // Offset correction for files larger than 4 GiB

  predicate HasStrips(ifd: Ifd) { |ifd.stripOffsets| > 0 }

  predicate AllHaveStrips(ifds: seq<Ifd>) { forall k :: 0 <= k < |ifds| ==> HasStrips(ifds[k]) }

  /** The fix-up reads a first strip offset of every descriptor only when
      there are at least two of them. */
  predicate StripsReadable(ifds: seq<Ifd>) { |ifds| <= 1 || AllHaveStrips(ifds) }

  /** The index of the first descriptor without strip offsets, or the count. */
  function FirstMissing(ifds: seq<Ifd>): (m: nat)
    ensures m <= |ifds|
    ensures forall k :: 0 <= k < m ==> HasStrips(ifds[k])
    ensures m < |ifds| ==> !HasStrips(ifds[m])
  {
    if ifds == [] || !HasStrips(ifds[0]) then 0 else 1 + FirstMissing(ifds[1..])
  }

  /** `offset & 0xffffffffL` on a Java long. */
  function Low32(x: int): (r: int)
    ensures 0 <= r < TWO_32
    ensures 0 <= x < TWO_32 ==> r == x
  {
    x % TWO_32
  }

  /** The offset of the previous descriptor as the fix-up compares it:
      masked only when negative. */
  function PreviousOffset(prev: Ifd): int
    requires HasStrips(prev)
  {
    if prev.stripOffsets[0] < 0 then Low32(prev.stripOffsets[0]) else prev.stripOffsets[0]
  }

  /** One step of the fix-up, adding `step` to a wrapped offset. A corrected
      descriptor's STRIP_OFFSETS entry is replaced by the single corrected value. */
  function FixOne(prev: Ifd, cur: Ifd, step: int): (r: Ifd)
    requires HasStrips(prev) && HasStrips(cur)
    ensures HasStrips(r)
  {
    var thisOffset := Low32(cur.stripOffsets[0]);
    if PreviousOffset(prev) > thisOffset then cur.(stripOffsets := [thisOffset + step]) else cur
  }

  /** The fix-up over the whole list: entry i is compared against the
      already corrected entry i - 1. */
  function FixedOffsetsBy(ifds: seq<Ifd>, step: int): (r: seq<Ifd>)
    requires StripsReadable(ifds)
    ensures |r| == |ifds| && (AllHaveStrips(ifds) ==> AllHaveStrips(r))
    decreases |ifds|
  {
    if |ifds| <= 1 then ifds
    else
      var p := FixedOffsetsBy(ifds[..|ifds| - 1], step);
      p + [FixOne(p[|p| - 1], ifds[|ifds| - 1], step)]
  }

  /** The fix-up as the source writes it. */
  function FixedOffsets(ifds: seq<Ifd>): (r: seq<Ifd>)
    requires StripsReadable(ifds)
    ensures |r| == |ifds| && (AllHaveStrips(ifds) ==> AllHaveStrips(r))
  {
    FixedOffsetsBy(ifds, OFFSET_STEP)
  }

  /** Entry i of the fixed list is the fix-up step applied to the original
      entry i against the fixed entry i - 1; entry 0 never changes. */
  lemma {:induction false} FixedOffsetsAt(ifds: seq<Ifd>, step: int, i: nat)
    requires AllHaveStrips(ifds) && i < |ifds|
    ensures var r := FixedOffsetsBy(ifds, step);
      (i == 0 ==> r[0] == ifds[0]) &&
      (i > 0 ==> r[i] == FixOne(r[i - 1], ifds[i], step))
    decreases |ifds|
  {
    var n := |ifds|;
    if n > 1 {
      var front := ifds[..n - 1];
      var p := FixedOffsetsBy(front, step);
      if i < n - 1 {
        FixedOffsetsAt(front, step, i);
        if i > 0 { assert front[i] == ifds[i]; } else { assert front[0] == ifds[0]; }
      }
    }
  }

  /** Every fixed descriptor equals its original except for STRIP_OFFSETS, and
      that is replaced only on a strict `prev > this`, by `this + step`. */
  lemma {:induction false} FixedOffsetsChangeOnlyOffsets(ifds: seq<Ifd>, step: int, i: nat)
    requires AllHaveStrips(ifds) && 0 < i < |ifds|
    ensures var r := FixedOffsetsBy(ifds, step);
      var thisOffset := Low32(ifds[i].stripOffsets[0]);
      r[i].(stripOffsets := ifds[i].stripOffsets) == ifds[i] &&
      (PreviousOffset(r[i - 1]) > thisOffset ==> r[i].stripOffsets == [thisOffset + step]) &&
      (PreviousOffset(r[i - 1]) <= thisOffset ==> r[i] == ifds[i])
  {
    FixedOffsetsAt(ifds, step, i);
  }

  predicate Unsigned32(ifds: seq<Ifd>)
    requires AllHaveStrips(ifds)
  {
    forall k :: 0 <= k < |ifds| ==> 0 <= ifds[k].stripOffsets[0] < TWO_32
  }

  predicate NonDecreasing(ifds: seq<Ifd>)
    requires AllHaveStrips(ifds)
  {
    forall k :: 0 < k < |ifds| ==> ifds[k - 1].stripOffsets[0] <= ifds[k].stripOffsets[0]
  }

  /** A list of 32-bit offsets already in ascending order is left unchanged. */
  lemma {:induction false} AscendingOffsetsUnchanged(ifds: seq<Ifd>, step: int)
    requires AllHaveStrips(ifds) && Unsigned32(ifds) && NonDecreasing(ifds)
    ensures FixedOffsetsBy(ifds, step) == ifds
    decreases |ifds|
  {
    var n := |ifds|;
    if n > 1 {
      var front := ifds[..n - 1];
      AscendingDropLast(ifds);
      AscendingOffsetsUnchanged(front, step);
      var last := ifds[n - 1];
      assert FixOne(front[n - 2], last, step) == last;
      assert front + [last] == ifds;
    }
  }

  lemma AscendingDropLast(ifds: seq<Ifd>)
    requires AllHaveStrips(ifds) && Unsigned32(ifds) && NonDecreasing(ifds) && |ifds| > 1
    ensures var front := ifds[..|ifds| - 1];
      AllHaveStrips(front) && Unsigned32(front) && NonDecreasing(front) &&
      front[|ifds| - 2] == ifds[|ifds| - 2] &&
      0 <= ifds[|ifds| - 2].stripOffsets[0] <= ifds[|ifds| - 1].stripOffsets[0] < TWO_32
  {
    var front := ifds[..|ifds| - 1];
    forall k | 0 <= k < |front| ensures front[k] == ifds[k] { }
  }

  /** Correcting in place, entry by entry, in ascending order. Step i reads
      the first strip offsets of entries i and i - 1; the first descriptor
      without one ends the loop with a fault that escapes the reader, the
      entries before the faulting step already corrected. */
  method FixStripOffsets(a: array<Ifd>) returns (fault: Option<Fault>)
    modifies a
    ensures fault.None? <==> StripsReadable(old(a[..]))
    ensures fault.None? ==> a[..] == FixedOffsets(old(a[..]))
    ensures fault.Some? ==>
      (fault.value == MissingStripOffsets &&
       var m := Max(1, FirstMissing(old(a[..])));
       m < a.Length && a[..m] == FixedOffsets(old(a[..])[..m]) && a[m..] == old(a[..])[m..])
  {
    ghost var orig := a[..];
    if a.Length <= 1 {
      return None;
    }
    var i := 1;
    while i < a.Length
      invariant 1 <= i <= a.Length
      invariant i > 1 ==> AllHaveStrips(orig[..i])
      invariant a[..i] == FixedOffsets(orig[..i])
      invariant a[i..] == orig[i..]
    {
      assert a[i] == orig[i];
      if !HasStrips(a[i]) || !HasStrips(a[i - 1]) {
        assert i > 1 ==> a[i - 1] == FixedOffsets(orig[..i])[i - 1];
        MissingAt(orig, i);
        return Some(MissingStripOffsets);
      }
      assert AllHaveStrips(orig[..i + 1]) by {
        if i == 1 { assert a[..1] == orig[..1]; }
      }
      FixEntry(a, i, orig);
      i := i + 1;
    }
    assert orig[..a.Length] == orig;
    assert a[..a.Length] == a[..];
    return None;
  }

  /** Step i of the loop, once both offsets it reads exist: entry i is
      compared with the already corrected entry i - 1. */
  method FixEntry(a: array<Ifd>, i: nat, ghost orig: seq<Ifd>)
    requires 1 <= i < a.Length == |orig| && AllHaveStrips(orig[..i + 1])
    requires a[..i] == FixedOffsets(orig[..i]) && a[i..] == orig[i..]
    modifies a
    ensures a[..i + 1] == FixedOffsets(orig[..i + 1]) && a[i + 1..] == orig[i + 1..]
  {
    FixedOffsetsSnoc(orig, i, OFFSET_STEP);
    assert a[i] == orig[i] && HasStrips(a[i - 1]);
    ghost var fixedFront := a[..i];
    var thisOffset := Low32(a[i].stripOffsets[0]);
    var prevOffset := a[i - 1].stripOffsets[0];
    if prevOffset < 0 {
      prevOffset := Low32(prevOffset);
    }
    if prevOffset > thisOffset {
      thisOffset := thisOffset + OFFSET_STEP;
      a[i] := a[i].(stripOffsets := [thisOffset]);
    }
    assert a[..i] == fixedFront;
    assert a[i] == FixOne(fixedFront[i - 1], orig[i], OFFSET_STEP);
    assert a[..i + 1] == fixedFront + [a[i]];
  }

  /** The fix-up of a prefix one longer: the next entry is fixed against
      the last fixed one. */
  lemma FixedOffsetsSnoc(ifds: seq<Ifd>, n: nat, step: int)
    requires 1 <= n < |ifds| && AllHaveStrips(ifds[..n + 1])
    ensures AllHaveStrips(ifds[..n]) && |FixedOffsetsBy(ifds[..n], step)| == n
    ensures FixedOffsetsBy(ifds[..n + 1], step) ==
      FixedOffsetsBy(ifds[..n], step) + [FixOne(FixedOffsetsBy(ifds[..n], step)[n - 1], ifds[n], step)]
  {
    assert ifds[..n + 1][..n] == ifds[..n];
    assert forall k :: 0 <= k < n ==> ifds[..n][k] == ifds[..n + 1][k];
  }

  /** Where the loop faults: at the first descriptor without strip offsets,
      or at step 1 when that is descriptor 0. */
  lemma MissingAt(ifds: seq<Ifd>, i: nat)
    requires 1 <= i < |ifds|
    requires i > 1 ==> AllHaveStrips(ifds[..i])
    requires !HasStrips(ifds[i]) || !HasStrips(ifds[i - 1])
    ensures Max(1, FirstMissing(ifds)) == i && !StripsReadable(ifds)
  {
    var m := FirstMissing(ifds);
    if i > 1 {
      forall k | 0 <= k < i ensures HasStrips(ifds[k]) {
        assert ifds[..i][k] == ifds[k];
      }
      assert !HasStrips(ifds[i]);
    } else {
      assert ifds[1..][0] == ifds[1];
    }
  }

  /** Envelope normalisation of one series: thumbnails out, then offsets fixed
      in the new descriptor array. */
  method NormalizeSeries(ifds: seq<Ifd>) returns (a: array<Ifd>, fault: Option<Fault>)
    ensures fresh(a)
    ensures fault.None? <==> StripsReadable(KeptFrames(ifds))
    ensures fault.None? ==> a[..] == FixedOffsets(KeptFrames(ifds))
    ensures fault.Some? ==>
      (fault.value == MissingStripOffsets &&
       var m := Max(1, FirstMissing(KeptFrames(ifds)));
       m < a.Length && a[..m] == FixedOffsets(KeptFrames(ifds)[..m]) && a[m..] == KeptFrames(ifds)[m..])
  {
    var kept := RemoveThumbnails(ifds);
    a := new Ifd[|kept|](k requires 0 <= k < |kept| => kept[k]);
    assert a[..] == kept;
    fault := FixStripOffsets(a);
  }

  // ---------------------------------------------------------------------
  // The 2^32 correction the fix-up is meant to perform

  /** The fix-up with the step the comment "fix the offsets for > 4 GB files"
      calls for: 2^32. */
  function CorrectedOffsets(ifds: seq<Ifd>): (r: seq<Ifd>)
    requires StripsReadable(ifds)
    ensures |r| == |ifds| && (AllHaveStrips(ifds) ==> AllHaveStrips(r))
  {
    FixedOffsetsBy(ifds, TWO_32)
  }

  /** True file offsets of a file under 8 GiB whose planes are stored in order,
      less than 4 GiB apart. */
  predicate PlausibleTrueOffsets(t: seq<int>)
  {
    |t| > 0 && 0 <= t[0] < TWO_32 &&
    (forall k :: 0 <= k < |t| ==> t[k] < 2 * TWO_32) &&
    (forall k :: 0 < k < |t| ==> t[k - 1] <= t[k] < t[k - 1] + TWO_32)
  }

  /** The stored offsets are the true ones reduced to 32 bits. */
  predicate StoredLow32(ifds: seq<Ifd>, t: seq<int>)
    requires AllHaveStrips(ifds)
  {
    |ifds| == |t| && forall k :: 0 <= k < |t| ==> ifds[k].stripOffsets[0] == Low32(t[k])
  }

  /** One corrected step: when the previous entry already holds its true
      offset and the next true offset lies less than 4 GiB above it, adding
      2^32 to a wrapped value gives the true offset back. */
  lemma CorrectedStepRecovers(prev: Ifd, cur: Ifd, tPrev: int, tCur: int)
    requires HasStrips(prev) && HasStrips(cur)
    requires prev.stripOffsets[0] == tPrev && cur.stripOffsets[0] == Low32(tCur)
    requires 0 <= tPrev <= tCur < tPrev + TWO_32 && tCur < 2 * TWO_32
    ensures FixOne(prev, cur, TWO_32).stripOffsets[0] == tCur
  {
    if tCur < TWO_32 {
      assert Low32(tCur) == tCur;
    } else {
      assert Low32(tCur) == tCur - TWO_32;
    }
  }

  /** Both hypotheses survive dropping the last descriptor. */
  lemma DropLastStillPlausible(ifds: seq<Ifd>, t: seq<int>)
    requires AllHaveStrips(ifds) && PlausibleTrueOffsets(t) && StoredLow32(ifds, t) && |t| > 1
    ensures AllHaveStrips(ifds[..|t| - 1]) && PlausibleTrueOffsets(t[..|t| - 1])
    ensures StoredLow32(ifds[..|t| - 1], t[..|t| - 1])
  {
  }

  /** With a 2^32 step the fix-up recovers every true offset. */
  lemma {:induction false} CorrectedOffsetsRecoverTrueOffsets(ifds: seq<Ifd>, t: seq<int>)
    requires AllHaveStrips(ifds) && PlausibleTrueOffsets(t) && StoredLow32(ifds, t)
    ensures forall k :: 0 <= k < |t| ==> CorrectedOffsets(ifds)[k].stripOffsets[0] == t[k]
    decreases |t|
  {
    var n := |t|;
    var r := CorrectedOffsets(ifds);
    if n > 1 {
      var front, tf := ifds[..n - 1], t[..n - 1];
      DropLastStillPlausible(ifds, t);
      CorrectedOffsetsRecoverTrueOffsets(front, tf);
      FixedOffsetsAt(ifds, TWO_32, n - 1);
      assert r[..n - 1] == CorrectedOffsets(front);
      forall k | 0 <= k < n - 1
        ensures r[k].stripOffsets[0] == t[k]
      {
        assert r[k] == CorrectedOffsets(front)[k];
      }
      CorrectedStepRecovers(r[n - 2], ifds[n - 1], t[n - 2], t[n - 1]);
    } else {
      assert r == ifds;
    }
  }

  /** The source's 0xFFFFFFFF step places a plane that lies just past the
      4 GiB boundary one byte before its true offset. */
  lemma AsWrittenOffsetOneShort()
    ensures var ifds := [Ifd(0, 1, None, [0xFFFF_FF00]), Ifd(0, 1, None, [0x10])];
      var t := [0xFFFF_FF00, 0x1_0000_0010];
      AllHaveStrips(ifds) && PlausibleTrueOffsets(t) && StoredLow32(ifds, t) &&
      FixedOffsets(ifds)[1].stripOffsets == [0x1_0000_000F] &&
      CorrectedOffsets(ifds)[1].stripOffsets == [0x1_0000_0010]
  {
    var ifds := [Ifd(0, 1, None, [0xFFFF_FF00]), Ifd(0, 1, None, [0x10])];
    assert ifds[..1] == [ifds[0]];
    FixedOffsetsAt(ifds, OFFSET_STEP, 1);
    FixedOffsetsAt(ifds, TWO_32, 1);
  }
}
