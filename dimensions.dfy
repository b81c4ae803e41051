/** Dimension logic of ZeissLSMReader.initMetadata: the dimension order a scan
    type selects, the RGB rewrite that moves C next to "XY", the
    reconciliation of Z and T with the number of full-frame planes, the
    split-planes decision and the plane remapping of openBytes. All
    arithmetic is Java 32-bit `int` arithmetic. */
module Dimensions {
  import opened JavaRuntime

  /** TIFF PhotometricInterpretation code of RGB. */
  const PHOTOMETRIC_RGB: int := 2

  /** The dimension order of the LSM header's scan type. */
  function DimensionOrder(scanType: int): string
  {
    match scanType
    case 0 => "XYZCT"   // x-y-z scan
    case 1 => "XYZCT"   // z scan (x-z plane)
    case 2 => "XYZCT"   // line scan
    case 3 => "XYTCZ"   // time series x-y
    case 4 => "XYZTC"   // time series x-z
    case 5 => "XYTCZ"   // time series 'Mean of ROIs'
    case 6 => "XYZTC"   // time series x-y-z
    case 7 => "XYCTZ"   // spline scan
    case 8 => "XYCZT"   // spline scan x-z
    case 9 => "XYTCZ"   // time series spline plane x-z
    case 10 => "XYZCT"  // point mode
    case _ => "XYZCT"
  }

  predicate IsZCT(ch: char) { ch == 'Z' || ch == 'C' || ch == 'T' }

  /** X and Y first, then Z, C and T, each once, in some order. */
  predicate IsOrderOf5D(order: string)
  {
    |order| == 5 && order[0] == 'X' && order[1] == 'Y' &&
    IsZCT(order[2]) && IsZCT(order[3]) && IsZCT(order[4]) &&
    order[2] != order[3] && order[2] != order[4] && order[3] != order[4]
  }

  /** Every scan type selects a permutation of XYZCT that starts with "XY". */
  lemma DimensionOrderIsPermutation(scanType: int)
    ensures IsOrderOf5D(DimensionOrder(scanType))
  {
  }

  /** `s.replaceAll("C", "")`. */
  function RemoveAll(s: string, c: char): (r: string)
    ensures |r| <= |s|
  {
    if s == [] then [] else (if s[0] == c then [] else [s[0]]) + RemoveAll(s[1..], c)
  }

  /** `s.replaceAll("XY", "XYC")`: every non-overlapping "XY", left to right. */
  function ReplaceXY(s: string): string
  {
    if |s| < 2 then s
    else if s[..2] == "XY" then "XYC" + ReplaceXY(s[2..])
    else [s[0]] + ReplaceXY(s[1..])
  }

  /** The RGB rewrite: C removed and put back right after "XY". */
  function ChannelAfterXY(order: string): string
  {
    ReplaceXY(RemoveAll(order, 'C'))
  }

  lemma {:induction false} ReplaceXYWithoutX(s: string)
    requires 'X' !in s
    ensures ReplaceXY(s) == s
  {
    if |s| >= 2 {
      assert s[0] != 'X';
      assert s[..2] != "XY";
      ReplaceXYWithoutX(s[1..]);
    }
  }

  lemma {:induction false} RemoveAllKeepsAbsent(s: string, c: char, x: char)
    requires x !in s
    ensures x !in RemoveAll(s, c)
  {
    if s != [] {
      RemoveAllKeepsAbsent(s[1..], c, x);
    }
  }

  lemma {:induction false} RemoveAllAppend(s: string, t: string, c: char)
    ensures RemoveAll(s + t, c) == RemoveAll(s, c) + RemoveAll(t, c)
  {
    if s == [] {
      assert s + t == t;
    } else {
      var head := if s[0] == c then [] else [s[0]];
      assert (s + t)[0] == s[0];
      assert (s + t)[1..] == s[1..] + t;
      RemoveAllAppend(s[1..], t, c);
      assert RemoveAll(s + t, c) == head + (RemoveAll(s[1..], c) + RemoveAll(t, c));
    }
  }

  /** For an order that starts with "XY" and has no other X, the rewrite puts
      C directly after "XY" and keeps the other letters in their order. */
  lemma {:induction false} ChannelAfterXYMovesC(order: string)
    requires |order| >= 2 && order[..2] == "XY" && 'X' !in order[2..]
    ensures ChannelAfterXY(order) == "XYC" + RemoveAll(order[2..], 'C')
  {
    var rest := order[2..];
    assert order == "XY" + rest;
    RemoveAllAppend("XY", rest, 'C');
    assert RemoveAll("Y", 'C') == "Y";
    assert RemoveAll("XY", 'C') == "XY";
    var r := RemoveAll(rest, 'C');
    RemoveAllKeepsAbsent(rest, 'C', 'X');
    ReplaceXYWithoutX(r);
    assert ("XY" + r)[..2] == "XY";
    assert ("XY" + r)[2..] == r;
  }

  lemma RemoveAllOfThree(a: char, b: char, d: char, c: char)
    ensures RemoveAll([a, b, d], c) ==
      (if a == c then [] else [a]) + (if b == c then [] else [b]) + (if d == c then [] else [d])
  {
    var ra, rb, rd := if a == c then [] else [a], if b == c then [] else [b], if d == c then [] else [d];
    assert [d][1..] == [];
    assert RemoveAll([d], c) == rd;
    assert [b, d][1..] == [d];
    assert RemoveAll([b, d], c) == rb + rd;
    assert [a, b, d][1..] == [b, d];
    assert RemoveAll([a, b, d], c) == ra + (rb + rd);
  }

  /** The letters after "XY" without C: Z and T, in their original order. */
  lemma TailWithoutChannel(o: string)
    requires IsOrderOf5D(o)
    ensures var r := RemoveAll(o[2..], 'C');
      |r| == 2 && r[0] in "ZT" && r[1] in "ZT" && r[0] != r[1]
  {
    assert o[2..] == [o[2], o[3], o[4]];
    RemoveAllOfThree(o[2], o[3], o[4], 'C');
  }

  /** Removing C from "XY" or "XYC" followed by C-free letters leaves "XY"
      and those letters. */
  lemma RemoveChannelAfterXY(r: string)
    requires 'C' !in r
    ensures RemoveAll("XY" + r, 'C') == "XY" + r
    ensures RemoveAll("XYC" + r, 'C') == "XY" + r
  {
    RemoveAllIdle(r, 'C');
    RemoveAllAppend("XY", r, 'C');
    RemoveAllAppend("XYC", r, 'C');
    RemoveAllOfThree('X', 'Y', 'C', 'C');
    assert RemoveAll("XY", 'C') == "XY" by {
      assert "XY"[1..] == "Y";
      assert "Y"[1..] == "";
    }
  }

  /** The RGB rewrite of any such order: C third, and the order without C
      unchanged, so Z and T keep their relative order. */
  lemma {:induction false} RgbRewrite(o: string)
    requires IsOrderOf5D(o)
    ensures var rgbOrder := ChannelAfterXY(o);
      IsOrderOf5D(rgbOrder) && rgbOrder[2] == 'C' && RemoveAll(rgbOrder, 'C') == RemoveAll(o, 'C')
  {
    var tail := o[2..];
    assert o[..2] == "XY" && o == "XY" + tail;
    ChannelAfterXYMovesC(o);
    var r := RemoveAll(tail, 'C');
    TailWithoutChannel(o);
    RemoveChannelAfterXY(r);
    RemoveAllAppend("XY", tail, 'C');
    assert RemoveAll("XY", 'C') == "XY" by {
      assert "XY"[1..] == "Y";
      assert "Y"[1..] == "";
    }
    assert ChannelAfterXY(o) == ['X', 'Y', 'C', r[0], r[1]];
  }

  /** Under RGB every scan type's order becomes a permutation with C third,
      and Z and T keep the relative order the scan type gave them. */
  lemma RgbOrderPutsChannelThird(scanType: int)
    ensures var o := DimensionOrder(scanType);
      var rgbOrder := ChannelAfterXY(o);
      IsOrderOf5D(rgbOrder) && rgbOrder[2] == 'C' && RemoveAll(rgbOrder, 'C') == RemoveAll(o, 'C')
  {
    DimensionOrderIsPermutation(scanType);
    RgbRewrite(DimensionOrder(scanType));
  }

  lemma {:induction false} RemoveAllIdle(s: string, c: char)
    requires c !in s
    ensures RemoveAll(s, c) == s
  {
    if s != [] {
      RemoveAllIdle(s[1..], c);
    }
  }

  // ---------------------------------------------------------------------
  // Core dimensions of one series

  /** The fields of a series' core metadata that the dimension logic sets. */
  datatype Dims = Dims(sizeZ: int, sizeC: int, sizeT: int, imageCount: int, rgb: bool, order: string)

  /** The dimensions after the LSM header has been read (the header part of `initMetadata`):
      RGB when more than one sample per pixel or photometric RGB, sizeC the
      sample count under RGB (1 otherwise, and 1 instead of 0), Z and T from
      the header, imageCount still the plane count. Indexed colour never
      applies: the lookup table is never assigned. */
  function HeaderDims(planeCount: nat, samples: int, photo: int, headerZ: int, headerT: int, scanType: int): Dims
  {
    var rgb := samples > 1 || photo == PHOTOMETRIC_RGB;
    var sizeC := if rgb then samples else 1;
    var order := DimensionOrder(scanType);
    Dims(headerZ, if sizeC == 0 then 1 else sizeC, headerT, planeCount, rgb,
         if rgb then ChannelAfterXY(order) else order)
  }

  /** Z * T * effective C as Java computes it (Z * T when effective C is 0). */
  function DeclaredImageCount(d: Dims, effectiveSizeC: int): (r: int)
    ensures IsInt(r)
  {
    var zt := Wrap(d.sizeZ * d.sizeT);
    if effectiveSizeC == 0 then zt else Wrap(zt * effectiveSizeC)
  }

  /** The first of the four adjustments whose test holds, given the already
      reset image count and `diff`. A zero divisor throws. */
  function AdjustZT(d: Dims, diff: int, count: int): Result<Dims>
  {
    if d.sizeZ == 0 then Err(DivideByZero)
    else if TruncRem(diff, d.sizeZ) == 0 then Ok(d.(sizeT := Wrap(d.sizeT - IntDiv(diff, d.sizeZ))))
    else if d.sizeT == 0 then Err(DivideByZero)
    else if TruncRem(diff, d.sizeT) == 0 then Ok(d.(sizeZ := Wrap(d.sizeZ - IntDiv(diff, d.sizeT))))
    else if d.sizeZ > 1 then Ok(d.(sizeZ := count, sizeT := 1))
    else if d.sizeT > 1 then Ok(d.(sizeT := count, sizeZ := 1))
    else Ok(d)
  }

  /** The zero fix-ups after reconciliation: Z = image count, T = image count / Z. */
  function FillZeroSizes(d: Dims): Result<Dims>
  {
    var z := if d.sizeZ == 0 then d.imageCount else d.sizeZ;
    if d.sizeT != 0 then Ok(d.(sizeZ := z))
    else if z == 0 then Err(DivideByZero)
    else Ok(d.(sizeZ := z, sizeT := IntDiv(d.imageCount, z)))
  }

  /** `initMetadata`'s plane-count reconciliation. */
  function Reconcile(d: Dims, count: int, effectiveSizeC: int): Result<Dims>
  {
    var declared := DeclaredImageCount(d, effectiveSizeC);
    var adjusted :-
      if declared == count then Ok(d.(imageCount := declared))
      else AdjustZT(d.(imageCount := count), Wrap(declared - count), count);
    FillZeroSizes(adjusted)
  }

  /** Idempotence: when Z * T * effective C already equals the plane count,
      reconciliation changes nothing but the image count, which it sets to
      that count. */
  lemma ReconcileConsistentIsNoop(d: Dims, count: int, effectiveSizeC: int)
    requires d.sizeZ != 0 && d.sizeT != 0
    requires DeclaredImageCount(d, effectiveSizeC) == count
    ensures Reconcile(d, count, effectiveSizeC) == Ok(d.(imageCount := count))
  {
  }

  /** A mismatch with sizeZ = 0 is a division by zero at the first test. */
  lemma ReconcileZeroZFails(d: Dims, count: int, effectiveSizeC: int)
    requires d.sizeZ == 0 && DeclaredImageCount(d, effectiveSizeC) != count
    ensures Reconcile(d, count, effectiveSizeC) == Err(DivideByZero)
  {
  }

  /** The fixed precedence of the adjustments, with Java's `diff % n == 0`
      read as "n divides diff": (a) Z divides diff: T drops by diff / Z;
      (b) else T divides diff: Z drops by diff / T; (c) else Z > 1:
      Z = count, T = 1; (d) else T > 1: T = count, Z = 1. Every other field
      (C, the image count, RGB, the order) is kept. */
  lemma {:induction false} AdjustPrecedence(d: Dims, diff: int, count: int)
    requires d.sizeZ != 0 && d.sizeT != 0
    ensures var r := AdjustZT(d, diff, count);
      r.Ok? &&
      (diff % d.sizeZ == 0 ==> r.value == d.(sizeT := Wrap(d.sizeT - IntDiv(diff, d.sizeZ)))) &&
      (diff % d.sizeZ != 0 && diff % d.sizeT == 0 ==> r.value == d.(sizeZ := Wrap(d.sizeZ - IntDiv(diff, d.sizeT)))) &&
      (diff % d.sizeZ != 0 && diff % d.sizeT != 0 && d.sizeZ > 1 ==>
        r.value == d.(sizeZ := count, sizeT := 1)) &&
      (diff % d.sizeZ != 0 && diff % d.sizeT != 0 && d.sizeZ <= 1 && d.sizeT > 1 ==>
        r.value == d.(sizeZ := 1, sizeT := count)) &&
      (diff % d.sizeZ != 0 && diff % d.sizeT != 0 && d.sizeZ <= 1 && d.sizeT <= 1 ==> r.value == d)
  {
    TruncRemZeroIffDivides(diff, d.sizeZ);
    TruncRemZeroIffDivides(diff, d.sizeT);
  }

  lemma {:induction false} PositiveFactor(z: int, n: int)
    requires z >= 1 && z * n >= 0
    ensures 0 <= n <= z * n
  {
    assert z * n == (z - 1) * n + n;
    if n >= 0 {
      assert (z - 1) * n >= 0;
    }
  }

  /** When z * n == a with z positive, Java's a / z is n. */
  lemma {:induction false} ExactQuotient(a: int, z: int, n: int)
    requires z >= 1 && n >= 0 && z * n == a
    ensures TruncDiv(a, z) == n
  {
    assert a >= 0 by { PositiveFactor(z, n); }
    assert Abs(a) == a && Abs(z) == z;
    EuclidUnique(a, z, n, 0);
    assert a == z * (a / z) + a % z;
    assert z * n - z * (a / z) == z * (n - a / z);
    if n != a / z {
      NonZeroMultiple(z, n - a / z);
    }
  }

  /** Rule (a) or (b) applied to an exact mismatch: `z` divides
      diff = z * t - count, and the new other size is count / z. */
  lemma {:induction false} ExactAdjustment(z: int, t: int, count: int)
    requires z >= 1 && t >= 1 && z * t <= INT_MAX && 0 <= count <= INT_MAX
    requires TruncRem(z * t - count, z) == 0
    ensures var t2 := Wrap(t - IntDiv(z * t - count, z));
      0 <= t2 <= count && z * t2 == count
  {
    var diff := z * t - count;
    var q := TruncDiv(diff, z);
    assert diff == z * q;
    QuotientFits(diff, z);
    var n := t - q;
    assert z * n == count by {
      assert z * t - z * q == z * (t - q);
    }
    PositiveFactor(z, n);
    assert Wrap(t - q) == n;
  }

  /** Dividing an int by a positive int cannot leave the int range. */
  lemma {:induction false} QuotientFits(a: int, b: int)
    requires IsInt(a) && b >= 1
    ensures IsInt(TruncDiv(a, b)) && IntDiv(a, b) == TruncDiv(a, b)
  {
    var m := Abs(a) / b;
    assert b * m + Abs(a) % b == Abs(a);
    assert 0 <= m;
    PositiveFactor(b, m);
  }

  /** The outcome the adjustment is meant to have: Z and T not negative, not
      both zero, their product the plane count, every other size unchanged. */
  ghost predicate RestoresCount(d: Dims, r: Result<Dims>, count: int)
  {
    r.Ok? && r.value.sizeZ >= 0 && r.value.sizeT >= 0 && r.value.sizeZ * r.value.sizeT == count &&
    (r.value.sizeZ >= 1 || r.value.sizeT >= 1) &&
    r.value == d.(sizeZ := r.value.sizeZ, sizeT := r.value.sizeT)
  }

  /** First rule: Z divides the excess, so T shrinks or grows by the quotient. */
  lemma AdjustThroughT(d: Dims, count: int)
    requires d.sizeZ >= 1 && d.sizeT >= 1 && d.sizeZ * d.sizeT <= INT_MAX && 0 <= count <= INT_MAX
    requires TruncRem(d.sizeZ * d.sizeT - count, d.sizeZ) == 0
    ensures RestoresCount(d, AdjustZT(d, d.sizeZ * d.sizeT - count, count), count)
  {
    var z, t := d.sizeZ, d.sizeT;
    ExactAdjustment(z, t, count);
    var t2 := Wrap(t - IntDiv(z * t - count, z));
    assert AdjustZT(d, z * t - count, count) == Ok(d.(sizeT := t2));
  }

  /** Second rule: T divides the excess, so Z shrinks or grows by the quotient. */
  lemma AdjustThroughZ(d: Dims, count: int)
    requires d.sizeZ >= 1 && d.sizeT >= 1 && d.sizeZ * d.sizeT <= INT_MAX && 0 <= count <= INT_MAX
    requires TruncRem(d.sizeZ * d.sizeT - count, d.sizeZ) != 0
    requires TruncRem(d.sizeZ * d.sizeT - count, d.sizeT) == 0
    ensures RestoresCount(d, AdjustZT(d, d.sizeZ * d.sizeT - count, count), count)
  {
    var z, t := d.sizeZ, d.sizeT;
    SwappedAdjustment(z, t, count);
    assert AdjustZT(d, z * t - count, count) == Ok(d.(sizeZ := Wrap(z - IntDiv(z * t - count, t))));
  }

  /** The arithmetic of the second rule: ExactAdjustment with Z and T exchanged. */
  lemma SwappedAdjustment(z: int, t: int, count: int)
    requires z >= 1 && t >= 1 && z * t <= INT_MAX && 0 <= count <= INT_MAX
    requires TruncRem(z * t - count, t) == 0
    ensures var z2 := Wrap(z - IntDiv(z * t - count, t));
      0 <= z2 <= count && z2 * t == count
  {
    assert t * z == z * t;
    ExactAdjustment(t, z, count);
    var z2 := Wrap(z - IntDiv(z * t - count, t));
    assert t * z2 == z2 * t;
  }

  /** The four rules applied to positive Z and T whose product fits: the
      result has Z * T equal to the plane count and a positive Z or T. */
  lemma {:induction false} AdjustRestoresPlaneCount(d: Dims, count: int)
    requires d.sizeZ >= 1 && d.sizeT >= 1 && d.sizeZ * d.sizeT <= INT_MAX
    requires 0 <= count <= INT_MAX && d.sizeZ * d.sizeT != count
    ensures var r := AdjustZT(d, Wrap(d.sizeZ * d.sizeT - count), count);
      r.Ok? && r.value.sizeZ >= 0 && r.value.sizeT >= 0 && r.value.sizeZ * r.value.sizeT == count &&
      (r.value.sizeZ >= 1 || r.value.sizeT >= 1) &&
      r.value == d.(sizeZ := r.value.sizeZ, sizeT := r.value.sizeT)
  {
    var z, t := d.sizeZ, d.sizeT;
    var diff := z * t - count;
    assert Wrap(diff) == diff;
    if TruncRem(diff, z) == 0 {
      AdjustThroughT(d, count);
    } else if TruncRem(diff, t) == 0 {
      AdjustThroughZ(d, count);
    } else {
      assert TruncRem(diff, 1) == 0;
      assert z > 1 || t > 1;
    }
  }

  /** The zero fix-ups leave alone a size pair whose product is the image count. */
  lemma FillKeepsProduct(a: Dims)
    requires a.sizeZ >= 0 && a.sizeT >= 0 && a.sizeZ * a.sizeT == a.imageCount
    requires a.sizeZ >= 1 || a.sizeT >= 1
    ensures var r := FillZeroSizes(a);
      r.Ok? && r.value.sizeZ * r.value.sizeT == a.imageCount &&
      r.value == a.(sizeZ := r.value.sizeZ, sizeT := r.value.sizeT)
  {
    if a.sizeT == 0 {
      assert a.imageCount == 0;
      assert TruncDiv(0, a.sizeZ) == 0;
    } else if a.sizeZ == 0 {
      assert a.imageCount == 0;
    }
  }

  /** When Z * T fits in an int, effective C is 1 (as under RGB) and the plane
      count is a Java array length, reconciliation always succeeds, sets the
      image count to the plane count and leaves Z * T equal to it; sizeC, RGB
      and the order stay. */
  lemma {:induction false} ReconcileRestoresPlaneCount(d: Dims, count: int)
    requires d.sizeZ >= 1 && d.sizeT >= 1 && d.sizeZ * d.sizeT <= INT_MAX
    requires 0 <= count <= INT_MAX
    ensures var r := Reconcile(d, count, 1);
      r.Ok? && r.value.imageCount == count && r.value.sizeZ * r.value.sizeT == count &&
      r.value.sizeC == d.sizeC && r.value.rgb == d.rgb && r.value.order == d.order
  {
    var zt := d.sizeZ * d.sizeT;
    assert zt >= 1 by { PositiveFactor(d.sizeZ, d.sizeT); }
    assert DeclaredImageCount(d, 1) == zt by {
      assert Wrap(zt) == zt;
      assert Wrap(zt * 1) == zt;
    }
    var e := d.(imageCount := count);
    var adjusted: Dims;
    if zt != count {
      AdjustRestoresPlaneCount(e, count);
      adjusted := AdjustZT(e, Wrap(zt - count), count).value;
    } else {
      adjusted := e;
    }
    assert Reconcile(d, count, 1) == FillZeroSizes(adjusted);
    FillKeepsProduct(adjusted);
  }

  /** What the reader decides once the data channels are counted (at the end
      of `initMetadata`): when the assigned data-channel count (1 if none) equals
      sizeC, planes are split exactly when the series was RGB, RGB is
      cleared, and a split multiplies the image count by sizeC. Otherwise the
      dimensions stay and the reader-wide flag keeps its previous value. */
  function SplitDecision(d: Dims, nextDataChannel: int, splitBefore: bool): (Dims, bool)
  {
    var nLogicalChannels := if nextDataChannel == 0 then 1 else nextDataChannel;
    if nLogicalChannels == d.sizeC then
      var split := d.rgb;
      (d.(rgb := false, imageCount := if split then Wrap(d.imageCount * d.sizeC) else d.imageCount), split)
    else (d, splitBefore)
  }

  /** The split flag is reader-wide: a series whose channel counts do not
      match inherits whatever an earlier series decided. */
  lemma SplitFlagLeaksAcrossSeries(first: Dims, second: Dims)
    requires first.rgb && first.sizeC == 2
    requires second.sizeC == 3 && !second.rgb
    ensures var (_, split1) := SplitDecision(first, 2, false);
      var (d2, split2) := SplitDecision(second, 2, split1);
      split1 && split2 && d2 == second
  {
  }

  /** Which stored plane `openBytes` reads for logical plane `no`. */
  datatype PlaneRef = Whole(plane: int) | Sample(plane: int, channel: int)

  /** `openBytes`' index mapping; `no` has passed the
      plane-number check, so it is not negative. */
  function PlaneSource(no: int, sizeC: int, splitPlanes: bool): PlaneRef
    requires no >= 0
  {
    if splitPlanes && sizeC > 1 then Sample(no / sizeC, no % sizeC) else Whole(no)
  }

  /** Under split planes, logical plane `no` below planes * sizeC is sample
      `no % sizeC` of a stored plane below `planes`, and plane * sizeC +
      sample gives `no` back. */
  lemma {:induction false} PlaneSourceInRange(no: int, sizeC: int, planes: int)
    requires sizeC > 1 && 0 <= no < planes * sizeC
    ensures var r := PlaneSource(no, sizeC, true);
      r.Sample? && 0 <= r.plane < planes && 0 <= r.channel < sizeC &&
      r.plane * sizeC + r.channel == no
  {
    var p0 := no / sizeC;
    assert sizeC * p0 <= no;
    assert sizeC * p0 - sizeC * planes == sizeC * (p0 - planes);
  }

  /** Every (stored plane, sample) pair is the image of exactly the logical
      index plane * sizeC + sample, so the mapping is a bijection. */
  lemma {:induction false} PlaneSourceReaches(plane: int, channel: int, sizeC: int)
    requires sizeC > 1 && plane >= 0 && 0 <= channel < sizeC
    ensures plane * sizeC + channel >= 0
    ensures PlaneSource(plane * sizeC + channel, sizeC, true) == Sample(plane, channel)
  {
    var no := plane * sizeC + channel;
    assert no >= 0;
    EuclidUnique(no, sizeC, plane, channel);
    var p0 := no / sizeC;
    assert no == sizeC * p0 + channel;
    assert sizeC * plane - sizeC * p0 == sizeC * (plane - p0);
    if plane != p0 { NonZeroMultiple(sizeC, plane - p0); }
  }

  // ---------------------------------------------------------------------
  // Scenarios

  /** The RGB rewrite of the x-y-z scan order. */
  lemma XyzOrderUnderRgb()
    ensures ChannelAfterXY(DimensionOrder(0)) == "XYCZT"
  {
    var o := DimensionOrder(0);
    assert o == "XYZCT";
    assert o[..2] == "XY" && o[2..] == ['Z', 'C', 'T'];
    ChannelAfterXYMovesC(o);
    RemoveAllOfThree('Z', 'C', 'T', 'C');
  }

  /** Z = 5, T = 1, two samples per pixel (RGB), 10 planes, two data channels:
      T becomes 2, then planes are split, RGB is cleared, the image count
      becomes 20, and logical plane 7 is sample 1 of stored plane 3. */
  lemma SplitScenario()
    ensures var h := HeaderDims(10, 2, 0, 5, 1, 0);
      h.rgb && h.sizeC == 2 && h.order == "XYCZT" &&
      Reconcile(h, 10, 1) == Ok(h.(sizeT := 2, imageCount := 10)) &&
      SplitDecision(h.(sizeT := 2, imageCount := 10), 2, false) ==
        (h.(sizeT := 2, imageCount := 20, rgb := false), true) &&
      PlaneSource(7, 2, true) == Sample(3, 1)
  {
    XyzOrderUnderRgb();
    var h := HeaderDims(10, 2, 0, 5, 1, 0);
    assert h == Dims(5, 2, 1, 10, true, "XYCZT");
    assert DeclaredImageCount(h, 1) == 5 by {
      assert Wrap(5) == 5;
    }
    assert TruncRem(-5, 5) == 0;
    assert IntDiv(-5, 5) == -1;
    assert Wrap(1 - -1) == 2;
    assert Reconcile(h, 10, 1) == Ok(h.(sizeT := 2, imageCount := 10));
    assert Wrap(10 * 2) == 20;
  }

  /** Declared 4 * 3 = 12 planes against 10 stored: diff = 2 is divisible by
      neither 4 nor 3, so the third rule applies: Z = 10, T = 1. */
  lemma MismatchScenario(d: Dims)
    requires d.sizeZ == 4 && d.sizeT == 3
    ensures Reconcile(d, 10, 1) == Ok(d.(sizeZ := 10, sizeT := 1, imageCount := 10))
  {
    var e := d.(imageCount := 10);
    var diff := Wrap(DeclaredImageCount(d, 1) - 10);
    assert diff == 2 by {
      assert Wrap(12) == 12;
      assert DeclaredImageCount(d, 1) == 12;
    }
    AdjustPrecedence(e, diff, 10);
  }

  // ---------------------------------------------------------------------
  // The series' core metadata, updated in place as the source does

  class CoreMetadata {
    var sizeX: int
    var sizeY: int
    var sizeZ: int
    var sizeC: int
    var sizeT: int
    var imageCount: int
    var rgb: bool
    var indexed: bool
    var interleaved: bool
    var dimensionOrder: string

    function Current(): Dims
      reads this
    {
      Dims(sizeZ, sizeC, sizeT, imageCount, rgb, dimensionOrder)
    }

    constructor ()
      ensures Current() == Dims(0, 0, 0, 0, false, "") && !indexed && !interleaved
    {
      sizeX, sizeY, sizeZ, sizeC, sizeT, imageCount := 0, 0, 0, 0, 0, 0;
      rgb, indexed, interleaved := false, false, false;
      dimensionOrder := "";
    }

    /** The header part of `initMetadata`, with the header values as inputs: `width` and
        `length` are the image width and length (Java longs cast to int). */
    method ReadHeader(width: int, length: int, planeCount: nat, samples: int, photo: int,
                      headerZ: int, headerT: int, scanType: int)
      modifies this
      ensures Current() == HeaderDims(planeCount, samples, photo, headerZ, headerT, scanType)
      ensures sizeX == Wrap(width) && sizeY == Wrap(length) && !indexed && !interleaved
    {
      sizeX := Wrap(width);
      sizeY := Wrap(length);
      rgb := samples > 1 || photo == PHOTOMETRIC_RGB;
      interleaved := false;
      sizeC := if rgb then samples else 1;
      imageCount := planeCount;
      sizeZ := imageCount;
      sizeT := 1;
      sizeZ := headerZ;
      sizeT := headerT;
      dimensionOrder := DimensionOrder(scanType);
      indexed := false;  // the lookup table is never assigned
      if sizeC == 0 {
        sizeC := 1;
      }
      if rgb {
        dimensionOrder := RemoveAll(dimensionOrder, 'C');
        dimensionOrder := ReplaceXY(dimensionOrder);
      }
    }

    /** `initMetadata`'s four adjustments, after the image count is reset: the first
        adjustment whose test holds. */
    method AdjustSizes(diff: int, count: int) returns (r: Result<Dims>)
      modifies this
      ensures r == AdjustZT(old(Current()), diff, count)
      ensures r.Ok? ==> Current() == r.value
      ensures sizeX == old(sizeX) && sizeY == old(sizeY) && indexed == old(indexed) && interleaved == old(interleaved)
    {
      if sizeZ == 0 {
        return Err(DivideByZero);
      }
      if TruncRem(diff, sizeZ) == 0 {
        sizeT := Wrap(sizeT - IntDiv(diff, sizeZ));
      } else {
        if sizeT == 0 {
          return Err(DivideByZero);
        }
        if TruncRem(diff, sizeT) == 0 {
          sizeZ := Wrap(sizeZ - IntDiv(diff, sizeT));
        } else if sizeZ > 1 {
          sizeZ := count;
          sizeT := 1;
        } else if sizeT > 1 {
          sizeT := count;
          sizeZ := 1;
        }
      }
      r := Ok(Current());
    }

    /** `initMetadata`'s zero fix-ups. */
    method FillZeros() returns (r: Result<Dims>)
      modifies this
      ensures r == FillZeroSizes(old(Current()))
      ensures r.Ok? ==> Current() == r.value
      ensures sizeX == old(sizeX) && sizeY == old(sizeY) && indexed == old(indexed) && interleaved == old(interleaved)
    {
      if sizeZ == 0 {
        sizeZ := imageCount;
      }
      if sizeT == 0 {
        if sizeZ == 0 {
          return Err(DivideByZero);
        }
        sizeT := IntDiv(imageCount, sizeZ);
      }
      r := Ok(Current());
    }

    /** `initMetadata`'s plane-count reconciliation: `planeCount` is the number of full-frame
        descriptors and `effectiveSizeC` the inherited effective channel count. */
    method ReconcilePlaneCount(planeCount: int, effectiveSizeC: int) returns (r: Result<Dims>)
      modifies this
      ensures r == Reconcile(old(Current()), planeCount, effectiveSizeC)
      ensures r.Ok? ==> Current() == r.value
      ensures sizeX == old(sizeX) && sizeY == old(sizeY) && indexed == old(indexed) && interleaved == old(interleaved)
    {
      if effectiveSizeC == 0 {
        imageCount := Wrap(sizeZ * sizeT);
      } else {
        imageCount := Wrap(Wrap(sizeZ * sizeT) * effectiveSizeC);
      }
      if imageCount != planeCount {
        var diff := Wrap(imageCount - planeCount);
        imageCount := planeCount;
        var adjusted := AdjustSizes(diff, planeCount);
        if adjusted.Err? {
          return adjusted;
        }
      }
      r := FillZeros();
    }
  }
}
