/** GetNextWorkRequired: the retarget, and what the compact form loses. */
module Difficulty {
  import opened Basics
  import opened Bignum
  import opened BlockIndex

  /** bnProofOfWorkLimit: ~uint256(0) >> 32 */
  const ProofOfWorkLimit: nat := 0x1_00000000_00000000_00000000_00000000_00000000_00000000_00000000 - 1

  // ----- the compact form -----

  lemma {:induction false} PositiveTop(n: int)
    requires n > 0
    ensures var v := GetVch(n); v != [] && v[|v| - 1] < 0x80 && FromLE(v) == n
    ensures Minimal(GetVch(n))
  {
    VchRoundTrip(n);
    GetVchMinimal(n);
    var v := GetVch(n);
    assert v[..|v| - 1] + [v[|v| - 1] % 0x80] == v;
  }

  /** The three bytes a compact number keeps, with zeros for the rest. */
  function KeepThree(v: seq<byte>): seq<byte> {
    if |v| <= 3 then v else seq(|v| - 3, _ => 0) + v[|v| - 3..]
  }

  /** The bytes that SetCompact reads from a size and three digits. */
  function CompactBytes(nSize: nat, b0: byte, b1: byte, b2: byte): seq<byte> {
    if nSize == 0 then [] else if nSize == 1 then [b0] else if nSize == 2 then [b1, b0]
    else seq(nSize - 3, _ => 0) + [b2, b1, b0]
  }

  lemma {:induction false} SetCompactReads(nCompact: uint32, nSize: nat, b0: byte, b1: byte, b2: byte)
    requires nCompact / 0x100_0000 == nSize && nCompact / 0x1_0000 % 0x100 == b0
    requires nCompact / 0x100 % 0x100 == b1 && nCompact % 0x100 == b2
    ensures SetCompact(nCompact) == SetVch(CompactBytes(nSize, b0, b1, b2))
  {
  }

  lemma {:induction false} CompactBytesKeepThree(v: seq<byte>)
    requires v != []
    ensures var k := |v|;
            CompactBytes(k, v[k - 1], if k >= 2 then v[k - 2] else 0, if k >= 3 then v[k - 3] else 0) == KeepThree(v)
  {
    var k := |v|;
    if k >= 4 {
      assert v[k - 3..] == [v[k - 3], v[k - 2], v[k - 1]];
    } else if k == 3 {
      assert seq(0, _ => 0) + [v[0], v[1], v[2]] == v;
    }
  }

  lemma {:induction false} CompactKeepsThree(n: int)
    requires n > 0 && |GetVch(n)| < 0x100
    ensures SetCompact(GetCompact(n)) == FromLE(KeepThree(GetVch(n)))
  {
    PositiveTop(n);
    var v := GetVch(n);
    CompactOfBytes(n, v);
    CompactBytesKeepThree(v);
    PositiveReads(KeepThree(v));
  }

  lemma {:induction false} CompactOfBytes(n: int, v: seq<byte>)
    requires v == GetVch(n) && 0 < |v| < 0x100
    ensures var k := |v|;
            SetCompact(GetCompact(n)) ==
            SetVch(CompactBytes(k, v[k - 1], if k >= 2 then v[k - 2] else 0, if k >= 3 then v[k - 3] else 0))
  {
    var k := |v|;
    var b0: byte, b1: byte, b2: byte := v[k - 1], if k >= 2 then v[k - 2] else 0, if k >= 3 then v[k - 3] else 0;
    CompactDigits(n, v, GetCompact(n));
    SetCompactReads(GetCompact(n), k, b0, b1, b2);
  }

  /** The size, modulo 256, and the three digits that follow it. */
  lemma {:induction false} CompactDigits(n: int, v: seq<byte>, c: uint32)
    requires v == GetVch(n) && v != [] && c == GetCompact(n)
    ensures var k := |v|;
            && c / 0x100_0000 == k % 0x100 && c / 0x1_0000 % 0x100 == v[k - 1]
            && c / 0x100 % 0x100 == (if k >= 2 then v[k - 2] else 0) && c % 0x100 == (if k >= 3 then v[k - 3] else 0)
  {
    var k := |v|;
    Digits(k % 0x100, v[k - 1], if k >= 2 then v[k - 2] else 0, if k >= 3 then v[k - 3] else 0);
  }

  /** A number that is not positive has a compact form that reads as not positive. */
  lemma {:induction false} CompactNotPositive(n: int)
    requires n <= 0
    ensures SetCompact(GetCompact(n)) <= 0
  {
    var v, c := GetVch(n), GetCompact(n);
    if v == [] {
      assert c == 0;
    } else {
      CompactDigits(n, v, c);
      SetCompactReads(c, |v| % 0x100, v[|v| - 1], c / 0x100 % 0x100, c % 0x100);
      assert v[|v| - 1] >= 0x80;
    }
  }

  lemma {:induction false} Digits(k: int, b0: byte, b1: byte, b2: byte)
    requires 0 <= k < 0x100
    ensures var c := k * 0x100_0000 + b0 * 0x1_0000 + b1 * 0x100 + b2;
            c / 0x100_0000 == k && c / 0x1_0000 % 0x100 == b0 && c / 0x100 % 0x100 == b1 && c % 0x100 == b2
  {
    var c := k * 0x100_0000 + b0 * 0x1_0000 + b1 * 0x100 + b2;
    assert c / 0x100 == k * 0x1_0000 + b0 * 0x100 + b1;
    assert c / 0x1_0000 == k * 0x100 + b0;
    assert c / 0x100_0000 == k;
  }

  lemma {:induction false} PositiveReads(w: seq<byte>)
    requires w != [] && w[|w| - 1] < 0x80
    ensures SetVch(w) == FromLE(w)
  {
    assert w[..|w| - 1] + [w[|w| - 1] % 0x80] == w;
  }

  /** The last three bytes of a positive number of four bytes or more make at least
      2^15: the top byte may be zero, but then only because the next one uses its
      top bit. */
  lemma {:induction false} TopThree(t: seq<byte>)
    requires |t| == 3 && (t[2] != 0 || t[1] >= 0x80)
    ensures FromLE(t) >= 0x8000
  {
    assert FromLE(t) == t[0] + 256 * FromLE(t[1..]);
    assert FromLE(t[1..]) == t[1] + 256 * FromLE(t[1..][1..]);
    assert FromLE(t[1..][1..]) == t[2] + 256 * FromLE(t[1..][1..][1..]);
  }

  lemma {:induction false} Scale(p: int, top: int, low: int)
    requires 0 <= low < p && top >= 0x8000
    ensures low * 0x8000 < low + p * top
  {
    assert p * top >= p * 0x8000 by { assert p * (top - 0x8000) >= 0; }
  }

  /** A compact number is a size in bytes, a sign and 23 bits: the bits times 256 to the size
      less 3. */
  lemma {:induction false} CompactValue(nSize: nat, negative: bool, mantissa: nat)
    requires 3 <= nSize < 0x100 && mantissa < 0x80_0000
    ensures var n := SetCompact(nSize * 0x100_0000 + (if negative then 0x80_0000 else 0) + mantissa);
            n == if negative then -(mantissa * Pow(256, nSize - 3)) else mantissa * Pow(256, nSize - 3)
  {
    var low := (if negative then 0x80_0000 else 0) + mantissa;
    CompactOf(nSize * 0x100_0000 + low, nSize, low);
    Mantissa(low, negative, mantissa);
  }

  lemma {:induction false} CompactOf(c: uint32, nSize: nat, low: nat)
    requires 3 <= nSize < 0x100 && low < 0x100_0000 && c == nSize * 0x100_0000 + low
    ensures var m := (low % 0x100 + 0x100 * (low / 0x100 % 0x100) + 0x1_0000 * (low / 0x1_0000 % 0x80)) * Pow(256, nSize - 3);
            SetCompact(c) == if low / 0x1_0000 >= 0x80 then -m else m
  {
    var b0: byte, b1: byte, b2: byte := low / 0x1_0000, low / 0x100 % 0x100, low % 0x100;
    Digits(nSize, b0, b1, b2);
    SetCompactReads(c, nSize, b0, b1, b2);
    BytesValue(nSize - 3, b0, b1, b2);
  }

  lemma {:induction false} Mantissa(low: nat, negative: bool, mantissa: nat)
    requires mantissa < 0x80_0000 && low == (if negative then 0x80_0000 else 0) + mantissa
    ensures low % 0x100 + 0x100 * (low / 0x100 % 0x100) + 0x1_0000 * (low / 0x1_0000 % 0x80) == mantissa
    ensures low / 0x1_0000 >= 0x80 <==> negative
  {
  }

  lemma {:induction false} BytesValue(k: nat, b0: byte, b1: byte, b2: byte)
    ensures var m := (b2 + 0x100 * b1 + 0x1_0000 * (b0 % 0x80)) * Pow(256, k);
            SetVch(CompactBytes(k + 3, b0, b1, b2)) == if b0 >= 0x80 then -m else m
  {
    var front := seq(k, _ => 0) + [b2, b1];
    assert CompactBytes(k + 3, b0, b1, b2) == front + [b0];
    TopByte(front, b0);
    FrontValue(k, b1, b2, b0 % 0x80);
  }

  lemma {:induction false} FrontValue(k: nat, b1: byte, b2: byte, top: byte)
    ensures FromLE(seq(k, _ => 0) + [b2, b1] + [top]) == (b2 + 0x100 * b1 + 0x1_0000 * top) * Pow(256, k)
  {
    var zeros: seq<byte> := seq(k, _ => 0);
    assert zeros + [b2, b1] + [top] == zeros + [b2, b1, top];
    FromLEZeros(k, [b2, b1, top]);
    ThreeBytes(b2, b1, top);
  }

  /** The top bit of the last byte is the sign. */
  lemma {:induction false} TopByte(front: seq<byte>, top: byte)
    ensures var m: int := FromLE(front + [top % 0x80]); SetVch(front + [top]) == if top >= 0x80 then -m else m
  {
    SplitFront(front, [top]);
  }

  lemma {:induction false} ThreeBytes(a: byte, b: byte, c: byte)
    ensures FromLE([a, b, c]) == a + 0x100 * b + 0x1_0000 * c
  {
    var t := [a, b, c];
    assert FromLE(t) == t[0] + 256 * FromLE(t[1..]);
    assert FromLE(t[1..]) == t[1] + 256 * FromLE(t[1..][1..]);
    assert FromLE(t[1..][1..]) == t[2] + 256 * FromLE(t[1..][1..][1..]);
  }

  /** Writing a positive number in compact form loses less than one part in 2^15,
      and never rounds up or to zero. */
  lemma {:induction false} CompactPrecision(n: int)
    requires n > 0 && |GetVch(n)| < 0x100
    ensures var r := SetCompact(GetCompact(n)); 0 < r <= n && (n - r) * 0x8000 < n
  {
    CompactKeepsThree(n);
    PositiveTop(n);
    var v := GetVch(n);
    if |v| > 3 {
      var k := |v| - 3;
      var low, top := v[..k], v[k..];
      assert v == low + top;
      FromLEAppend(low, top);
      FromLEZeros(k, top);
      FromLEBound(low);
      TopThree(top);
      Scale(Pow(256, k), FromLE(top), FromLE(low));
      MulPositive(Pow(256, k), FromLE(top));
    }
  }

  /** Targets in range have a compact form. */
  lemma {:induction false} TargetFits(n: nat)
    requires n <= ProofOfWorkLimit
    ensures |GetVch(n)| < 0x100
  {
    Pow256Values();
    MagnitudeFits(n, 32);
  }

  // ----- the retarget -----

  const TwoWeeks := 1209600  // seconds
  const OneDay := 86400
  const nTargetSpacing := 600

  predicate Revised(nHeight: int) {
    nHeight + 1 > 20055
  }

  function TargetTimespan(nHeight: int): int {
    Timespan(Revised(nHeight))
  }

  function Interval(nHeight: int): int {
    TargetTimespan(nHeight) / nTargetSpacing
  }

  /** The block the timespan is measured from. */
  function BlocksToGoBack(nHeight: int): nat {
    var height := nHeight + 1;
    if height >= 43000 && height != Interval(nHeight) then Interval(nHeight) else Interval(nHeight) - 1
  }

  function ClampTimespan(revised: bool, actual: int): int {
    if !revised then
      if actual < TwoWeeks / 4 then TwoWeeks / 4 else if actual > TwoWeeks * 4 then TwoWeeks * 4 else actual
    else
      var nTwoPercent := OneDay / 50;
      if actual < nTwoPercent * 16 then nTwoPercent * 45
      else if actual < nTwoPercent * 32 then nTwoPercent * 47
      else if actual < OneDay then nTwoPercent * 49
      else if actual > OneDay * 4 then OneDay * 4
      else actual
  }

  /** The step is limited: to a factor of 4 each way before the rule change, to 10
      percent down and a factor of 4 up after it. */
  lemma {:induction false} TimespanClamped(revised: bool, actual: int)
    ensures var t := ClampTimespan(revised, actual);
            if revised then 10 * t >= 9 * OneDay && t <= 4 * OneDay else 4 * t >= TwoWeeks && t <= 4 * TwoWeeks
    ensures revised && OneDay <= actual <= 4 * OneDay ==> ClampTimespan(revised, actual) == actual
    ensures !revised && TwoWeeks <= 4 * actual <= 16 * TwoWeeks ==> ClampTimespan(revised, actual) == actual
  {
  }

  /** After the change of rule a period that was too short counts as 45, 47 or 49 fiftieths
      of a day: under 16 fiftieths, under 32, and the rest. */
  lemma {:induction false} TimespanSteps(actual: int)
    requires actual < OneDay
    ensures 50 * ClampTimespan(true, actual) == 45 * OneDay <==> 50 * actual < 16 * OneDay
    ensures 50 * ClampTimespan(true, actual) == 47 * OneDay <==> 16 * OneDay <= 50 * actual < 32 * OneDay
    ensures 50 * ClampTimespan(true, actual) == 49 * OneDay <==> 32 * OneDay <= 50 * actual
  {
  }

  /** A longer period never counts as shorter. */
  lemma {:induction false} TimespanMonotone(revised: bool, actual: int, longer: int)
    requires actual <= longer
    ensures ClampTimespan(revised, actual) <= ClampTimespan(revised, longer)
  {
  }

  /** The period measured: from height 43000 on, between the last block of the period before
      and the last one of this; below that, from the first block of this. */
  lemma {:induction false} PeriodMeasured(nHeight: nat)
    requires Retargets(nHeight)
    ensures var n, k := Interval(nHeight), nHeight - BlocksToGoBack(nHeight);
            && n == (if nHeight < 20055 then 2016 else 144)
            && if nHeight + 1 >= 43000 && nHeight + 1 != n then k + n == nHeight && (k + 1) % n == 0
               else k + n == nHeight + 1 && k % n == 0
  {
    var n := Interval(nHeight);
    EnoughBlocks(nHeight);
    ModAdd(nHeight + 1 - n, n, 1);
  }

  /** What the clamped timespan is divided by. */
  function Timespan(revised: bool): nat {
    if revised then OneDay else TwoWeeks
  }

  /** The new target before it is put into compact form. */
  function NewTarget(nBits: uint32, revised: bool, actual: int): int {
    var bnNew := TruncDiv(SetCompact(nBits) * ClampTimespan(revised, actual), Timespan(revised));
    if bnNew > ProofOfWorkLimit then ProofOfWorkLimit else bnNew
  }

  /** It is the old one times the clamped timespan over the timespan aimed at, rounded down,
      and at most the limit. */
  lemma {:induction false} NewTargetExact(nBits: uint32, revised: bool, actual: int)
    requires SetCompact(nBits) > 0
    ensures var T, x, q := Timespan(revised), SetCompact(nBits) * ClampTimespan(revised, actual), NewTarget(nBits, revised, actual);
            && q * T <= x && q <= ProofOfWorkLimit && (q < ProofOfWorkLimit ==> x < (q + 1) * T)
  {
    TimespanClamped(revised, actual);
    MulPositive(SetCompact(nBits), ClampTimespan(revised, actual));
    var T, x := Timespan(revised), SetCompact(nBits) * ClampTimespan(revised, actual);
    WholePart(x, T, NewTarget(nBits, revised, actual));
  }

  lemma {:induction false} WholePart(x: nat, T: nat, q: nat)
    requires T > 0 && q <= x / T
    ensures q * T <= x && (q == x / T ==> x < (q + 1) * T)
  {
    MulMono(T, q, x / T);
  }

  predicate Retargets(nHeight: nat) {
    (nHeight + 1) % Interval(nHeight) == 0
  }

  /** The time that the blocks of the period took. */
  ghost function ActualTimespan(pindexLast: CBlockIndex): int
    requires Linked(pindexLast) && Retargets(pindexLast.nHeight)
  {
    EnoughBlocks(pindexLast.nHeight);
    pindexLast.nTime - Path(pindexLast)[pindexLast.nHeight - BlocksToGoBack(pindexLast.nHeight)].nTime
  }

  /** What GetNextWorkRequired is to return on top of pindexLast. */
  ghost function NextWork(pindexLast: CBlockIndex): uint32
    requires Linked(pindexLast)
  {
    var h := pindexLast.nHeight;
    if !Retargets(h) then pindexLast.nBits
    else GetCompact(NewTarget(pindexLast.nBits, Revised(h), ActualTimespan(pindexLast)))
  }

  /** At a retarget there are enough blocks to go back. */
  lemma {:induction false} EnoughBlocks(nHeight: nat)
    requires Retargets(nHeight)
    ensures BlocksToGoBack(nHeight) <= nHeight
  {
    var n := Interval(nHeight);
    assert nHeight + 1 >= n;
  }

  /** GetNextWorkRequired.  The walk back never runs past the root. */
  method GetNextWorkRequired(pindexLast: CBlockIndex) returns (nBits: uint32)
    requires Linked(pindexLast)
    ensures nBits == NextWork(pindexLast)
  {
    var nTargetTimespan := TwoWeeks;
    var revisedIxcoin := pindexLast.nHeight + 1 > 20055;
    if revisedIxcoin {
      nTargetTimespan := OneDay;
    }
    var nInterval := nTargetTimespan / nTargetSpacing;
    var height := pindexLast.nHeight + 1;

    if height % nInterval != 0 {
      return pindexLast.nBits;
    }

    // The first period has one block less to go back over: there is none below genesis.
    var blockstogoback := nInterval - 1;
    if height >= 43000 && height != nInterval {
      blockstogoback := nInterval;
    }
    EnoughBlocks(pindexLast.nHeight);
    var pindexFirst := GoBack(pindexLast, blockstogoback);

    var nActualTimespan: int := pindexLast.nTime - pindexFirst.nTime;
    nBits := RetargetBits(pindexLast, revisedIxcoin, nTargetTimespan, nActualTimespan);
  }

  method RetargetBits(pindexLast: CBlockIndex, revisedIxcoin: bool, nTargetTimespan: int, nActualTimespan: int) returns (nBits: uint32)
    requires Linked(pindexLast) && Retargets(pindexLast.nHeight) && revisedIxcoin == Revised(pindexLast.nHeight)
    requires nTargetTimespan == TargetTimespan(pindexLast.nHeight) && nActualTimespan == ActualTimespan(pindexLast)
    ensures nBits == NextWork(pindexLast)
  {
    var bnNew := Retarget(pindexLast.nBits, revisedIxcoin, nTargetTimespan, nActualTimespan);
    NextWorkIs(pindexLast, bnNew);
    nBits := GetCompact(bnNew);
  }

  lemma {:induction false} NextWorkIs(pindexLast: CBlockIndex, bnNew: int)
    requires Linked(pindexLast) && Retargets(pindexLast.nHeight)
    requires bnNew == NewTarget(pindexLast.nBits, Revised(pindexLast.nHeight), ActualTimespan(pindexLast))
    ensures GetCompact(bnNew) == NextWork(pindexLast)
  {
  }

  /** The loop back along pprev, with the assertion after it. */
  method GoBack(pindexLast: CBlockIndex, blockstogoback: nat) returns (pindexFirst: CBlockIndex)
    requires Linked(pindexLast) && blockstogoback <= pindexLast.nHeight
    ensures pindexFirst == Path(pindexLast)[pindexLast.nHeight - blockstogoback]
  {
    var pindex: CBlockIndex? := pindexLast;
    var i := 0;
    while pindex != null && i < blockstogoback
      invariant 0 <= i <= blockstogoback
      invariant pindex != null && Linked(pindex) && pindex.nHeight == pindexLast.nHeight - i
      invariant IsAncestor(pindex, pindexLast)
    {
      AncestorTransitive(pindex.pprev, pindex, pindexLast);
      pindex := pindex.pprev;
      i := i + 1;
    }
    assert pindex != null;
    pindexFirst := pindex;
  }

  method Retarget(nBits: uint32, revisedIxcoin: bool, nTargetTimespan: int, nActualIn: int) returns (bnNew: int)
    requires nTargetTimespan == if revisedIxcoin then OneDay else TwoWeeks
    ensures bnNew == NewTarget(nBits, revisedIxcoin, nActualIn)
  {
    var nActualTimespan := nActualIn;
    if !revisedIxcoin {
      if nActualTimespan < nTargetTimespan / 4 {
        nActualTimespan := nTargetTimespan / 4;
      }
      if nActualTimespan > nTargetTimespan * 4 {
        nActualTimespan := nTargetTimespan * 4;
      }
    } else {
      var nTwoPercent := nTargetTimespan / 50;
      if nActualTimespan < nTargetTimespan {
        if nActualTimespan < nTwoPercent * 16 {
          nActualTimespan := nTwoPercent * 45;
        } else if nActualTimespan < nTwoPercent * 32 {
          nActualTimespan := nTwoPercent * 47;
        } else {
          nActualTimespan := nTwoPercent * 49;
        }
      } else if nActualTimespan > nTargetTimespan * 4 {
        nActualTimespan := nTargetTimespan * 4;
      }
    }

    bnNew := SetCompact(nBits);
    bnNew := bnNew * nActualTimespan;
    bnNew := TruncDiv(bnNew, nTargetTimespan);
    if bnNew > ProofOfWorkLimit {
      bnNew := ProofOfWorkLimit;
    }
  }

  // ----- the new target is valid -----

  /** CheckProofOfWork's range check. */
  predicate ValidTarget(bnTarget: int) {
    0 < bnTarget <= ProofOfWorkLimit
  }

  lemma {:induction false} MulMono(a: nat, b: nat, c: nat)
    requires b <= c
    ensures a * b <= a * c
  {
    assert a * (c - b) >= 0;
  }

  lemma {:induction false} MulCancel(T: nat, d: nat, q: nat)
    requires T > 0 && T * d <= T * q
    ensures d <= q
  {
    if d > q {
      MulMono(T, q + 1, d);
    }
  }

  lemma {:induction false} DivBounds(x: nat, T: nat, q: nat)
    requires 0 < T && x <= T * q
    ensures x / T <= q
    ensures x / T >= 1 <==> x >= T
  {
    MulCancel(T, x / T, q);
  }

  /** The exact quotient of the retarget. */
  lemma {:induction false} Quotient(a: int, t: nat, T: nat)
    requires 0 < t <= 4 * T
    ensures TruncDiv(a * t, T) >= 1 <==> a * t >= T
    ensures a > 0 ==> TruncDiv(a * t, T) <= 4 * a
    ensures a * t >= T ==> a > 0
  {
    if a > 0 {
      MulMono(a, t, 4 * T);
      MulAssoc(a, 4, T);
      MulPositive(a, t);
      DivBounds(a * t, T, 4 * a);
    } else {
      MulPositive(-a, t);
      NegateProduct(a, t);
    }
  }

  lemma {:induction false} NegateProduct(a: int, t: int)
    ensures (-a) * t == -(a * t)
  {
  }

  /** The old target, whatever it is, can be divided without becoming zero. */
  predicate Divides(nBits: uint32, revised: bool, actual: int) {
    SetCompact(nBits) * ClampTimespan(revised, actual) >= Timespan(revised)
  }

  lemma {:induction false} NewTargetInRange(nBits: uint32, revised: bool, actual: int)
    ensures var q := NewTarget(nBits, revised, actual);
            && (ValidTarget(q) <==> Divides(nBits, revised, actual))
            && (ValidTarget(q) ==> q <= 4 * SetCompact(nBits))
  {
    TimespanClamped(revised, actual);
    Quotient(SetCompact(nBits), ClampTimespan(revised, actual), Timespan(revised));
  }

  /** A retarget returns bits for a target that CheckProofOfWork finds in range exactly if
      the old target times the clamped timespan is at least the timespan aimed at.  The
      target is then at most 4 times the old one, and less than one part in 2^15 below the
      exact one. */
  lemma {:induction false} RetargetValid(nBits: uint32, revised: bool, actual: int)
    ensures var q := NewTarget(nBits, revised, actual);
            var r := SetCompact(GetCompact(q));
            && (ValidTarget(r) <==> Divides(nBits, revised, actual))
            && (ValidTarget(r) ==> r <= 4 * SetCompact(nBits) && r <= q && (q - r) * 0x8000 < q)
  {
    var q := NewTarget(nBits, revised, actual);
    NewTargetInRange(nBits, revised, actual);
    if Divides(nBits, revised, actual) {
      TargetFits(q);
      CompactPrecision(q);
    } else {
      CompactNotPositive(q);
    }
  }

  /** So a positive target of at least 4 always stays valid, as does every target when
      blocks took long enough. */
  lemma {:induction false} RetargetSafe(nBits: uint32, revised: bool, actual: int)
    requires SetCompact(nBits) >= 4 || (SetCompact(nBits) > 0 && actual >= Timespan(revised))
    ensures Divides(nBits, revised, actual)
  {
    TimespanClamped(revised, actual);
    if SetCompact(nBits) >= 4 {
      MulMono(ClampTimespan(revised, actual), 4, SetCompact(nBits));
    } else {
      MulMono(ClampTimespan(revised, actual), 1, SetCompact(nBits));
    }
  }

  /** A target of 1 does not survive a period that was too short. */
  lemma {:induction false} SmallTargetVanishes()
    ensures SetCompact(0x0101_0000) == 1 && ValidTarget(1)
    ensures !ValidTarget(SetCompact(GetCompact(NewTarget(0x0101_0000, false, 0))))
  {
    SetCompactReads(0x0101_0000, 1, 1, 0, 0);
    PositiveReads([1]);
    assert FromLE([1]) == 1 + 256 * FromLE([1][1..]);
    RetargetValid(0x0101_0000, false, 0);
  }

  /** The work required on top of a block is valid exactly if, at a retarget, its own target
      divides as above, and otherwise exactly if its own is valid. */
  lemma {:induction false} NextWorkValid(pindexLast: CBlockIndex)
    requires Linked(pindexLast)
    ensures var h := pindexLast.nHeight;
            ValidTarget(SetCompact(NextWork(pindexLast))) <==>
            if Retargets(h) then Divides(pindexLast.nBits, Revised(h), ActualTimespan(pindexLast))
            else ValidTarget(SetCompact(pindexLast.nBits))
    ensures ValidTarget(SetCompact(NextWork(pindexLast))) ==>
              SetCompact(NextWork(pindexLast)) <= 4 * SetCompact(pindexLast.nBits)
  {
    var h := pindexLast.nHeight;
    if Retargets(h) {
      RetargetValid(pindexLast.nBits, Revised(h), ActualTimespan(pindexLast));
    }
  }
}
