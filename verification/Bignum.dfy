/** CBigNum as a mathematical integer with OpenSSL's MPI byte format: magnitude
    bytes, most significant first, the sign in the top bit of the first byte,
    and an extra byte when the magnitude itself uses that bit.  Byte vectors here
    are in the reversed order that getvch and setvch use. */
module Bignum {
  import opened Basics

  function Abs(n: int): nat {
    if n < 0 then -n else n
  }

  /** Magnitude bytes, least significant first, no trailing zero byte. */
  function Magnitude(n: nat): (s: seq<byte>)
    ensures s != [] ==> s[|s| - 1] != 0
    ensures s == [] <==> n == 0
    ensures FromLE(s) == n
  {
    if n == 0 then [] else
    var tail := Magnitude(n / 256);
    assert ([n % 256] + tail)[1..] == tail;
    [n % 256] + tail
  }

  lemma {:induction false} MagnitudeFits(n: nat, k: nat)
    requires n < Pow(256, k)
    ensures |Magnitude(n)| <= k
  {
    if n > 0 {
      assert n / 256 < Pow(256, k - 1);
      MagnitudeFits(n / 256, k - 1);
    }
  }

  function SignBit(negative: bool): byte {
    if negative then 0x80 else 0
  }

  /** CBigNum::getvch */
  function GetVch(n: int): seq<byte> {
    var m := Magnitude(Abs(n));
    if m == [] then []
    else if m[|m| - 1] >= 0x80 then m + [SignBit(n < 0)]
    else m[..|m| - 1] + [m[|m| - 1] + SignBit(n < 0)]
  }

  /** CBigNum::setvch */
  function SetVch(v: seq<byte>): int {
    if v == [] then 0 else
    var top := v[|v| - 1];
    var m: int := FromLE(v[..|v| - 1] + [top % 0x80]);
    if top >= 0x80 then -m else m
  }

  lemma {:induction false} FromLEPadZero(s: seq<byte>)
    ensures FromLE(s + [0]) == FromLE(s)
  {
    FromLEAppend(s, [0]);
    assert FromLE([0]) == 0 + 256 * FromLE([0][1..]);
    var p := Pow(256, |s|);
    assert p * 0 == 0;
  }

  lemma {:induction false} VchRoundTrip(n: int)
    ensures SetVch(GetVch(n)) == n
  {
    var m, v := Magnitude(Abs(n)), GetVch(n);
    if m != [] {
      var top := v[|v| - 1];
      if m[|m| - 1] >= 0x80 {
        assert v[..|v| - 1] == m && top % 0x80 == 0;
        FromLEPadZero(m);
      } else {
        assert v[..|v| - 1] + [top % 0x80] == m;
      }
    }
  }

  /** No byte could be dropped without losing the value or its sign. */
  predicate Minimal(v: seq<byte>) {
    v != [] ==> v[|v| - 1] % 0x80 != 0 || (|v| >= 2 && v[|v| - 2] >= 0x80)
  }

  lemma {:induction false} MagnitudeCons(b: byte, m: nat)
    requires b + 256 * m > 0
    ensures Magnitude(b + 256 * m) == [b] + Magnitude(m)
  {
    assert (b + 256 * m) % 256 == b && (b + 256 * m) / 256 == m;
  }

  lemma {:induction false} MagnitudeUnique(s: seq<byte>)
    requires s != [] ==> s[|s| - 1] != 0
    ensures Magnitude(FromLE(s)) == s
    ensures s != [] ==> FromLE(s) > 0
  {
    if s != [] {
      MagnitudeUnique(s[1..]);
      if |s| == 1 {
        assert FromLE(s[1..]) == 0;
      }
      MagnitudeCons(s[0], FromLE(s[1..]));
    }
  }

  lemma {:induction false} GetVchMinimal(n: int)
    ensures Minimal(GetVch(n))
  {
  }

  /** setvch followed by getvch gives the bytes back exactly when the encoding
      was minimal. */
  lemma {:induction false} VchCanonical(v: seq<byte>)
    ensures GetVch(SetVch(v)) == v <==> Minimal(v)
  {
    if GetVch(SetVch(v)) == v {
      GetVchMinimal(SetVch(v));
    }
    if Minimal(v) && v != [] {
      if v[|v| - 1] % 0x80 != 0 {
        CanonicalShort(v);
      } else {
        CanonicalPadded(v);
      }
    }
  }

  lemma {:induction false} CanonicalShort(v: seq<byte>)
    requires v != [] && v[|v| - 1] % 0x80 != 0
    ensures GetVch(SetVch(v)) == v
  {
    var top, front := v[|v| - 1], v[..|v| - 1];
    SplitFront(front, [top % 0x80]);
    MagnitudeUnique(front + [top % 0x80]);
    GetVchOf(SetVch(v), front, top % 0x80);
    assert front + [top] == v;
  }

  lemma {:induction false} GetVchOf(n: int, front: seq<byte>, top: byte)
    requires Magnitude(Abs(n)) == front + [top] && top < 0x80
    ensures GetVch(n) == front + [top + SignBit(n < 0)]
  {
    SplitFront(front, [top]);
  }

  lemma {:induction false} GetVchPadded(n: int, m: seq<byte>)
    requires Magnitude(Abs(n)) == m && m != [] && m[|m| - 1] >= 0x80
    ensures GetVch(n) == m + [SignBit(n < 0)]
  {
  }

  lemma {:induction false} CanonicalPadded(v: seq<byte>)
    requires |v| >= 2 && v[|v| - 1] % 0x80 == 0 && v[|v| - 2] >= 0x80
    ensures GetVch(SetVch(v)) == v
  {
    var top, front := v[|v| - 1], v[..|v| - 1];
    assert front[|front| - 1] == v[|v| - 2];
    FromLEPadZero(front);
    MagnitudeUnique(front);
    assert front + [top] == v;
    assert Abs(SetVch(v)) == FromLE(front);
  }

  lemma {:induction false} FromLEZeros(k: nat, s: seq<byte>)
    ensures FromLE(seq(k, _ => 0) + s) == Pow(256, k) * FromLE(s)
  {
    if k == 0 {
      assert seq(k, _ => 0) + s == s;
    } else {
      FromLEZeros(k - 1, s);
      assert (seq(k, _ => 0) + s)[1..] == seq(k - 1, _ => 0) + s;
      MulAssoc(256, Pow(256, k - 1), FromLE(s));
    }
  }

  // ----- compact form -----

  /** CBigNum::SetCompact */
  function SetCompact(nCompact: uint32): int {
    var nSize := nCompact / 0x100_0000;
    var b0, b1, b2 := nCompact / 0x1_0000 % 0x100, nCompact / 0x100 % 0x100, nCompact % 0x100;
    SetVch(if nSize == 0 then [] else if nSize == 1 then [b0] else if nSize == 2 then [b1, b0]
           else seq(nSize - 3, _ => 0) + [b2, b1, b0])
  }

  /** CBigNum::GetCompact.  The size field is shifted within 32 bits. */
  function GetCompact(n: int): uint32 {
    var v := GetVch(n);
    var nSize: int := |v|;
    var b0: int := if nSize >= 1 then v[nSize - 1] else 0;
    var b1: int := if nSize >= 2 then v[nSize - 2] else 0;
    var b2: int := if nSize >= 3 then v[nSize - 3] else 0;
    nSize % 0x100 * 0x100_0000 + b0 * 0x1_0000 + b1 * 0x100 + b2
  }
}
