/** Integers of the widths the source uses, bytes, and the little-endian byte
    order in which every fixed-width field is laid out. */
module Basics {

  datatype Option<+T> = None | Some(value: T)

  type byte = x: int | 0 <= x < 0x100
  type uint32 = x: int | 0 <= x < 0x1_0000_0000
  type int32 = x: int | -0x8000_0000 <= x < 0x8000_0000
  type uint64 = x: int | 0 <= x < 0x1_0000_0000_0000_0000
  type int64 = x: int | -0x8000_0000_0000_0000 <= x < 0x8000_0000_0000_0000
  type uint256 = x: int | 0 <= x < 0x1_00000000_00000000_00000000_00000000_00000000_00000000_00000000_00000000

  const UINT_MAX: uint32 := 0xffff_ffff

  function Pow(b: nat, e: nat): (r: nat)
    ensures b > 0 ==> r > 0
  {
    if e == 0 then 1 else MulPositive(b, Pow(b, e - 1)); b * Pow(b, e - 1)
  }

  lemma {:induction false} MulPositive(a: nat, b: nat)
    ensures a > 0 && b > 0 ==> a * b > 0
    ensures a * b >= 0
  {
  }

  lemma {:induction false} MulAssoc(a: int, b: int, c: int)
    ensures a * (b * c) == (a * b) * c
  {
  }

  lemma {:induction false} AtLeastOnce(m: nat, d: int)
    ensures d >= 1 ==> m * d >= m
    ensures d <= -1 ==> m * d + m <= 0
  {
    if d >= 1 {
      assert m * (d - 1) >= 0;
    } else if d <= -1 {
      assert m * (d + 1) <= 0;
    }
  }

  lemma {:induction false} Distribute(m: int, a: int, b: int)
    ensures m * (a + b) == m * a + m * b && m * (a - b) == m * a - m * b
  {
  }

  lemma {:induction false} ModIs(x: nat, m: nat, q: nat, r: nat)
    requires r < m && x == r + m * q
    ensures x % m == r && x / m == q
  {
    Distribute(m, x / m, q);
    AtLeastOnce(m, x / m - q);
  }

  lemma {:induction false} ModAdd(x: int, m: nat, t: int)
    requires m > 0
    ensures (x + m * t) % m == x % m
  {
    var q, r := x / m, x % m;
    assert x + m * t == m * (q + t) + r by { Distribute(m, q, t); }
    ModUnique(x + m * t, m, q + t, r);
  }

  lemma {:induction false} ModUnique(x: int, m: nat, q: int, r: int)
    requires 0 <= r < m && x == m * q + r
    ensures x % m == r
  {
    var d := x / m - q;
    assert m * d == r - x % m by { Distribute(m, x / m, q); }
    AtLeastOnce(m, d);
  }

  /** Reducing modulo a multiple of m first changes nothing. */
  lemma {:induction false} ModOfMod(x: int, m: nat, k: nat)
    requires m > 0 && k > 0
    ensures m * k > 0 && x % (m * k) % m == x % m
  {
    MulPositive(m, k);
    var q := x / (m * k);
    assert x == m * (k * q) + x % (m * k) by { MulAssoc(m, k, q); }
    ModAdd(x % (m * k), m, k * q);
  }

  lemma {:induction false} SameModulo(x: int, y: int, m: nat)
    requires m > 0
    ensures x % m == y % m <==> (x - y) % m == 0
  {
    var d := x / m - y / m;
    assert x - y == m * d + (x % m - y % m) by { Distribute(m, x / m, y / m); }
    if x % m == y % m {
      ModAdd(0, m, d);
    }
    if (x - y) % m == 0 {
      var e := (x - y) / m;
      assert x == y + m * e;
      ModAdd(y, m, e);
    }
  }

  lemma {:induction false} PowAdd(b: nat, e: nat, f: nat)
    ensures Pow(b, e + f) == Pow(b, e) * Pow(b, f)
  {
    if e > 0 {
      PowAdd(b, e - 1, f);
      MulAssoc(b, Pow(b, e - 1), Pow(b, f));
    }
  }

  lemma {:induction false} PowMono(b: nat, e: nat, f: nat)
    requires b > 0 && e <= f
    ensures Pow(b, e) <= Pow(b, f)
  {
    PowAdd(b, e, f - e);
    var x, y := Pow(b, e), Pow(b, f - e);
    assert x * 1 <= x * y by { assert x * (y - 1) >= 0; }
  }

  lemma {:induction false} Pow256Values()
    ensures Pow(256, 0) == 1
    ensures Pow(256, 1) == 0x100
    ensures Pow(256, 2) == 0x1_0000
    ensures Pow(256, 3) == 0x100_0000
    ensures Pow(256, 4) == 0x1_0000_0000
    ensures Pow(256, 8) == 0x1_0000_0000_0000_0000
    ensures Pow(256, 32) == 0x1_00000000_00000000_00000000_00000000_00000000_00000000_00000000_00000000
  {
    assert Pow(256, 1) == 256 * Pow(256, 0);
    assert Pow(256, 2) == 256 * Pow(256, 1);
    assert Pow(256, 3) == 256 * Pow(256, 2);
    assert Pow(256, 4) == 256 * Pow(256, 3);
    PowAdd(256, 4, 4);
    PowAdd(256, 8, 8);
    PowAdd(256, 16, 16);
  }

  lemma {:induction false} Regroup<T>(a: seq<T>, b: seq<T>, c: seq<T>)
    ensures (a + b) + c == a + (b + c)
  {
  }

  lemma {:induction false} DropAppend<T>(a: seq<T>, b: seq<T>, k: nat)
    requires k <= |a|
    ensures (a + b)[k..] == a[k..] + b
  {
  }

  lemma {:induction false} DropDrop<T>(s: seq<T>, i: nat, j: nat)
    requires i + j <= |s|
    ensures s[i..][j..] == s[i + j..]
  {
  }

  lemma {:induction false} SplitFront<T>(a: seq<T>, b: seq<T>)
    ensures (a + b)[..|a|] == a && (a + b)[|a|..] == b
  {
  }

  function Reverse<T>(s: seq<T>): (r: seq<T>)
    ensures |r| == |s| && forall k :: 0 <= k < |s| ==> r[k] == s[|s| - 1 - k]
  {
    if s == [] then [] else Reverse(s[1..]) + [s[0]]
  }

  lemma {:induction false} ReverseTwice<T>(s: seq<T>)
    ensures Reverse(Reverse(s)) == s
  {
  }

  lemma {:induction false} ReverseAppend<T>(a: seq<T>, b: seq<T>)
    ensures Reverse(a + b) == Reverse(b) + Reverse(a)
  {
  }

  /** The low k bytes of n, least significant first. */
  function LE(n: nat, k: nat): (s: seq<byte>)
    ensures |s| == k
  {
    if k == 0 then [] else [n % 256] + LE(n / 256, k - 1)
  }

  function FromLE(s: seq<byte>): (n: nat)
  {
    if s == [] then 0 else s[0] + 256 * FromLE(s[1..])
  }

  lemma {:induction false} FromLEBound(s: seq<byte>)
    ensures FromLE(s) < Pow(256, |s|)
  {
    if s != [] {
      FromLEBound(s[1..]);
    }
  }

  lemma {:induction false} FromLEOfLE(n: nat, k: nat)
    requires n < Pow(256, k)
    ensures FromLE(LE(n, k)) == n
  {
    if k > 0 {
      assert n / 256 < Pow(256, k - 1);
      FromLEOfLE(n / 256, k - 1);
      assert LE(n, k)[1..] == LE(n / 256, k - 1);
    }
  }

  /** Byte i of the little-endian form. */
  lemma {:induction false} LEAt(n: nat, k: nat, i: nat)
    requires i < k
    ensures LE(n, k)[i] == n / Pow(256, i) % 256
  {
    if i > 0 {
      LEAt(n / 256, k - 1, i - 1);
      DivDiv(n, 256, Pow(256, i - 1));
    }
  }

  lemma {:induction false} DivDiv(n: nat, a: nat, b: nat)
    requires a > 0 && b > 0
    ensures a * b > 0 && n / a / b == n / (a * b)
  {
    MulPositive(a, b);
    var q := n / a / b;
    var r := n / a % b;
    assert n == a * (b * q + r) + n % a;
    Distribute(a, b * q, r);
    MulAssoc(a, b, q);
    SmallRest(a, b, r, n % a);
    ModIs(n, a * b, q, a * r + n % a);
  }

  lemma {:induction false} SmallRest(a: nat, b: nat, r: nat, s: nat)
    requires r < b && s < a
    ensures a * r + s < a * b
  {
    Distribute(a, b, r);
    AtLeastOnce(a, b - r);
  }

  lemma {:induction false} LEOfFromLE(s: seq<byte>)
    ensures LE(FromLE(s), |s|) == s
  {
    if s != [] {
      LEOfFromLE(s[1..]);
      var m := FromLE(s[1..]);
      assert (s[0] + 256 * m) % 256 == s[0];
      assert (s[0] + 256 * m) / 256 == m;
    }
  }

  lemma {:induction false} FromLEAppend(s: seq<byte>, t: seq<byte>)
    ensures FromLE(s + t) == FromLE(s) + Pow(256, |s|) * FromLE(t)
  {
    if s == [] {
      assert s + t == t;
    } else {
      FromLEAppend(s[1..], t);
      assert (s + t)[1..] == s[1..] + t;
      MulAssoc(256, Pow(256, |s| - 1), FromLE(t));
    }
  }

  /** Two's complement reading of a 32-bit word. */
  function ToInt32(n: uint32): int32 {
    if n < 0x8000_0000 then n else n - 0x1_0000_0000
  }

  function OfInt32(x: int32): uint32 {
    if x >= 0 then x else x + 0x1_0000_0000
  }

  function ToInt64(n: uint64): int64 {
    if n < 0x8000_0000_0000_0000 then n else n - 0x1_0000_0000_0000_0000
  }

  function OfInt64(x: int64): uint64 {
    if x >= 0 then x else x + 0x1_0000_0000_0000_0000
  }

  /** Division that truncates toward zero. */
  function TruncDiv(a: int, b: int): int
    requires b > 0
  {
    if a >= 0 then a / b else -((-a) / b)
  }

  function Min(a: int, b: int): int {
    if a < b then a else b
  }

  function Max(a: int, b: int): int {
    if a > b then a else b
  }
}
