/** base_uint: numbers of a fixed width as 32-bit limbs, least significant first.
    The limb loops refine arithmetic modulo 2^BITS for every width. */
module UInt {
  import opened Basics

  const B: nat := 0x1_0000_0000

  type Limbs = seq<uint32>

  function Val(s: Limbs): nat {
    if s == [] then 0 else s[0] + B * Val(s[1..])
  }

  // ----- values of limb sequences -----

  lemma {:induction false} ValBound(s: Limbs)
    ensures Val(s) < Pow(B, |s|)
  {
    if s != [] {
      ValBound(s[1..]);
    }
  }

  lemma {:induction false} ValAppend(s: Limbs, t: Limbs)
    ensures Val(s + t) == Val(s) + Pow(B, |s|) * Val(t)
  {
    if s == [] {
      assert s + t == t;
    } else {
      ValAppend(s[1..], t);
      assert (s + t)[1..] == s[1..] + t;
      MulAssoc(B, Pow(B, |s| - 1), Val(t));
    }
  }

  lemma {:induction false} ValOne(x: uint32)
    ensures Val([x]) == x
  {
    assert [x][1..] == [];
  }

  lemma {:induction false} ValSnoc(s: Limbs, i: nat)
    requires i < |s|
    ensures Val(s[..i + 1]) == Val(s[..i]) + Pow(B, i) * s[i]
  {
    assert s[..i + 1] == s[..i] + [s[i]];
    ValAppend(s[..i], [s[i]]);
    ValOne(s[i]);
  }

  function Zeros(k: nat): (s: Limbs)
    ensures |s| == k
  {
    seq(k, _ => 0)
  }

  lemma {:induction false} ValZeros(k: nat)
    ensures Val(Zeros(k)) == 0
  {
    if k > 0 {
      ValZeros(k - 1);
      assert Zeros(k)[1..] == Zeros(k - 1);
    }
  }

  // ----- incrementing and decrementing -----

  function Inc(s: Limbs): (r: Limbs)
    ensures |r| == |s|
  {
    if s == [] then [] else if s[0] == B - 1 then [0] + Inc(s[1..]) else [s[0] + 1] + s[1..]
  }

  function Dec(s: Limbs): (r: Limbs)
    ensures |r| == |s|
  {
    if s == [] then [] else if s[0] == 0 then [B - 1] + Dec(s[1..]) else [s[0] - 1] + s[1..]
  }

  /** All limbs full: the only case in which an increment wraps. */
  lemma {:induction false} IncValue(s: Limbs)
    ensures Val(Inc(s)) == if Val(s) + 1 == Pow(B, |s|) then 0 else Val(s) + 1
    decreases |s|
  {
    ValBound(s);
    if s != [] {
      var t := s[1..];
      ValBound(t);
      IncValue(t);
      if s[0] == B - 1 {
        assert Inc(s)[1..] == Inc(t);
      } else {
        assert Inc(s)[1..] == t;
        NotFull(s[0], Val(t), Pow(B, |t|));
      }
    }
  }

  lemma {:induction false} NotFull(x: int, v: nat, p: nat)
    requires 0 <= x < B - 1 && v < p
    ensures x + B * v + 1 != B * p
  {
  }

  lemma {:induction false} DecValue(s: Limbs)
    ensures Val(Dec(s)) == if Val(s) == 0 then Pow(B, |s|) - 1 else Val(s) - 1
    decreases |s|
  {
    if s != [] {
      var t := s[1..];
      DecValue(t);
      if s[0] == 0 {
        assert Dec(s)[1..] == Dec(t);
      } else {
        assert Dec(s)[1..] == t;
      }
    }
  }

  lemma {:induction false} IncAt(s: Limbs, i: nat)
    requires i < |s| && (forall j :: 0 <= j < i ==> s[j] == B - 1) && (s[i] != B - 1 || i == |s| - 1)
    ensures Inc(s) == Zeros(i) + [if s[i] == B - 1 then 0 else s[i] + 1] + s[i + 1..]
  {
    if i > 0 {
      IncAt(s[1..], i - 1);
      DropDrop(s, 1, i);
      assert Zeros(i) == [0] + Zeros(i - 1);
    }
  }

  lemma {:induction false} DecAt(s: Limbs, i: nat)
    requires i < |s| && (forall j :: 0 <= j < i ==> s[j] == 0) && (s[i] != 0 || i == |s| - 1)
    ensures Dec(s) == seq(i, _ => B - 1) + [if s[i] == 0 then B - 1 else s[i] - 1] + s[i + 1..]
  {
    if i > 0 {
      DecAt(s[1..], i - 1);
      DropDrop(s, 1, i);
      assert seq(i, _ => B - 1) == [B - 1] + seq(i - 1, _ => B - 1);
    }
  }

  // ----- complement -----

  function Not(s: Limbs): (r: Limbs)
    ensures |r| == |s| && forall j :: 0 <= j < |s| ==> r[j] == B - 1 - s[j]
  {
    seq(|s|, j requires 0 <= j < |s| => B - 1 - s[j])
  }

  lemma {:induction false} NotValue(s: Limbs)
    ensures Val(Not(s)) == Pow(B, |s|) - 1 - Val(s)
  {
    if s != [] {
      NotValue(s[1..]);
      assert Not(s)[1..] == Not(s[1..]);
    }
  }

  // ----- adding -----

  lemma {:induction false} CarryOut(p: nat, n: nat)
    ensures p * (n % B) + (B * p) * (n / B) == p * n
  {
    Distribute(p, n % B, B * (n / B));
    MulAssoc(p, B, n / B);
  }

  lemma {:induction false} AddArith(p: nat, c: nat, x: nat, y: nat, n: nat, r: nat, a: nat, b: nat)
    requires n == c + x + y && r + p * c == a + b
    ensures r + p * (n % B) + (B * p) * (n / B) == (a + p * x) + (b + p * y)
  {
    CarryOut(p, n);
    Distribute(p, c + x, y);
    Distribute(p, c, x);
  }

  lemma {:induction false} AddStep(r: Limbs, a: Limbs, b: Limbs, i: nat, carry: nat, n: nat)
    requires i < |a| == |b| && |r| == i && n == carry + a[i] + b[i]
    requires Val(r) + Pow(B, i) * carry == Val(a[..i]) + Val(b[..i])
    ensures Val(r + [n % B]) + Pow(B, i + 1) * (n / B) == Val(a[..i + 1]) + Val(b[..i + 1])
  {
    ValSnoc(a, i);
    ValSnoc(b, i);
    ValAppend(r, [n % B]);
    ValOne(n % B);
    AddArith(Pow(B, i), carry, a[i], b[i], n, Val(r), Val(a[..i]), Val(b[..i]));
  }

  // ----- comparing -----

  lemma {:induction false} TopArith(p: nat, x: nat, y: nat, a: nat, b: nat)
    requires a < p && x < y
    ensures a + p * x < b + p * y
  {
    Distribute(p, y, x);
    AtLeastOnce(p, y - x);
  }

  lemma {:induction false} TopDecides(s: Limbs, t: Limbs, i: nat)
    requires i < |s| == |t| && s[i + 1..] == t[i + 1..] && s[i] < t[i]
    ensures Val(s) < Val(t)
  {
    assert s == s[..i + 1] + s[i + 1..] && t == t[..i + 1] + t[i + 1..];
    ValAppend(s[..i + 1], s[i + 1..]);
    ValAppend(t[..i + 1], t[i + 1..]);
    ValSnoc(s, i);
    ValSnoc(t, i);
    ValBound(s[..i]);
    TopArith(Pow(B, i), s[i], t[i], Val(s[..i]), Val(t[..i]));
  }

  // ----- shifting -----

  /** Bitwise or. */
  function Or(x: nat, y: nat): nat {
    if x == 0 && y == 0 then 0 else (if x % 2 == 1 || y % 2 == 1 then 1 else 0) + 2 * Or(x / 2, y / 2)
  }

  /** Numbers without a common bit are added. */
  lemma {:induction false} OrDisjoint(x: nat, y: nat, s: nat)
    requires x < Pow(2, s)
    ensures Or(x, Pow(2, s) * y) == x + Pow(2, s) * y
    decreases s
  {
    var p := Pow(2, s) * y;
    if s == 0 {
      OrZero(y);
    } else {
      MulAssoc(2, Pow(2, s - 1), y);
      OrDisjoint(x / 2, y, s - 1);
      assert p / 2 == Pow(2, s - 1) * y && p % 2 == 0;
    }
  }

  lemma {:induction false} OrZero(y: nat)
    ensures Or(0, y) == y
  {
    if y > 0 {
      OrZero(y / 2);
    }
  }

  lemma {:induction false} PowSplit(s: nat)
    requires s <= 32
    ensures Pow(2, s) * Pow(2, 32 - s) == B
  {
    PowAdd(2, s, 32 - s);
    TwoToThe32();
  }

  lemma {:induction false} TwoToThe32()
    ensures Pow(2, 32) == B
  {
    assert Pow(2, 1) == 2 * Pow(2, 0);
    assert Pow(2, 2) == 2 * Pow(2, 1);
    PowAdd(2, 2, 2);
    PowAdd(2, 4, 4);
    PowAdd(2, 8, 8);
    PowAdd(2, 16, 16);
  }

  lemma {:induction false} SplitArith(p: nat, q: nat, m: nat, x: nat)
    requires p > 0 && q > 0 && m == p * q
    ensures m > 0 && (p * x) % m == p * (x % q) && (p * x) / m == x / q
  {
    MulPositive(p, q);
    Distribute(p, q * (x / q), x % q);
    MulAssoc(p, q, x / q);
    MulLess(p, x % q, q);
    ModIs(p * x, m, x / q, p * (x % q));
  }

  /** x shifted left by s splits at the limb boundary. */
  lemma {:induction false} LeftSplit(x: nat, s: nat)
    requires s <= 32
    ensures Pow(2, s) * x == (Pow(2, s) * x) % B + B * (x / Pow(2, 32 - s))
    ensures (Pow(2, s) * x) % B == Pow(2, s) * (x % Pow(2, 32 - s))
  {
    PowSplit(s);
    SplitArith(Pow(2, s), Pow(2, 32 - s), B, x);
  }

  lemma {:induction false} MulLess(p: nat, x: nat, q: nat)
    requires p > 0 && x < q
    ensures p * x < p * q
  {
    Distribute(p, q, x);
    AtLeastOnce(p, q - x);
  }

  lemma {:induction false} DivLess(x: nat, p: nat, q: nat)
    requires q > 0 && x < p * q
    ensures x / q < p
  {
    Distribute(q, x / q, p);
    AtLeastOnce(q, x / q - p);
  }

  /** The bits of limb j that stay in it on a left shift. */
  function Low(a: Limbs, j: int, s: nat): nat
    requires s < 32
  {
    if 0 <= j < |a| then (Pow(2, s) * a[j]) % B else 0
  }

  /** The bits of limb j that go to the next one. */
  function High(a: Limbs, j: int, s: nat): nat
    requires s < 32
  {
    if 0 <= j < |a| then a[j] / Pow(2, 32 - s) else 0
  }

  /** x is limb j of a shifted left by k limbs and s bits. */
  predicate ShlLimb(a: Limbs, x: nat, k: nat, s: nat, j: nat)
    requires s < 32
  {
    x == Low(a, j - k, s) + High(a, j - k - 1, s)
  }

  ghost predicate ShlLimbs(a: Limbs, r: Limbs, k: nat, s: nat)
    requires s < 32
  {
    |r| == |a| && forall j {:trigger ShlLimb(a, r[j], k, s, j)} :: 0 <= j < |r| ==> ShlLimb(a, r[j], k, s, j)
  }

  lemma {:induction false} ShlArith(p: nat, q: nat, low: nat, high: nat, x: nat, carry: nat, r: nat, v: nat)
    requires p * x == low + B * high && r + q * carry == p * v
    ensures (r + q * (low + carry)) + (B * q) * high == p * (v + q * x)
  {
    Distribute(q, low, carry);
    Distribute(p, v, q * x);
    MulAssoc(p, q, x);
    MulAssoc(q, p, x);
    Distribute(q, low, B * high);
    MulAssoc(q, B, high);
  }

  /** The first i limbs shifted, with what they carry out, are their number times 2^s. */
  lemma {:induction false} ShlPrefix(a: Limbs, r: Limbs, k: nat, s: nat, i: nat)
    requires s < 32 && ShlLimbs(a, r, k, s) && k + i <= |a|
    ensures Val(r[k..k + i]) + Pow(B, i) * High(a, i - 1, s) == Pow(2, s) * Val(a[..i])
  {
    if i == 0 {
      assert r[k..k] == [] && a[..0] == [];
    } else {
      ShlPrefix(a, r, k, s, i - 1);
      assert ShlLimb(a, r[k + i - 1], k, s, k + i - 1);
      ValSlice(r, k, i);
      ValSnoc(a, i - 1);
      LeftSplit(a[i - 1], s);
      ShlArith(Pow(2, s), Pow(B, i - 1), Low(a, i - 1, s), High(a, i - 1, s), a[i - 1], High(a, i - 2, s),
               Val(r[k..k + i - 1]), Val(a[..i - 1]));
    }
  }

  lemma {:induction false} ValSlice(r: Limbs, k: nat, i: nat)
    requires i > 0 && k + i <= |r|
    ensures Val(r[k..k + i]) == Val(r[k..k + i - 1]) + Pow(B, i - 1) * r[k + i - 1]
  {
    var t := r[k..k + i];
    assert t[..i - 1] == r[k..k + i - 1] && t[..i] == t;
    ValSnoc(t, i - 1);
  }

  /** Shifting left drops the top k limbs and puts zeros below. */
  lemma {:induction false} ShlBelow(a: Limbs, r: Limbs, k: nat, s: nat)
    requires s < 32 && ShlLimbs(a, r, k, s) && k <= |a|
    ensures r[..k] == Zeros(k)
  {
    forall j | 0 <= j < k
      ensures r[j] == 0
    {
      assert ShlLimb(a, r[j], k, s, j);
    }
  }

  /** Limb by limb, a left shift is multiplication by a power of two. */
  lemma {:induction false} ShlValue(a: Limbs, r: Limbs, k: nat, s: nat)
    requires s < 32 && ShlLimbs(a, r, k, s) && k <= |a|
    ensures Val(r) == (Val(a) * Pow(2, 32 * k + s)) % Pow(B, |a|)
  {
    var n := |a|;
    ShlPrefix(a, r, k, s, n - k);
    ShlBelow(a, r, k, s);
    assert r[k..k + (n - k)] == r[k..] && r == Zeros(k) + r[k..] && a == a[..n - k] + a[n - k..];
    PowSplit(s);
    ShlParts(a[..n - k], a[n - k..], r[k..], k, s, High(a, n - k - 1, s));
  }

  lemma {:induction false} ShlParts(low: Limbs, high: Limbs, t: Limbs, k: nat, s: nat, out: nat)
    requires |t| == |low| && |high| == k && Val(t) + Pow(B, |t|) * out == Pow(2, s) * Val(low)
    ensures Val(Zeros(k) + t) == (Val(low + high) * Pow(2, 32 * k + s)) % Pow(B, |low| + k)
  {
    ValAppend(low, high);
    ValAppend(Zeros(k), t);
    ValZeros(k);
    PowAdd(B, k, |t|);
    ShiftPow(k, s);
    ValBound(Zeros(k) + t);
    ShiftMod(Pow(B, k), Pow(B, |t|), Pow(B, |t| + k), Pow(2, s), Val(low), Val(high), Val(t), out);
  }

  lemma {:induction false} ShiftMod(bk: nat, bm: nat, bn: nat, p: nat, low: nat, high: nat, r: nat, out: nat)
    requires bn == bk * bm && r + bm * out == p * low && bk * r < bn
    ensures ((low + bm * high) * (bk * p)) % bn == bk * r
  {
    ShiftArith(bk, bm, bn, p, low, high, r, out);
    MulPositive(p, high);
    MulPositive(bk, r);
    ModIs((low + bm * high) * (bk * p), bn, p * high + out, bk * r);
  }

  lemma {:induction false} ShiftArith(bk: nat, bm: nat, bn: nat, p: nat, low: nat, high: nat, r: nat, out: int)
    requires bn == bk * bm && r + bm * out == p * low
    ensures (low + bm * high) * (bk * p) == bk * r + bn * (p * high + out)
  {
    assert (low + bm * high) * (bk * p) == bk * (p * low) + bk * (bm * (p * high)) by {
      Distribute(bk * p, low, bm * high);
      MulAssoc(bk, p, low);
      MulAssoc(bk, bm, p * high);
      MulAssoc(bk * p, bm, high);
      MulAssoc(bk * bm, p, high);
      Swap(bk, p, bm);
    }
    Distribute(bk, r, bm * out);
    MulAssoc(bk, bm, out);
    MulAssoc(bk, bm, p * high);
    Distribute(bn, p * high, out);
  }

  lemma {:induction false} Swap(a: int, b: int, c: int)
    ensures a * b * c == a * c * b
  {
    MulAssoc(a, b, c);
    MulAssoc(a, c, b);
  }

  lemma {:induction false} ShiftPow(k: nat, s: nat)
    ensures Pow(2, 32 * k + s) == Pow(B, k) * Pow(2, s)
  {
    if k > 0 {
      ShiftPow(k - 1, s);
      PowAdd(2, 32, 32 * (k - 1) + s);
      PowSplit(32);
      MulAssoc(B, Pow(B, k - 1), Pow(2, s));
    }
  }

  // ----- shifting right -----

  function Limb(a: Limbs, j: int): uint32 {
    if 0 <= j < |a| then a[j] else 0
  }

  /** x is limb j of a shifted right by k limbs and s bits. */
  predicate ShrLimb(a: Limbs, x: nat, k: nat, s: nat, j: nat)
    requires s < 32
  {
    x == Limb(a, j + k) / Pow(2, s) + Pow(2, 32 - s) * (Limb(a, j + k + 1) % Pow(2, s))
  }

  ghost predicate ShrLimbs(a: Limbs, r: Limbs, k: nat, s: nat)
    requires s < 32
  {
    |r| == |a| && forall j {:trigger ShrLimb(a, r[j], k, s, j)} :: 0 <= j < |r| ==> ShrLimb(a, r[j], k, s, j)
  }

  lemma {:induction false} LowArith(p: nat, q: nat, x: nat, v: nat)
    requires p > 0 && p * q == B
    ensures (x + B * v) % p == x % p
  {
    MulAssoc(p, q, v);
    Distribute(p, x / p, q * v);
    ModIs(x + B * v, p, x / p + q * v, x % p);
  }

  lemma {:induction false} ShrArith(p: nat, q: nat, x: nat, v: nat, low: nat)
    requires p > 0 && p * q == B && low == v % p
    ensures x / p + q * low + B * (v / p) == (x + B * v) / p
  {
    Distribute(q, p * (v / p), low);
    MulAssoc(q, p, v / p);
    Distribute(p, x / p, q * v);
    MulAssoc(p, q, v);
    ModIs(x + B * v, p, x / p + q * v, x % p);
  }

  /** The low bits of a number are those of its first limb. */
  lemma {:induction false} LowBits(a: Limbs, i: nat, s: nat)
    requires s < 32 && i <= |a|
    ensures Limb(a, i) % Pow(2, s) == Val(a[i..]) % Pow(2, s)
  {
    if i < |a| {
      PowSplit(s);
      LowArith(Pow(2, s), Pow(2, 32 - s), a[i], Val(a[i..][1..]));
    }
  }

  lemma {:induction false} ValCons(a: Limbs, i: nat)
    requires i < |a|
    ensures Val(a[i..]) == a[i] + B * Val(a[i + 1..])
  {
    assert a[i..][1..] == a[i + 1..];
  }

  /** The limbs from i up shifted are their number over 2^s. */
  lemma {:induction false} ShrSuffix(a: Limbs, r: Limbs, k: nat, s: nat, i: nat)
    requires s < 32 && ShrLimbs(a, r, k, s) && k + i <= |a|
    ensures Val(r[i..|a| - k]) == Val(a[k + i..]) / Pow(2, s)
    decreases |a| - i
  {
    if k + i == |a| {
      assert r[i..i] == [] && a[k + i..] == [];
    } else {
      ShrSuffix(a, r, k, s, i + 1);
      assert ShrLimb(a, r[i], k, s, i);
      var t := r[..|a| - k];
      assert t[i..] == r[i..|a| - k] && t[i + 1..] == r[i + 1..|a| - k];
      ValCons(t, i);
      ValCons(a, k + i);
      LowBits(a, k + i + 1, s);
      PowSplit(s);
      ShrArith(Pow(2, s), Pow(2, 32 - s), a[k + i], Val(a[k + i + 1..]), Limb(a, k + i + 1) % Pow(2, s));
    }
  }

  lemma {:induction false} DivMod(x: nat, m: nat)
    requires m > 0
    ensures x == m * (x / m) + x % m && 0 <= x % m < m && 0 <= x / m
  {
  }

  lemma {:induction false} DivDivArith(x: nat, m: nat, n: nat, p: nat, r: nat, q: nat, r1: nat)
    requires r < m && r1 < n && x == m * p + r && p == n * q + r1
    ensures m * n > 0 && x / (m * n) == q
  {
    Distribute(m, n * q, r1);
    MulAssoc(m, n, q);
    MulLessEq(m, r1, n);
    ModIs(x, m * n, q, m * r1 + r);
  }

  lemma {:induction false} DivDiv(x: nat, m: nat, n: nat)
    requires m > 0 && n > 0
    ensures m * n > 0 && x / (m * n) == x / m / n
  {
    var p, r := x / m, x % m;
    DivMod(x, m);
    var q, r1 := p / n, p % n;
    DivMod(p, n);
    DivDivArith(x, m, n, p, r, q, r1);
  }

  lemma {:induction false} MulLessEq(m: nat, r: nat, n: nat)
    requires r < n
    ensures m * r + m <= m * n && 0 <= m * r
  {
    Distribute(m, n, r);
    AtLeastOnce(m, n - r);
  }

  lemma {:induction false} DropLimbs(a: Limbs, k: nat)
    requires k <= |a|
    ensures Val(a[k..]) == Val(a) / Pow(B, k)
  {
    assert a == a[..k] + a[k..];
    ValAppend(a[..k], a[k..]);
    ValBound(a[..k]);
    ModIs(Val(a), Pow(B, k), Val(a[k..]), Val(a[..k]));
  }

  /** Shifting right puts zeros above. */
  lemma {:induction false} ShrAbove(a: Limbs, r: Limbs, k: nat, s: nat)
    requires s < 32 && ShrLimbs(a, r, k, s) && k <= |a|
    ensures r[|a| - k..] == Zeros(k)
  {
    forall j | |a| - k <= j < |a|
      ensures r[j] == 0
    {
      assert ShrLimb(a, r[j], k, s, j);
      ZeroBits(s);
    }
  }

  lemma {:induction false} ZeroBits(s: nat)
    ensures 0 / Pow(2, s) + Pow(2, 32 - if s <= 32 then s else 32) * (0 % Pow(2, s)) == 0
  {
  }

  /** Limb by limb, a right shift is division by a power of two, rounding down. */
  lemma {:induction false} ShrValue(a: Limbs, r: Limbs, k: nat, s: nat)
    requires s < 32 && ShrLimbs(a, r, k, s) && k <= |a|
    ensures Val(r) == Val(a) / Pow(2, 32 * k + s)
  {
    var n := |a|;
    ShrSuffix(a, r, k, s, 0);
    ShrAbove(a, r, k, s);
    assert r == r[0..n - k] + r[n - k..];
    ValAppend(r[0..n - k], Zeros(k));
    ValZeros(k);
    DropLimbs(a, k);
    ShiftPow(k, s);
    DivDiv(Val(a), Pow(B, k), Pow(2, s));
  }

  // ----- the shift loops -----

  lemma {:induction false} LeftArith(p: nat, q: nat, x: nat, c: nat)
    requires p > 0 && q > 0 && p * q == B && c < B
    ensures (p * x) % B == p * (x % q) && c / q < p && p * (x % q) + c / q < B
  {
    SplitArith(p, q, B, x);
    DivLess(c, p, q);
    MulLessEq(p, x % q, q);
  }

  lemma {:induction false} HighStart(a: Limbs, s: nat)
    requires s < 32
    ensures High(a, -1, s) == 0
  {
  }

  lemma {:induction false} OrParts(p: nat, s: nat, h: nat, y: nat, z: nat)
    requires p == Pow(2, s) && h < p && z == p * y
    ensures Or(h, z) == h + z
  {
    OrDisjoint(h, y, s);
  }

  lemma {:induction false} LeftOr(x: uint32, c: uint32, s: nat)
    requires s < 32
    ensures Or(c / Pow(2, 32 - s), (Pow(2, s) * x) % B) == c / Pow(2, 32 - s) + (Pow(2, s) * x) % B < B
  {
    PowSplit(s);
    OrArith(Pow(2, s), Pow(2, 32 - s), s, x, c);
  }

  lemma {:induction false} OrArith(p: nat, q: nat, s: nat, x: nat, c: nat)
    requires p == Pow(2, s) && p > 0 && q > 0 && p * q == B && c < B
    ensures Or(c / q, (p * x) % B) == c / q + (p * x) % B < B && (p * x) % B == p * (x % q)
  {
    LeftArith(p, q, x, c);
    OrParts(p, s, c / q, x % q, (p * x) % B);
  }

  /** Turn i adds the low bits of limb i to what is there. */
  lemma {:induction false} LeftStep(a: Limbs, s: nat, i: nat)
    requires s < 32 && i < |a|
    ensures Or(High(a, i - 1, s), (Pow(2, s) * a[i]) % B) == Low(a, i, s) + High(a, i - 1, s) < B
  {
    LeftOr(a[i], Limb(a, i - 1), s);
    ZeroHigh(s);
  }

  lemma {:induction false} ZeroHigh(s: nat)
    ensures s <= 32 ==> 0 / Pow(2, 32 - s) == 0
  {
  }

  /** It starts the next limb with the high bits, of which there are none when s is 0. */
  lemma {:induction false} LeftNext(a: Limbs, s: nat, i: nat)
    requires s < 32 && i < |a|
    ensures Or(0, a[i] / Pow(2, 32 - s)) == High(a, i, s)
    ensures s == 0 ==> High(a, i, s) == 0
  {
    OrZero(a[i] / Pow(2, 32 - s));
    PowSplit(32);
    assert s == 0 ==> 32 - s == 32;
  }

  lemma {:induction false} ShlDone(a: Limbs, r: Limbs, k: nat, s: nat)
    requires s < 32 && ShlLimbs(a, r, k, s)
    ensures Val(r) == (Val(a) * Pow(2, 32 * k + s)) % Pow(B, |a|)
  {
    if k <= |a| {
      ShlValue(a, r, k, s);
    } else {
      ShlBeyond(a, r, k, s);
    }
  }

  /** Shifting by all limbs or more leaves nothing. */
  lemma {:induction false} ShlBeyond(a: Limbs, r: Limbs, k: nat, s: nat)
    requires s < 32 && ShlLimbs(a, r, k, s) && k >= |a|
    ensures Val(r) == (Val(a) * Pow(2, 32 * k + s)) % Pow(B, |a|)
  {
    forall j | 0 <= j < |r| ensures r[j] == 0 { assert ShlLimb(a, r[j], k, s, j); }
    assert r == Zeros(|a|);
    ValZeros(|a|);
    var n := |a|;
    var more := Pow(B, k - n) * Pow(2, s);
    ShiftPow(k, s);
    PowAdd(B, n, k - n);
    MulAssoc(Pow(B, n), Pow(B, k - n), Pow(2, s));
    MulAssoc(Val(a), Pow(B, n), more);
    MulAssoc(Pow(B, n), Val(a), more);
    MulPositive(Val(a), more);
    ModIs(Val(a) * (Pow(B, n) * more), Pow(B, n), Val(a) * more, 0);
  }

  lemma {:induction false} RightOr(x: uint32, y: uint32, s: nat)
    requires s < 32
    ensures Or(x / Pow(2, s), (Pow(2, 32 - s) * y) % B) == x / Pow(2, s) + Pow(2, 32 - s) * (y % Pow(2, s)) < B
  {
    PowSplit(s);
    var p, q := Pow(2, s), Pow(2, 32 - s);
    OrArith(q, p, 32 - s, y, x);
  }

  lemma {:induction false} RightNext(x: uint32, s: nat)
    ensures Or(0, x / Pow(2, s)) == x / Pow(2, s) < B
  {
    OrZero(x / Pow(2, s));
  }

  lemma {:induction false} ZeroRest(x: uint32, s: nat)
    requires s <= 32
    ensures s == 0 ==> Pow(2, 32 - s) * (x % Pow(2, s)) == 0
  {
    if s == 0 {
      assert Pow(2, 0) == 1 && x % 1 == 0;
    }
  }

  lemma {:induction false} ShrDone(a: Limbs, r: Limbs, k: nat, s: nat)
    requires s < 32 && ShrLimbs(a, r, k, s)
    ensures Val(r) == Val(a) / Pow(2, 32 * k + s)
  {
    if k <= |a| {
      ShrValue(a, r, k, s);
    } else {
      ShrBeyond(a, r, k, s);
    }
  }

  lemma {:induction false} ShrBeyond(a: Limbs, r: Limbs, k: nat, s: nat)
    requires s < 32 && ShrLimbs(a, r, k, s) && k >= |a|
    ensures Val(r) == Val(a) / Pow(2, 32 * k + s)
  {
    ZeroBits(s);
    forall j | 0 <= j < |r| ensures r[j] == 0 { assert ShrLimb(a, r[j], k, s, j); }
    assert r == Zeros(|a|);
    ValZeros(|a|);
    ShiftPow(k, s);
    ValBound(a);
    PowMono(B, |a|, k);
    MulGrows(Pow(B, k), Pow(2, s));
    DivSmall(Val(a), Pow(B, k) * Pow(2, s));
  }

  lemma {:induction false} MulGrows(m: nat, p: nat)
    requires p > 0
    ensures m * p >= m
  {
    AtLeastOnce(m, p);
  }

  lemma {:induction false} DivSmall(x: nat, m: nat)
    requires x < m
    ensures x / m == 0
  {
  }

  /** The top limb has nothing above it, and above that there are only zeros. */
  lemma {:induction false} RightEnd(a: Limbs, r: Limbs, k: nat, s: nat)
    requires s < 32 && |r| == |a|
    requires forall j {:trigger ShrLimb(a, r[j], k, s, j)} :: 0 <= j < |a| - k - 1 ==> ShrLimb(a, r[j], k, s, j)
    requires 0 <= |a| - k - 1 ==> r[|a| - k - 1] == Limb(a, |a| - 1) / Pow(2, s)
    requires forall j :: 0 <= j < |a| && |a| - k <= j ==> r[j] == 0
    ensures ShrLimbs(a, r, k, s)
  {
    forall j | 0 <= j < |r|
      ensures ShrLimb(a, r[j], k, s, j)
    {
      ZeroBits(s);
    }
  }

  class BaseUint {
    const pn: array<uint32>

    ghost predicate Valid() {
      pn.Length > 0
    }

    ghost function Value(): nat
      reads pn
    {
      Val(pn[..])
    }

    /** 2^BITS */
    ghost function Modulus(): nat {
      Pow(B, pn.Length)
    }

    constructor (width: nat)
      ensures pn.Length == width && fresh(pn)
    {
      pn := new uint32[width];
    }

    /** operator+=.  b may be this number itself. */
    method Add(b: BaseUint)
      requires b.pn.Length == pn.Length
      modifies pn
      ensures Value() == (old(Value()) + old(b.Value())) % Modulus()
    {
      ghost var x, y := pn[..], b.pn[..];
      var carry: nat := 0;
      for i := 0 to pn.Length
        invariant forall j :: i <= j < pn.Length ==> pn[j] == x[j] && b.pn[j] == y[j]
        invariant Val(pn[..i]) + Pow(B, i) * carry == Val(x[..i]) + Val(y[..i]) && carry <= 1
      {
        ghost var r := pn[..i];
        var n := carry + pn[i] + b.pn[i];
        AddStep(r, x, y, i, carry, n);
        pn[i] := n % B;
        assert pn[..i + 1] == r + [n % B];
        carry := n / B;
      }
      assert pn[..pn.Length] == pn[..] && x[..pn.Length] == x && y[..pn.Length] == y;
      ValBound(pn[..]);
      ModIs(Val(x) + Val(y), Modulus(), carry, Val(pn[..]));
    }

    /** prefix operator++ */
    method Increment()
      requires Valid()
      modifies pn
      ensures Value() == (old(Value()) + 1) % Modulus()
    {
      ghost var x := pn[..];
      var i := 0;
      pn[0] := if pn[0] == B - 1 then 0 else pn[0] + 1;
      while pn[i] == 0 && i < pn.Length - 1
        invariant 0 <= i < pn.Length
        invariant forall j :: 0 <= j < i ==> x[j] == B - 1 && pn[j] == 0
        invariant pn[i] == if x[i] == B - 1 then 0 else x[i] + 1
        invariant forall j :: i < j < pn.Length ==> pn[j] == x[j]
        decreases pn.Length - i
      {
        i := i + 1;
        pn[i] := if pn[i] == B - 1 then 0 else pn[i] + 1;
      }
      IncAt(x, i);
      assert pn[..] == Inc(x);
      IncValue(x);
      ValBound(x);
      WrapsUp(Val(x), Modulus());
    }

    /** prefix operator-- */
    method Decrement()
      requires Valid()
      modifies pn
      ensures Value() == (old(Value()) - 1) % Modulus()
    {
      ghost var x := pn[..];
      var i := 0;
      pn[0] := if pn[0] == 0 then B - 1 else pn[0] - 1;
      while pn[i] == B - 1 && i < pn.Length - 1
        invariant 0 <= i < pn.Length
        invariant forall j :: 0 <= j < i ==> x[j] == 0 && pn[j] == B - 1
        invariant pn[i] == if x[i] == 0 then B - 1 else x[i] - 1
        invariant forall j :: i < j < pn.Length ==> pn[j] == x[j]
        decreases pn.Length - i
      {
        i := i + 1;
        pn[i] := if pn[i] == 0 then B - 1 else pn[i] - 1;
      }
      DecAt(x, i);
      assert pn[..] == Dec(x);
      DecValue(x);
      ValBound(x);
      WrapsDown(Val(x), Modulus());
    }

    /** operator- */
    method Negated() returns (ret: BaseUint)
      requires Valid()
      ensures fresh(ret) && fresh(ret.pn) && ret.pn.Length == pn.Length
      ensures ret.Value() == (0 - Value()) % Modulus()
    {
      ret := new BaseUint(pn.Length);
      for i := 0 to pn.Length
        invariant fresh(ret.pn)
        invariant forall j :: 0 <= j < i ==> ret.pn[j] == B - 1 - pn[j]
      {
        ret.pn[i] := B - 1 - pn[i];
      }
      assert ret.pn[..] == Not(pn[..]);
      NotValue(pn[..]);
      ValBound(pn[..]);
      ret.Increment();
      Negation(Value(), Modulus());
    }

    /** operator-= */
    method Subtract(b: BaseUint)
      requires Valid() && b.pn.Length == pn.Length
      modifies pn
      ensures Value() == (old(Value()) - old(b.Value())) % Modulus()
    {
      ghost var x: int, y: int, m := Value(), b.Value(), Modulus();
      var minus := b.Negated();
      ghost var z := minus.Value();
      Add(minus);
      SubtractModulo(x, y, z, m);
    }

    /** operator<<= */
    method ShiftLeft(shift: nat)
      modifies pn
      ensures Value() == (old(Value()) * Pow(2, shift)) % Modulus()
    {
      var a := pn[..];
      SetZero();
      var k := shift / 32;
      var s := shift % 32;
      HighStart(a, s);
      for i := 0 to pn.Length
        invariant forall j {:trigger ShlLimb(a, pn[j], k, s, j)} :: 0 <= j < i + k && j < pn.Length ==> ShlLimb(a, pn[j], k, s, j)
        invariant i + k < pn.Length ==> pn[i + k] == High(a, i - 1, s)
        invariant forall j :: i + k < j < pn.Length ==> pn[j] == 0
      {
        LeftTurn(a, i, k, s);
      }
      assert ShlLimbs(a, pn[..], k, s);
      ShlDone(a, pn[..], k, s);
    }

    method SetZero()
      modifies pn
      ensures forall j :: 0 <= j < pn.Length ==> pn[j] == 0
    {
      for i := 0 to pn.Length
        invariant forall j :: 0 <= j < i ==> pn[j] == 0
      {
        pn[i] := 0;
      }
    }

    /** Turn i of the loop: the low bits of limb i join what is there, the high bits start
        the next limb. */
    method LeftTurn(a: Limbs, i: nat, k: nat, s: nat)
      requires i < |a| == pn.Length && s < 32
      requires i + k < pn.Length ==> pn[i + k] == High(a, i - 1, s)
      requires i + k + 1 < pn.Length ==> pn[i + k + 1] == 0
      modifies pn
      ensures forall j :: 0 <= j < pn.Length && j != i + k && j != i + k + 1 ==> pn[j] == old(pn[j])
      ensures i + k < pn.Length ==> ShlLimb(a, pn[i + k], k, s, i + k)
      ensures i + k + 1 < pn.Length ==> pn[i + k + 1] == High(a, i, s)
    {
      LeftNext(a, s, i);
      if i + k + 1 < pn.Length && s != 0 {
        pn[i + k + 1] := Or(pn[i + k + 1], a[i] / Pow(2, 32 - s));
      }
      LeftStep(a, s, i);
      if i + k < pn.Length {
        pn[i + k] := Or(pn[i + k], (Pow(2, s) * a[i]) % B);
      }
    }

    /** operator>>= */
    method ShiftRight(shift: nat)
      modifies pn
      ensures Value() == old(Value()) / Pow(2, shift)
    {
      var a := pn[..];
      SetZero();
      var k := shift / 32;
      var s := shift % 32;
      for i := 0 to pn.Length
        invariant forall j {:trigger ShrLimb(a, pn[j], k, s, j)} :: 0 <= j < i - k - 1 ==> ShrLimb(a, pn[j], k, s, j)
        invariant 0 <= i - k - 1 ==> pn[i - k - 1] == Limb(a, i - 1) / Pow(2, s)
        invariant forall j :: 0 <= i - k <= j < pn.Length ==> pn[j] == 0
        invariant forall j :: i - k < 0 <= j < pn.Length ==> pn[j] == 0
      {
        RightTurn(a, i, k, s);
      }
      RightEnd(a, pn[..], k, s);
      ShrDone(a, pn[..], k, s);
    }

    /** Turn i of the loop: the low bits of limb i complete the limb below, the high bits
        start its own. */
    method RightTurn(a: Limbs, i: nat, k: nat, s: nat)
      requires i < |a| == pn.Length && s < 32
      requires 0 <= i - k - 1 ==> pn[i - k - 1] == Limb(a, i - 1) / Pow(2, s)
      requires 0 <= i - k ==> pn[i - k] == 0
      modifies pn
      ensures forall j :: 0 <= j < pn.Length && j != i - k && j != i - k - 1 ==> pn[j] == old(pn[j])
      ensures 0 <= i - k - 1 ==> ShrLimb(a, pn[i - k - 1], k, s, i - k - 1)
      ensures 0 <= i - k ==> pn[i - k] == Limb(a, i) / Pow(2, s)
    {
      RightOr(Limb(a, i - 1), a[i], s);
      ZeroRest(a[i], s);
      if i - k - 1 >= 0 && s != 0 {
        pn[i - k - 1] := Or(pn[i - k - 1], (Pow(2, 32 - s) * a[i]) % B);
      }
      RightNext(a[i], s);
      if i - k >= 0 {
        pn[i - k] := Or(pn[i - k], a[i] / Pow(2, s));
      }
    }

    /** operator<; the other comparisons have the same loop. */
    method Less(b: BaseUint) returns (r: bool)
      requires b.pn.Length == pn.Length
      ensures r <==> Value() < b.Value()
    {
      var i := pn.Length;
      while i > 0
        invariant 0 <= i <= pn.Length && pn[i..] == b.pn[i..]
      {
        i := i - 1;
        if pn[i] < b.pn[i] {
          TopDecides(pn[..], b.pn[..], i);
          return true;
        } else if pn[i] > b.pn[i] {
          TopDecides(b.pn[..], pn[..], i);
          return false;
        }
      }
      assert pn[..] == pn[0..] && b.pn[..] == b.pn[0..];
      return false;
    }

    /** operator== */
    method Equal(b: BaseUint) returns (r: bool)
      requires b.pn.Length == pn.Length
      ensures r <==> Value() == b.Value()
    {
      var i := 0;
      while i < pn.Length
        invariant 0 <= i <= pn.Length && forall j :: 0 <= j < i ==> pn[j] == b.pn[j]
      {
        if pn[i] != b.pn[i] {
          Different(pn[..], b.pn[..], i);
          return false;
        }
        i := i + 1;
      }
      assert pn[..] == b.pn[..];
      return true;
    }
  }

  lemma {:induction false} WrapsUp(x: nat, m: nat)
    requires x < m
    ensures (x + 1) % m == if x + 1 == m then 0 else x + 1
  {
  }

  lemma {:induction false} WrapsDown(x: nat, m: nat)
    requires x < m
    ensures (x - 1) % m == if x == 0 then m - 1 else x - 1
  {
    IntMod(x - 1, m, if x == 0 then -1 else 0, if x == 0 then m - 1 else x - 1);
  }

  lemma {:induction false} IntMod(x: int, m: nat, q: int, r: nat)
    requires r < m && x == r + m * q
    ensures x % m == r
  {
    Distribute(m, x / m, q);
    AtLeastOnce(m, x / m - q);
  }

  lemma {:induction false} Negation(x: nat, m: nat)
    requires x < m
    ensures (m - 1 - x + 1) % m == (0 - x) % m
  {
    if x > 0 {
      IntMod(0 - x, m, -1, m - x);
    }
  }

  lemma {:induction false} SubtractModulo(x: int, y: int, z: int, m: nat)
    requires m > 0 && z == (0 - y) % m
    ensures (x + z) % m == (x - y) % m
  {
    AddModulo(x, 0 - y, m);
    assert x + (0 - y) == x - y;
  }

  lemma {:induction false} AddModulo(x: int, y: int, m: nat)
    requires m > 0
    ensures (x + y % m) % m == (x + y) % m
  {
    var r := (x + y % m) % m;
    Distribute(m, (x + y % m) / m, y / m);
    IntMod(x + y, m, (x + y % m) / m + y / m, r);
  }

  lemma {:induction false} Different(s: Limbs, t: Limbs, i: nat)
    requires i < |s| == |t| && s[i] != t[i]
    ensures Val(s) != Val(t)
    decreases |s|
  {
    if i == 0 {
      FirstDiffers(s[0], t[0], Val(s[1..]), Val(t[1..]));
    } else {
      Different(s[1..], t[1..], i - 1);
      FirstDiffers(s[0], t[0], Val(s[1..]), Val(t[1..]));
    }
  }

  lemma {:induction false} FirstDiffers(x: uint32, y: uint32, v: nat, w: nat)
    ensures x + B * v == y + B * w <==> x == y && v == w
  {
  }
}
