/** EncodeBase58 and DecodeBase58, as methods over the big number, and the round
    trips between byte vectors and strings. */
module Base58 {
  import opened Basics
  import opened Bignum

  /** pszBase58[k].  The alphabet is 1-9, A-Z without I and O, and a-z without l. */
  function Char(k: nat): char
    requires k < 58
  {
    (if k < 9 then '1' as int + k
     else if k < 17 then 'A' as int + (k - 9)
     else if k < 22 then 'J' as int + (k - 17)
     else if k < 33 then 'P' as int + (k - 22)
     else if k < 44 then 'a' as int + (k - 33)
     else 'm' as int + (k - 44)) as char
  }

  predicate InAlphabet(c: char) {
    exists k :: 0 <= k < 58 && Char(k) == c
  }

  /** A string as C sees it: no terminator inside. */
  type CString = s: string | '\0' !in s

  predicate IsSpace(c: char) {
    c == ' ' || '\t' <= c <= '\r'
  }

  // ----- the alphabet -----

  /** strchr(pszBase58, c) */
  function Digit(c: char): (d: Option<nat>)
    ensures d.Some? ==> d.value < 58 && Char(d.value) == c
    ensures d.None? ==> !InAlphabet(c)
  {
    DigitFrom(c, 0)
  }

  function DigitFrom(c: char, k: nat): (d: Option<nat>)
    requires k <= 58
    ensures d.Some? ==> k <= d.value < 58 && Char(d.value) == c
    ensures d.None? ==> forall j :: k <= j < 58 ==> Char(j) != c
    decreases 58 - k
  {
    if k == 58 then None else if Char(k) == c then Some(k) else DigitFrom(c, k + 1)
  }

  lemma {:induction false} DigitOfChar(k: nat)
    requires k < 58
    ensures Digit(Char(k)) == Some(k)
  {
    assert InAlphabet(Char(k));
  }

  lemma {:induction false} NoSpaceInAlphabet(k: nat)
    requires k < 58
    ensures !IsSpace(Char(k)) && Char(k) != '\0'
  {
  }

  // ----- numerals -----

  predicate IsNumeral(s: seq<nat>) {
    forall k :: 0 <= k < |s| ==> s[k] < 58
  }

  /** The digits of n to base 58, least significant first, without zeros at the end. */
  function Digits58(n: nat): (s: seq<nat>)
    ensures s == [] <==> n == 0
    ensures s != [] ==> s[|s| - 1] != 0
    ensures IsNumeral(s)
  {
    if n == 0 then [] else [n % 58] + Digits58(n / 58)
  }

  function Value58(s: seq<nat>): nat {
    if s == [] then 0 else s[0] + 58 * Value58(s[1..])
  }

  lemma {:induction false} ValueOfDigits(n: nat)
    ensures Value58(Digits58(n)) == n
  {
    if n > 0 {
      ValueOfDigits(n / 58);
      assert Digits58(n)[1..] == Digits58(n / 58);
    }
  }

  lemma {:induction false} DigitsOfValue(s: seq<nat>)
    requires IsNumeral(s)
    requires s != [] ==> s[|s| - 1] != 0
    ensures Digits58(Value58(s)) == s && (s != [] ==> Value58(s) > 0)
  {
    if s != [] {
      DigitsOfValue(s[1..]);
      var v := Value58(s[1..]);
      assert |s| == 1 ==> s[1..] == [] && v == 0;
      assert (s[0] + 58 * v) % 58 == s[0] && (s[0] + 58 * v) / 58 == v;
    }
  }

  lemma {:induction false} ValueAppend(s: seq<nat>, d: nat)
    ensures Value58([d] + s) == d + 58 * Value58(s)
  {
    assert ([d] + s)[1..] == s;
  }

  lemma {:induction false} ValuePadZeros(s: seq<nat>, n: nat)
    ensures Value58(s + Zeros(n)) == Value58(s)
  {
    if s == [] {
      assert s + Zeros(n) == Zeros(n);
      if n > 0 {
        ValuePadZeros([], n - 1);
        assert [] + Zeros(n - 1) == Zeros(n - 1) && Zeros(n)[1..] == Zeros(n - 1);
      }
    } else {
      assert (s + Zeros(n))[1..] == s[1..] + Zeros(n);
      ValuePadZeros(s[1..], n);
    }
  }

  function Zeros(n: nat): (s: seq<nat>)
    ensures |s| == n
  {
    seq(n, _ => 0)
  }

  function Chars(s: seq<nat>): (r: string)
    requires IsNumeral(s)
    ensures |r| == |s| && forall k :: 0 <= k < |s| ==> r[k] == Char(s[k])
  {
    seq(|s|, k requires 0 <= k < |s| => Char(s[k]))
  }

  /** How many items equal to x there are at the front of s. */
  function Leading<T(==)>(s: seq<T>, x: T): (n: nat)
    ensures n <= |s| && (forall k :: 0 <= k < n ==> s[k] == x) && (n < |s| ==> s[n] != x)
  {
    if s == [] || s[0] != x then 0 else 1 + Leading(s[1..], x)
  }

  lemma {:induction false} LeadingIs<T>(s: seq<T>, x: T, n: nat)
    requires n <= |s| && (forall k :: 0 <= k < n ==> s[k] == x) && (n < |s| ==> s[n] != x)
    ensures Leading(s, x) == n
  {
    if n > 0 {
      LeadingIs(s[1..], x, n - 1);
    }
  }

  /** The number that the bytes denote, most significant first. */
  function Number(v: seq<byte>): nat {
    FromLE(Reverse(v))
  }

  /** What EncodeBase58 is to produce: a one for every leading zero byte, then the
      number to base 58. */
  function Encode(v: seq<byte>): string {
    Chars(Zeros(Leading(v, 0))) + Chars(Reverse(Digits58(Number(v))))
  }

  /** EncodeBase58 */
  method EncodeBase58(v: seq<byte>) returns (str: string)
    ensures str == Encode(v)
  {
    // Without it a set top bit would be read as a sign.
    var vchTmp := Reverse(v) + [0];
    TopZero(Reverse(v));
    str := DivideOut(SetVch(vchTmp));

    str := PutZeros(v, str, Digits58(Number(v)));
    str := Reverse(str);
    Reversed(Digits58(Number(v)), Leading(v, 0));
  }

  /** Adds a one for every leading zero byte, behind digits that are still in reverse. */
  method PutZeros(v: seq<byte>, strIn: string, ghost digits: seq<nat>) returns (str: string)
    requires IsNumeral(digits) && strIn == Chars(digits)
    ensures str == Chars(digits + Zeros(Leading(v, 0)))
  {
    str := strIn;
    var p := 0;
    assert digits + Zeros(0) == digits;
    while p < |v| && v[p] == 0
      invariant 0 <= p <= |v| && forall k :: 0 <= k < p ==> v[k] == 0
      invariant str == Chars(digits + Zeros(p))
    {
      OneZeroMore(digits, p);
      str := str + [Char(0)];
      p := p + 1;
    }
    LeadingIs(v, 0, p);
  }

  lemma {:induction false} OneZeroMore(digits: seq<nat>, p: nat)
    requires IsNumeral(digits)
    ensures Chars(digits + Zeros(p + 1)) == Chars(digits + Zeros(p)) + [Char(0)]
  {
    assert digits + Zeros(p + 1) == digits + Zeros(p) + [0];
    CharsAppend(digits + Zeros(p), [0]);
    assert Chars([0]) == [Char(0)];
  }

  lemma {:induction false} CharsAppend(s: seq<nat>, t: seq<nat>)
    requires IsNumeral(s)
    requires IsNumeral(t)
    ensures IsNumeral(s + t)
    ensures Chars(s + t) == Chars(s) + Chars(t)
  {
  }

  lemma {:induction false} CharsReverse(s: seq<nat>)
    requires IsNumeral(s)
    ensures Reverse(Chars(s)) == Chars(Reverse(s))
  {
  }

  lemma {:induction false} Reversed(digits: seq<nat>, p: nat)
    requires IsNumeral(digits)
    ensures Reverse(Chars(digits + Zeros(p))) == Chars(Zeros(p)) + Chars(Reverse(digits))
  {
    CharsAppend(digits, Zeros(p));
    ReverseAppend(Chars(digits), Chars(Zeros(p)));
    CharsReverse(digits);
    CharsReverse(Zeros(p));
    assert Reverse(Zeros(p)) == Zeros(p);
  }

  lemma {:induction false} NextDigit(done: seq<nat>, bn: nat)
    requires bn > 0 && IsNumeral(done)
    ensures done + Digits58(bn) == done + [bn % 58] + Digits58(bn / 58)
    ensures Chars(done + [bn % 58]) == Chars(done) + [Char(bn % 58)]
  {
    Regroup(done, [bn % 58], Digits58(bn / 58));
    CharsAppend(done, [bn % 58]);
    assert Chars([bn % 58]) == [Char(bn % 58)];
  }

  /** The division loop: the digits come out least significant first. */
  method DivideOut(bnIn: nat) returns (str: string)
    ensures str == Chars(Digits58(bnIn))
  {
    str := "";
    var bn := bnIn;
    ghost var done: seq<nat> := [];
    while bn > 0
      invariant Digits58(bnIn) == done + Digits58(bn)
      invariant IsNumeral(done)
      invariant str == Chars(done)
    {
      var c := bn % 58;
      NextDigit(done, bn);
      bn := bn / 58;
      str := str + [Char(c)];
      done := done + [c];
    }
  }

  lemma {:induction false} TopZero(s: seq<byte>)
    ensures SetVch(s + [0]) == FromLE(s)
  {
    assert (s + [0])[..|s|] + [0] == s + [0];
    FromLEPadZero(s);
  }

  // ----- decoding -----

  function SkipSpaces(s: string): (r: string)
    ensures |r| <= |s| && r == s[|s| - |r|..] && (r != "" ==> !IsSpace(r[0]))
  {
    if s != "" && IsSpace(s[0]) then SkipSpaces(s[1..]) else s
  }

  predicate Blank(s: string) {
    forall k :: 0 <= k < |s| ==> IsSpace(s[k])
  }

  /** The length of the run of digits at the front. */
  function Run(s: string): (n: nat)
    ensures n <= |s| && (forall k :: 0 <= k < n ==> Digit(s[k]).Some?) && (n < |s| ==> Digit(s[n]).None?)
  {
    if s == "" || Digit(s[0]).None? then 0 else 1 + Run(s[1..])
  }

  predicate AllDigits(s: string) {
    forall k :: 0 <= k < |s| ==> Digit(s[k]).Some?
  }

  function DigitsOf(s: string): (r: seq<nat>)
    requires AllDigits(s)
    ensures |r| == |s| && forall k :: 0 <= k < |s| ==> r[k] < 58 && Char(r[k]) == s[k]
  {
    seq(|s|, k requires 0 <= k < |s| => Digit(s[k]).value)
  }

  /** The bytes a string of digits denotes: a zero byte for every leading one, then
      the number to base 256. */
  function BytesOf(s: string): seq<byte>
    requires AllDigits(s)
  {
    ZeroBytes(Leading(s, Char(0))) + Reverse(Magnitude(Value58(Reverse(DigitsOf(s)))))
  }

  function ZeroBytes(n: nat): (s: seq<byte>)
    ensures |s| == n
  {
    seq(n, _ => 0)
  }

  /** What DecodeBase58 is to return: spaces around the digits are skipped, anything
      else makes it fail. */
  function Decode(s: CString): Option<seq<byte>> {
    var t := SkipSpaces(s);
    if Blank(t[Run(t)..]) then Some(BytesOf(t[..Run(t)])) else None
  }

  /** DecodeBase58.  On failure the result vector is left empty. */
  method DecodeBase58(str: CString) returns (ok: bool, vchRet: seq<byte>)
    ensures Decode(str) == if ok then Some(vchRet) else None
    ensures !ok ==> vchRet == []
  {
    var psz := SkipSpaces(str);
    var bn, p := ReadDigits(psz);
    var blank := OnlySpaces(psz, p);
    if !blank {
      return false, [];
    }
    vchRet := BytesFrom(bn, psz);
    LeadingInRun(psz, p);
    ok := true;
  }

  /** Folds the digits into a number, up to the first character that is none. */
  method ReadDigits(psz: string) returns (bn: nat, p: nat)
    ensures p == Run(psz) && AllDigits(psz[..p]) && bn == Value58(Reverse(DigitsOf(psz[..p])))
  {
    bn, p := 0, 0;
    while p < |psz| && Digit(psz[p]).Some?
      invariant 0 <= p <= |psz| && AllDigits(psz[..p])
      invariant bn == Value58(Reverse(DigitsOf(psz[..p])))
    {
      OneDigitMore(psz, p);
      bn := bn * 58;
      bn := bn + Digit(psz[p]).value;
      p := p + 1;
    }
    RunIs(psz, p);
  }

  method OnlySpaces(psz: string, p: nat) returns (blank: bool)
    requires p <= |psz|
    ensures blank <==> Blank(psz[p..])
  {
    var q := p;
    while q < |psz| && IsSpace(psz[q])
      invariant p <= q <= |psz| && forall k :: p <= k < q ==> IsSpace(psz[k])
    {
      q := q + 1;
    }
    blank := q == |psz|;
    assert q < |psz| ==> psz[p..][q - p] == psz[q];
  }

  /** The bytes of the number, most significant first, behind the leading zeros. */
  method BytesFrom(bn: nat, psz: string) returns (vchRet: seq<byte>)
    ensures vchRet == ZeroBytes(Leading(psz, Char(0))) + Reverse(Magnitude(bn))
  {
    var vchTmp := GetVch(bn);

    // After this exactly the magnitude is left, as TrimmedIsMagnitude says.
    if |vchTmp| >= 2 && vchTmp[|vchTmp| - 1] == 0 && vchTmp[|vchTmp| - 2] >= 0x80 {
      vchTmp := vchTmp[..|vchTmp| - 1];
    }
    TrimmedIsMagnitude(bn);

    // The division has lost the leading zero bytes; the text still shows how many.
    var nLeadingZeros := 0;
    while nLeadingZeros < |psz| && psz[nLeadingZeros] == Char(0)
      invariant 0 <= nLeadingZeros <= |psz| && forall k :: 0 <= k < nLeadingZeros ==> psz[k] == Char(0)
    {
      nLeadingZeros := nLeadingZeros + 1;
    }
    LeadingIs(psz, Char(0), nLeadingZeros);
    vchRet := ZeroBytes(nLeadingZeros) + Reverse(vchTmp);
  }

  /** The sign byte is there only when the number fills its top byte, so trimming it
      leaves exactly the magnitude. */
  lemma {:induction false} TrimmedIsMagnitude(n: nat)
    ensures var v := GetVch(n);
            (if |v| >= 2 && v[|v| - 1] == 0 && v[|v| - 2] >= 0x80 then v[..|v| - 1] else v) == Magnitude(n)
  {
    VchOfPositive(n, Magnitude(n));
    Trimmed(Magnitude(n), GetVch(n));
  }

  lemma {:induction false} VchOfPositive(n: nat, m: seq<byte>)
    requires m == Magnitude(n)
    ensures GetVch(n) == if m != [] && m[|m| - 1] >= 0x80 then m + [0] else m
  {
    if m != [] {
      var front, top := m[..|m| - 1], m[|m| - 1];
      assert m == front + [top];
      if top >= 0x80 {
        GetVchPadded(n, m);
      } else {
        GetVchOf(n, front, top);
      }
    }
  }

  lemma {:induction false} Trimmed(m: seq<byte>, v: seq<byte>)
    requires v == if m != [] && m[|m| - 1] >= 0x80 then m + [0] else m
    requires m != [] ==> m[|m| - 1] != 0
    ensures (if |v| >= 2 && v[|v| - 1] == 0 && v[|v| - 2] >= 0x80 then v[..|v| - 1] else v) == m
  {
    SplitFront(m, [0]);
  }

  lemma {:induction false} OneDigitMore(psz: string, p: nat)
    requires p < |psz| && AllDigits(psz[..p]) && Digit(psz[p]).Some?
    ensures AllDigits(psz[..p + 1])
    ensures Value58(Reverse(DigitsOf(psz[..p + 1]))) == Digit(psz[p]).value + 58 * Value58(Reverse(DigitsOf(psz[..p])))
  {
    assert psz[..p + 1] == psz[..p] + [psz[p]];
    var a, d := DigitsOf(psz[..p]), Digit(psz[p]).value;
    assert DigitsOf(psz[..p + 1]) == a + [d];
    ReverseAppend(a, [d]);
    assert Reverse([d]) == [d];
    ValueAppend(Reverse(a), d);
  }

  lemma {:induction false} RunIs(s: string, n: nat)
    requires n <= |s| && AllDigits(s[..n]) && (n < |s| ==> Digit(s[n]).None?)
    ensures Run(s) == n
  {
    if n > 0 {
      assert s[..n][0] == s[0] && s[1..][..n - 1] == s[..n][1..];
      RunIs(s[1..], n - 1);
    }
  }

  lemma {:induction false} LeadingInRun(s: string, n: nat)
    requires n <= |s| && (n < |s| ==> Digit(s[n]).None?)
    ensures Leading(s[..n], Char(0)) == Leading(s, Char(0))
  {
    DigitOfChar(0);
    var z := Leading(s, Char(0));
    LeadingIs(s[..n], Char(0), z);
  }

  // ----- round trips -----

  lemma {:induction false} LeadingSplit<T>(s: seq<T>, x: T)
    ensures var z := Leading(s, x); s == s[..z] + s[z..] && (z < |s| ==> s[z] != x)
  {
  }

  lemma {:induction false} NumberPadZeros(z: nat, s: seq<byte>)
    ensures FromLE(s + ZeroBytes(z)) == FromLE(s)
  {
    if z == 0 {
      assert s + ZeroBytes(0) == s;
    } else {
      NumberPadZeros(z - 1, s);
      FromLEPadZero(s + ZeroBytes(z - 1));
      assert s + ZeroBytes(z) == s + ZeroBytes(z - 1) + [0];
    }
  }

  /** A byte vector is its leading zeros and the magnitude of its number. */
  lemma {:induction false} BytesSplit(v: seq<byte>)
    ensures v == ZeroBytes(Leading(v, 0)) + Reverse(Magnitude(Number(v)))
  {
    var z := Leading(v, 0);
    var rest := v[z..];
    LeadingSplit(v, 0);
    assert v[..z] == ZeroBytes(z);
    ReverseAppend(ZeroBytes(z), rest);
    assert Reverse(ZeroBytes(z)) == ZeroBytes(z);
    NumberPadZeros(z, Reverse(rest));
    MagnitudeUnique(Reverse(rest));
    ReverseTwice(rest);
  }

  lemma {:induction false} DigitsSplit(d: seq<nat>, z: nat)
    requires (IsNumeral(d)) && z <= |d| && d[..z] == Zeros(z) && (z < |d| ==> d[z] != 0)
    ensures d == Zeros(z) + Reverse(Digits58(Value58(Reverse(d))))
  {
    var rest := d[z..];
    assert d == Zeros(z) + rest;
    ReverseAppend(Zeros(z), rest);
    assert Reverse(Zeros(z)) == Zeros(z);
    ValuePadZeros(Reverse(rest), z);
    DigitsOfValue(Reverse(rest));
    ReverseTwice(rest);
  }

  lemma {:induction false} CharsOfDigits(s: string)
    requires AllDigits(s)
    ensures Chars(DigitsOf(s)) == s
  {
  }

  /** A string of digits is its leading ones and the digits of its number. */
  lemma {:induction false} StringSplit(s: string)
    requires AllDigits(s)
    ensures s == Chars(Zeros(Leading(s, Char(0)))) + Chars(Reverse(Digits58(Value58(Reverse(DigitsOf(s))))))
  {
    var d, z := DigitsOf(s), Leading(s, Char(0));
    LeadingOfDigits(s, d, z);
    DigitsSplit(d, z);
    CharsAppend(Zeros(z), Reverse(Digits58(Value58(Reverse(d)))));
    CharsOfDigits(s);
  }

  lemma {:induction false} LeadingOfDigits(s: string, d: seq<nat>, z: nat)
    requires AllDigits(s) && d == DigitsOf(s) && z == Leading(s, Char(0))
    ensures d[..z] == Zeros(z) && (z < |d| ==> d[z] != 0)
  {
    forall k | 0 <= k < z
      ensures d[k] == 0
    {
      DigitOfChar(0);
    }
  }

  lemma {:induction false} CharsAreDigits(s: seq<nat>)
    requires IsNumeral(s)
    ensures AllDigits(Chars(s)) && DigitsOf(Chars(s)) == s
  {
    forall k | 0 <= k < |s|
      ensures Digit(Chars(s)[k]) == Some(s[k])
    {
      DigitOfChar(s[k]);
    }
  }

  lemma {:induction false} DigitsTrimmed(s: string)
    requires AllDigits(s)
    ensures SkipSpaces(s) == s && Run(s) == |s| && s[..|s|] == s && '\0' !in s
  {
    if s != "" {
      NoSpaceInAlphabet(Digit(s[0]).value);
    }
    RunIs(s, |s|);
    forall k | 0 <= k < |s| ensures s[k] != '\0' { NoSpaceInAlphabet(Digit(s[k]).value); }
  }

  /** A string of digits decodes to its bytes. */
  lemma {:induction false} DecodeDigits(s: string)
    requires AllDigits(s)
    ensures '\0' !in s && Decode(s) == Some(BytesOf(s))
  {
    DigitsTrimmed(s);
  }

  lemma {:induction false} EncodeIsDigits(v: seq<byte>)
    ensures AllDigits(Encode(v)) && Leading(Encode(v), Char(0)) == Leading(v, 0)
    ensures Value58(Reverse(DigitsOf(Encode(v)))) == Number(v)
  {
    var z, d := Leading(v, 0), Digits58(Number(v));
    var s := Zeros(z) + Reverse(d);
    CharsAppend(Zeros(z), Reverse(d));
    CharsAreDigits(s);
    EncodeLeading(z, d);
    ReverseAppend(Zeros(z), Reverse(d));
    ReverseTwice(d);
    assert Reverse(Zeros(z)) == Zeros(z);
    ValuePadZeros(d, z);
    ValueOfDigits(Number(v));
  }

  lemma {:induction false} EncodeLeading(z: nat, d: seq<nat>)
    requires (IsNumeral(d)) && (d != [] ==> d[|d| - 1] != 0)
    ensures Leading(Chars(Zeros(z)) + Chars(Reverse(d)), Char(0)) == z
  {
    var s := Chars(Zeros(z)) + Chars(Reverse(d));
    if d != [] {
      assert s[z] == Char(d[|d| - 1]);
    }
    LeadingIs(s, Char(0), z);
  }

  /** Decoding undoes encoding, for every byte vector. */
  lemma {:induction false} DecodeEncode(v: seq<byte>)
    ensures '\0' !in Encode(v) && Decode(Encode(v)) == Some(v)
  {
    EncodeIsDigits(v);
    DecodeDigits(Encode(v));
    BytesSplit(v);
  }

  lemma {:induction false} BytesLeading(z: nat, m: seq<byte>)
    requires m != [] ==> m[|m| - 1] != 0
    ensures Leading(ZeroBytes(z) + Reverse(m), 0) == z && Number(ZeroBytes(z) + Reverse(m)) == FromLE(m)
  {
    LeadingIs(ZeroBytes(z) + Reverse(m), 0, z);
    ReverseAppend(ZeroBytes(z), Reverse(m));
    ReverseTwice(m);
    assert Reverse(ZeroBytes(z)) == ZeroBytes(z);
    NumberPadZeros(z, m);
  }

  /** Encoding undoes decoding, for every string of digits. */
  lemma {:induction false} EncodeBytes(s: string)
    requires AllDigits(s)
    ensures Encode(BytesOf(s)) == s
  {
    var n := Value58(Reverse(DigitsOf(s)));
    BytesLeading(Leading(s, Char(0)), Magnitude(n));
    StringSplit(s);
  }

  /** A numeral to any base as it is read: the digit that comes last counts once. */
  function AsRead(base: nat, s: seq<nat>): nat {
    if s == [] then 0 else base * AsRead(base, s[..|s| - 1]) + s[|s| - 1]
  }

  lemma {:induction false} ReverseLast<T>(s: seq<T>)
    requires s != []
    ensures Reverse(s) == [s[|s| - 1]] + Reverse(s[..|s| - 1])
  {
    assert s == s[..|s| - 1] + [s[|s| - 1]];
    ReverseAppend(s[..|s| - 1], [s[|s| - 1]]);
    assert Reverse([s[|s| - 1]]) == [s[|s| - 1]];
  }

  lemma {:induction false} BytesAsRead(v: seq<byte>)
    ensures Number(v) == AsRead(256, v)
  {
    if v != [] {
      BytesAsRead(v[..|v| - 1]);
      ReverseLast(v);
      assert Reverse(v)[1..] == Reverse(v[..|v| - 1]);
    }
  }

  lemma {:induction false} DigitsAsRead(d: seq<nat>)
    ensures Value58(Reverse(d)) == AsRead(58, d)
  {
    if d != [] {
      DigitsAsRead(d[..|d| - 1]);
      ReverseLast(d);
      ValueAppend(Reverse(d[..|d| - 1]), d[|d| - 1]);
    }
  }

  /** The text read to base 58 is the number that the bytes are to base 256. */
  lemma {:induction false} SameNumber(v: seq<byte>)
    ensures AllDigits(Encode(v)) && AsRead(58, DigitsOf(Encode(v))) == AsRead(256, v)
  {
    EncodeIsDigits(v);
    DigitsAsRead(DigitsOf(Encode(v)));
    BytesAsRead(v);
  }

  // ----- exactly which strings decode -----

  /** s is core with spaces around it. */
  ghost predicate Around(s: string, a: string, core: string, b: string) {
    Blank(a) && Blank(b) && s == a + core + b
  }

  lemma {:induction false} SkipsBlank(a: string, s: string)
    requires Blank(a) && (s != "" ==> !IsSpace(s[0]))
    ensures SkipSpaces(a + s) == s
  {
    if a == "" {
      assert a + s == s;
    } else {
      assert (a + s)[1..] == a[1..] + s;
      SkipsBlank(a[1..], s);
    }
  }

  lemma {:induction false} RunOf(core: string, b: string)
    requires AllDigits(core) && Blank(b)
    ensures Run(core + b) == |core| && (core + b)[..|core|] == core && (core + b)[|core|..] == b
  {
    SplitFront(core, b);
    if b != "" && Digit(b[0]).Some? {
      NoSpaceInAlphabet(Digit(b[0]).value);
    }
    RunIs(core + b, |core|);
  }

  /** Digits with spaces around them decode, and encoding gives the digits back. */
  lemma {:induction false} SpacedDecodes(s: CString, a: string, core: string, b: string)
    requires Around(s, a, core, b) && AllDigits(core)
    ensures Decode(s).Some? && Encode(Decode(s).value) == core
  {
    EncodeBytes(core);
    if core == "" {
      assert s == a + b && Blank(s) && s + "" == s;
      SkipsBlank(s, "");
      assert ""[..0] == "" && Blank(""[0..]);
    } else {
      NoSpaceInAlphabet(Digit(core[0]).value);
      Regroup(a, core, b);
      SkipsBlank(a, core + b);
      RunOf(core, b);
    }
  }

  lemma {:induction false} BlankCons(s: string, n: nat)
    requires 0 < n <= |s| && IsSpace(s[0]) && Blank(s[1..][..n - 1])
    ensures Blank(s[..n])
  {
    assert s[..n] == [s[0]] + s[1..][..n - 1];
  }

  lemma {:induction false} SkippedIsBlank(s: string)
    ensures Blank(s[..|s| - |SkipSpaces(s)|])
  {
    if s != "" && IsSpace(s[0]) {
      SkippedIsBlank(s[1..]);
      BlankCons(s, |s| - |SkipSpaces(s)|);
    }
  }

  /** Nothing else decodes. */
  lemma {:induction false} OnlySpacedDecodes(s: CString)
    requires Decode(s).Some?
    ensures exists a, core, b :: Around(s, a, core, b) && AllDigits(core)
  {
    var t := SkipSpaces(s);
    SkippedIsBlank(s);
    RunIsDigits(t);
    assert s == s[..|s| - |t|] + t;
    SplitsAround(s, s[..|s| - |t|], t, Run(t));
  }

  lemma {:induction false} RunIsDigits(t: string)
    ensures AllDigits(t[..Run(t)])
  {
  }

  lemma {:induction false} SplitsAround(s: string, a: string, t: string, n: nat)
    requires s == a + t && n <= |t| && Blank(a) && Blank(t[n..])
    ensures Around(s, a, t[..n], t[n..])
  {
    Regroup(a, t[..n], t[n..]);
    assert t[..n] + t[n..] == t;
  }
}
