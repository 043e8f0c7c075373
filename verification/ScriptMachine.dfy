/** What one executed instruction does to the two stacks.  Hash functions and
    signature checking are parameters. */
module ScriptMachine {
  import opened Basics
  import Bignum
  import opened ScriptCode
  import opened MultiSig

  const OP_NOP: byte := 97
  const OP_IF: byte := 99
  const OP_NOTIF: byte := 100
  const OP_ELSE: byte := 103
  const OP_ENDIF: byte := 104
  const OP_VERIFY: byte := 105
  const OP_TOALTSTACK: byte := 107
  const OP_FROMALTSTACK: byte := 108
  const OP_2DROP: byte := 109
  const OP_2DUP: byte := 110
  const OP_3DUP: byte := 111
  const OP_2OVER: byte := 112
  const OP_2ROT: byte := 113
  const OP_2SWAP: byte := 114
  const OP_IFDUP: byte := 115
  const OP_DEPTH: byte := 116
  const OP_DROP: byte := 117
  const OP_DUP: byte := 118
  const OP_NIP: byte := 119
  const OP_OVER: byte := 120
  const OP_PICK: byte := 121
  const OP_ROLL: byte := 122
  const OP_ROT: byte := 123
  const OP_SWAP: byte := 124
  const OP_TUCK: byte := 125
  const OP_CAT: byte := 126
  const OP_RIGHT: byte := 129
  const OP_SIZE: byte := 130
  const OP_INVERT: byte := 131
  const OP_XOR: byte := 134
  const OP_EQUAL: byte := 135
  const OP_EQUALVERIFY: byte := 136
  const OP_1ADD: byte := 139
  const OP_1SUB: byte := 140
  const OP_2MUL: byte := 141
  const OP_2DIV: byte := 142
  const OP_NEGATE: byte := 143
  const OP_ABS: byte := 144
  const OP_NOT: byte := 145
  const OP_0NOTEQUAL: byte := 146
  const OP_ADD: byte := 147
  const OP_SUB: byte := 148
  const OP_MUL: byte := 149
  const OP_RSHIFT: byte := 153
  const OP_BOOLAND: byte := 154
  const OP_BOOLOR: byte := 155
  const OP_NUMEQUAL: byte := 156
  const OP_NUMEQUALVERIFY: byte := 157
  const OP_NUMNOTEQUAL: byte := 158
  const OP_LESSTHAN: byte := 159
  const OP_GREATERTHAN: byte := 160
  const OP_LESSTHANOREQUAL: byte := 161
  const OP_GREATERTHANOREQUAL: byte := 162
  const OP_MIN: byte := 163
  const OP_MAX: byte := 164
  const OP_WITHIN: byte := 165
  const OP_RIPEMD160: byte := 166
  const OP_SHA1: byte := 167
  const OP_SHA256: byte := 168
  const OP_HASH160: byte := 169
  const OP_HASH256: byte := 170
  const OP_CODESEPARATOR: byte := 171
  const OP_CHECKSIG: byte := 172
  const OP_CHECKSIGVERIFY: byte := 173
  const OP_CHECKMULTISIG: byte := 174
  const OP_CHECKMULTISIGVERIFY: byte := 175
  const OP_NOP1: byte := 176
  const OP_NOP10: byte := 185

  const MAX_OPS := 201
  const MAX_ITEM := 520
  const MAX_STACK := 1000
  const MAX_SCRIPT := 10000
  const MAX_NUM_SIZE := 4
  const MAX_KEYS := 20

  type Item = seq<byte>
  type Bytes20 = s: seq<byte> | |s| == 20 witness seq(20, _ => 0)
  type Bytes32 = s: seq<byte> | |s| == 32 witness seq(32, _ => 0)

  /** The hash functions by opcode, and CheckSig on signature, public key and script
      code for the input being checked. */
  datatype Env = Env(hash20: (byte, Item) -> Bytes20, hash32: (byte, Item) -> Bytes32, checkSig: (Item, Item, seq<byte>) -> bool)

  /** code is the script from the last code separator on. */
  datatype State = State(stack: seq<Item>, alt: seq<Item>, nOpCount: nat, code: seq<byte>)

  // ----- values -----

  /** CastToBool: true exactly for the vectors that encode a number other than
      zero, whatever their length. */
  method CastToBool(vch: Item) returns (r: bool)
    ensures r <==> Bignum.SetVch(vch) != 0
  {
    for i := 0 to |vch|
      invariant forall j :: 0 <= j < i ==> vch[j] == 0
    {
      if vch[i] != 0 {
        // A sign bit alone in the last byte is no value.
        r := !(i == |vch| - 1 && vch[i] == 0x80);
        FirstNonZero(vch, i);
        return;
      }
    }
    AllZeroIsZero(vch);
    return false;
  }

  lemma {:induction false} FromLEZero(s: seq<byte>)
    ensures FromLE(s) == 0 <==> forall j :: 0 <= j < |s| ==> s[j] == 0
  {
    if s != [] {
      FromLEZero(s[1..]);
      assert forall j :: 0 < j < |s| ==> s[j] == s[1..][j - 1];
    }
  }

  lemma {:induction false} FirstNonZero(v: Item, i: nat)
    requires i < |v| && v[i] != 0 && forall j :: 0 <= j < i ==> v[j] == 0
    ensures Bignum.SetVch(v) != 0 <==> !(i == |v| - 1 && v[i] == 0x80)
  {
    var m := v[..|v| - 1] + [v[|v| - 1] % 0x80];
    FromLEZero(m);
    assert i < |v| - 1 ==> m[i] == v[i];
    assert m[|v| - 1] == v[|v| - 1] % 0x80;
  }

  lemma {:induction false} AllZeroIsZero(v: Item)
    requires forall j :: 0 <= j < |v| ==> v[j] == 0
    ensures Bignum.SetVch(v) == 0
  {
    if v != [] {
      FromLEZero(v[..|v| - 1] + [v[|v| - 1] % 0x80]);
    }
  }

  predicate True(v: Item) {
    Bignum.SetVch(v) != 0
  }

  function Bool(b: bool): int {
    if b then 1 else 0
  }

  function Flag(b: bool): Item {
    if b then [1] else []
  }

  /** CastToBigNum throws on more than four bytes. */
  predicate IsNum(v: Item) {
    |v| <= MAX_NUM_SIZE
  }

  function Num(v: Item): int {
    Bignum.SetVch(v)
  }

  // ----- stack words -----

  /** The word consumes so many items and leaves the listed ones of them, numbered
      from the deepest. */
  datatype Effect = Effect(inputs: nat, outputs: seq<nat>)

  predicate Shuffles(op: byte) {
    op in {OP_2DROP, OP_2DUP, OP_3DUP, OP_2OVER, OP_2ROT, OP_2SWAP, OP_DROP, OP_DUP, OP_NIP, OP_OVER, OP_ROT, OP_SWAP, OP_TUCK}
  }

  /** The stack comments of the language: (x1 x2 x3 -- x2 x3 x1) and so on. */
  function EffectOf(op: byte): (e: Effect)
    ensures forall k :: 0 <= k < |e.outputs| ==> e.outputs[k] < e.inputs
  {
    if op == OP_2DROP then Effect(2, [])
    else if op == OP_2DUP then Effect(2, [0, 1, 0, 1])
    else if op == OP_3DUP then Effect(3, [0, 1, 2, 0, 1, 2])
    else if op == OP_2OVER then Effect(4, [0, 1, 2, 3, 0, 1])
    else if op == OP_2ROT then Effect(6, [2, 3, 4, 5, 0, 1])
    else if op == OP_2SWAP then Effect(4, [2, 3, 0, 1])
    else if op == OP_DROP then Effect(1, [])
    else if op == OP_DUP then Effect(1, [0, 0])
    else if op == OP_NIP then Effect(2, [1])
    else if op == OP_OVER then Effect(2, [0, 1, 0])
    else if op == OP_ROT then Effect(3, [1, 2, 0])
    else if op == OP_SWAP then Effect(2, [1, 0])
    else Effect(2, [1, 0, 1])
  }

  function Shuffled(stack: seq<Item>, op: byte): (r: Option<seq<Item>>)
  {
    var e := EffectOf(op);
    if |stack| < e.inputs then None else
    var base := |stack| - e.inputs;
    Some(stack[..base] + seq(|e.outputs|, k requires 0 <= k < |e.outputs| => stack[base + e.outputs[k]]))
  }

  function Swap(stack: seq<Item>, i: nat, j: nat): (r: seq<Item>)
    requires 1 <= i <= |stack| && 1 <= j <= |stack|
    ensures |r| == |stack|
  {
    stack[|stack| - i := stack[|stack| - j]][|stack| - j := stack[|stack| - i]]
  }

  lemma {:induction false} OutputsAre(stack: seq<Item>, op: byte, out: seq<Item>, result: seq<Item>)
    requires var e := EffectOf(op);
             && |stack| >= e.inputs && |out| == |e.outputs| && result == stack[..|stack| - e.inputs] + out
             && forall k :: 0 <= k < |out| ==> out[k] == stack[|stack| - e.inputs + e.outputs[k]]
    ensures Shuffled(stack, op) == Some(result)
  {
    assert Shuffled(stack, op).value == result;
  }

  /** The words that copy the top of the stack. */
  method Duplicate(stackIn: seq<Item>, op: byte) returns (ok: bool, stack: seq<Item>)
    requires op in {OP_2DUP, OP_3DUP, OP_DUP}
    ensures Shuffled(stackIn, op) == if ok then Some(stack) else None
  {
    stack := stackIn;
    var n := |stack|;
    if op == OP_2DUP {
      if n < 2 { return false, stack; }
      var vch1, vch2 := stack[n - 2], stack[n - 1];
      stack := stack + [vch1] + [vch2];
      OutputsAre(stackIn, op, [vch1, vch2, vch1, vch2], stack);
    } else if op == OP_3DUP {
      if n < 3 { return false, stack; }
      var vch1, vch2, vch3 := stack[n - 3], stack[n - 2], stack[n - 1];
      stack := stack + [vch1] + [vch2] + [vch3];
      OutputsAre(stackIn, op, [vch1, vch2, vch3, vch1, vch2, vch3], stack);
    } else {
      if n < 1 { return false, stack; }
      var vch := stack[n - 1];
      stack := stack + [vch];
      OutputsAre(stackIn, op, [vch, vch], stack);
    }
    ok := true;
  }

  /** The words that copy from below the top, or to there. */
  method CopyOver(stackIn: seq<Item>, op: byte) returns (ok: bool, stack: seq<Item>)
    requires op in {OP_2OVER, OP_OVER, OP_TUCK}
    ensures Shuffled(stackIn, op) == if ok then Some(stack) else None
  {
    stack := stackIn;
    var n := |stack|;
    if op == OP_2OVER {
      if n < 4 { return false, stack; }
      var vch1, vch2 := stack[n - 4], stack[n - 3];
      stack := stack + [vch1] + [vch2];
      OutputsAre(stackIn, op, stackIn[n - 4..] + [vch1, vch2], stack);
    } else if op == OP_OVER {
      if n < 2 { return false, stack; }
      stack := stack + [stack[n - 2]];
      OutputsAre(stackIn, op, stackIn[n - 2..] + [stackIn[n - 2]], stack);
    } else {
      if n < 2 { return false, stack; }
      stack := stack[..n - 2] + [stack[n - 1]] + stack[n - 2..];
      OutputsAre(stackIn, op, [stackIn[n - 1]] + stackIn[n - 2..], stack);
    }
    ok := true;
  }

  /** The words that drop items. */
  method Drop(stackIn: seq<Item>, op: byte) returns (ok: bool, stack: seq<Item>)
    requires op in {OP_2DROP, OP_DROP, OP_NIP}
    ensures Shuffled(stackIn, op) == if ok then Some(stack) else None
  {
    stack := stackIn;
    var n := |stack|;
    if op == OP_2DROP {
      if n < 2 { return false, stack; }
      stack := stack[..n - 1];
      stack := stack[..n - 2];
      OutputsAre(stackIn, op, [], stack);
    } else if op == OP_DROP {
      if n < 1 { return false, stack; }
      stack := stack[..n - 1];
      OutputsAre(stackIn, op, [], stack);
    } else {
      if n < 2 { return false, stack; }
      stack := stack[..n - 2] + stack[n - 1..];
      OutputsAre(stackIn, op, stackIn[n - 1..], stack);
    }
    ok := true;
  }

  /** The words that move items. */
  method Rearrange(stackIn: seq<Item>, op: byte) returns (ok: bool, stack: seq<Item>)
    requires op in {OP_ROT, OP_SWAP}
    ensures Shuffled(stackIn, op) == if ok then Some(stack) else None
  {
    stack := stackIn;
    var n := |stack|;
    if op == OP_ROT {
      if n < 3 { return false, stack; }
      stack := Swap(stack, 3, 2);
      stack := Swap(stack, 2, 1);
      OutputsAre(stackIn, op, stack[n - 3..], stack);
    } else {
      if n < 2 { return false, stack; }
      stack := Swap(stack, 2, 1);
      OutputsAre(stackIn, op, stack[n - 2..], stack);
    }
    ok := true;
  }

  /** The words that move pairs. */
  method RearrangePairs(stackIn: seq<Item>, op: byte) returns (ok: bool, stack: seq<Item>)
    requires op in {OP_2ROT, OP_2SWAP}
    ensures Shuffled(stackIn, op) == if ok then Some(stack) else None
  {
    stack := stackIn;
    var n := |stack|;
    if op == OP_2ROT {
      if n < 6 { return false, stack; }
      var vch1, vch2 := stack[n - 6], stack[n - 5];
      stack := stack[..n - 6] + stack[n - 4..];
      stack := stack + [vch1] + [vch2];
      OutputsAre(stackIn, op, stackIn[n - 4..] + [vch1, vch2], stack);
    } else {
      if n < 4 { return false, stack; }
      stack := Swap(stack, 4, 2);
      stack := Swap(stack, 3, 1);
      OutputsAre(stackIn, op, stack[n - 4..], stack);
    }
    ok := true;
  }

  // ----- numbers -----

  predicate IsUnary(op: byte) {
    op in {OP_1ADD, OP_1SUB, OP_NEGATE, OP_ABS, OP_NOT, OP_0NOTEQUAL}
  }

  function Unary(op: byte, n: int): int {
    if op == OP_1ADD then n + 1
    else if op == OP_1SUB then n - 1
    else if op == OP_NEGATE then -n
    else if op == OP_ABS then Bignum.Abs(n)
    else if op == OP_NOT then Bool(n == 0)
    else Bool(n != 0)
  }

  predicate IsBinary(op: byte) {
    op == OP_ADD || op == OP_SUB || OP_BOOLAND <= op <= OP_MAX
  }

  function Binary(op: byte, a: int, b: int): int {
    if op == OP_ADD then a + b
    else if op == OP_SUB then a - b
    else if op == OP_BOOLAND then Bool(a != 0 && b != 0)
    else if op == OP_BOOLOR then Bool(a != 0 || b != 0)
    else if op == OP_NUMEQUAL || op == OP_NUMEQUALVERIFY then Bool(a == b)
    else if op == OP_NUMNOTEQUAL then Bool(a != b)
    else if op == OP_LESSTHAN then Bool(a < b)
    else if op == OP_GREATERTHAN then Bool(a > b)
    else if op == OP_LESSTHANOREQUAL then Bool(a <= b)
    else if op == OP_GREATERTHANOREQUAL then Bool(a >= b)
    else if op == OP_MIN then Min(a, b)
    else Max(a, b)
  }

  function Picked(stack: seq<Item>, roll: bool): Option<seq<Item>> {
    var n := |stack|;
    if n < 2 || !IsNum(stack[n - 1]) then None else
    var k := Num(stack[n - 1]);
    if k < 0 || k >= n - 1 then None else
    var at := n - 2 - k;
    Some((if roll then stack[..at] + stack[at + 1..n - 1] else stack[..n - 1]) + [stack[at]])
  }

  /** The outcome of a test: a flag on the stack, or for the verifying form nothing
      on success and failure otherwise. */
  function Tested(verify: bool, good: bool, below: seq<Item>): Option<seq<Item>> {
    if !verify then Some(below + [Flag(good)]) else if good then Some(below) else None
  }

  function Numeric(op: byte, stack: seq<Item>): Option<seq<Item>> {
    var n := |stack|;
    if IsUnary(op) then
      if n < 1 || !IsNum(stack[n - 1]) then None
      else Some(stack[..n - 1] + [Bignum.GetVch(Unary(op, Num(stack[n - 1])))])
    else if IsBinary(op) then
      if n < 2 || !IsNum(stack[n - 2]) || !IsNum(stack[n - 1]) then None
      else
        var r := Binary(op, Num(stack[n - 2]), Num(stack[n - 1]));
        if op == OP_NUMEQUALVERIFY then Tested(true, r != 0, stack[..n - 2])
        else Some(stack[..n - 2] + [Bignum.GetVch(r)])
    else if op == OP_WITHIN then
      if n < 3 || !IsNum(stack[n - 3]) || !IsNum(stack[n - 2]) || !IsNum(stack[n - 1]) then None
      else Tested(false, Num(stack[n - 2]) <= Num(stack[n - 3]) < Num(stack[n - 1]), stack[..n - 3])
    else None
  }

  predicate IsNumeric(op: byte) {
    IsUnary(op) || IsBinary(op) || op == OP_WITHIN
  }

  /** How many numbers the word takes. */
  function Arity(op: byte): nat {
    if IsUnary(op) then 1 else if op == OP_WITHIN then 3 else 2
  }

  /** The word finds all its numbers. */
  predicate HasNumbers(op: byte, stack: seq<Item>) {
    |stack| >= Arity(op) && forall k :: |stack| - Arity(op) <= k < |stack| ==> IsNum(stack[k])
  }

  /** r is 1 or 0, and 1 exactly if p. */
  predicate Says(r: int, p: bool) {
    0 <= r <= 1 && (r == 1 <==> p)
  }

  /** What the result of a numeric word has to do with the numbers it takes, x the deepest. */
  predicate Answers(op: byte, x: int, y: int, z: int, r: int) {
    && (op == OP_1ADD ==> r - x == 1)
    && (op == OP_1SUB ==> x - r == 1)
    && (op == OP_NEGATE ==> r + x == 0)
    && (op == OP_ABS ==> r >= 0 && (r == x || r + x == 0))
    && (op == OP_NOT ==> Says(r, x == 0))
    && (op == OP_0NOTEQUAL ==> Says(r, x != 0))
    && (op == OP_ADD ==> r - y == x)
    && (op == OP_SUB ==> r + y == x)
    && (op == OP_BOOLAND ==> Says(r, !(x == 0 || y == 0)))
    && (op == OP_BOOLOR ==> Says(r, !(x == 0 && y == 0)))
    && (op == OP_NUMEQUAL ==> Says(r, x - y == 0))
    && (op == OP_NUMNOTEQUAL ==> Says(r, x - y != 0))
    && (op == OP_LESSTHAN ==> Says(r, y - x > 0))
    && (op == OP_GREATERTHAN ==> Says(r, x - y > 0))
    && (op == OP_LESSTHANOREQUAL ==> Says(r, y - x >= 0))
    && (op == OP_GREATERTHANOREQUAL ==> Says(r, x - y >= 0))
    && (op == OP_MIN ==> r <= x && r <= y && (r == x || r == y))
    && (op == OP_MAX ==> r >= x && r >= y && (r == x || r == y))
    && (op == OP_WITHIN ==> Says(r, y <= x && x < z))
  }

  lemma {:induction false} NumBound(v: Item)
    requires IsNum(v)
    ensures Bignum.Abs(Num(v)) < 0x8000_0000
  {
    if v != [] {
      var front, top := v[..|v| - 1], v[|v| - 1] % 0x80;
      Pow256Values();
      FromLEBound(front);
      FromLEAppend(front, [top]);
      assert FromLE([top]) == top + 256 * FromLE([top][1..]);
      PowMono(256, |front|, 3);
      BelowTop(FromLE(front), Pow(256, |front|), top);
    }
  }

  lemma {:induction false} BelowTop(low: nat, p: nat, top: nat)
    requires low < p <= 0x100_0000 && top < 0x80
    ensures low + p * top < 0x8000_0000
  {
    assert p * top <= p * 0x7f by { assert p * (0x7f - top) >= 0; }
  }

  lemma {:induction false} NumberFits(n: int)
    requires Bignum.Abs(n) < 0x1_0000_0000
    ensures |Bignum.GetVch(n)| <= 5
  {
    Pow256Values();
    Bignum.MagnitudeFits(Bignum.Abs(n), 4);
  }

  /** The item is the encoding of r: nothing shorter stands for the same number, and five
      bytes are enough. */
  predicate Encodes(v: Item, r: int) {
    Num(v) == r && Bignum.Minimal(v) && |v| <= 5
  }

  lemma {:induction false} EncodingOf(n: int)
    requires Bignum.Abs(n) < 0x1_0000_0000
    ensures Encodes(Bignum.GetVch(n), n)
  {
    Bignum.VchRoundTrip(n);
    Bignum.GetVchMinimal(n);
    NumberFits(n);
  }

  lemma {:induction false} EncodingUnique(v: Item, w: Item, r: int)
    requires Encodes(v, r) && Encodes(w, r)
    ensures v == w
  {
    Bignum.VchCanonical(v);
    Bignum.VchCanonical(w);
  }

  lemma {:induction false} UnaryAnswers(op: byte, x: int, y: int, z: int)
    requires IsUnary(op) && Bignum.Abs(x) < 0x8000_0000
    ensures Answers(op, x, y, z, Unary(op, x)) && Bignum.Abs(Unary(op, x)) < 0x1_0000_0000
  {
  }

  lemma {:induction false} BinaryAnswers(op: byte, x: int, y: int, z: int)
    requires IsBinary(op) && Bignum.Abs(x) < 0x8000_0000 && Bignum.Abs(y) < 0x8000_0000
    ensures Answers(op, x, y, z, Binary(op, x, y)) && Bignum.Abs(Binary(op, x, y)) < 0x1_0000_0000
    ensures op == OP_NUMEQUALVERIFY ==> Says(Binary(op, x, y), x == y)
  {
  }

  lemma {:induction false} FlagEncodes(b: bool)
    ensures Encodes(Flag(b), Bool(b))
  {
    if b {
      assert FromLE([1]) == 1 + 256 * FromLE([1][1..]);
      assert [1][..0] + [1 % 0x80] == [1];
    }
  }

  /** What the numbers of the word are, x the deepest; a missing one counts as 0. */
  function NumberOf(op: byte, stack: seq<Item>, i: nat): int
    requires |stack| >= Arity(op)
  {
    if i < Arity(op) then Num(stack[|stack| - Arity(op) + i]) else 0
  }

  /** A numeric word succeeds exactly if all its numbers are there and have at most four
      bytes, and, for OP_NUMEQUALVERIFY, are equal.  It replaces them by the encoding of
      the number that answers, or for OP_NUMEQUALVERIFY by nothing, and touches nothing
      below them. */
  lemma {:induction false} NumericMeaning(op: byte, stack: seq<Item>)
    requires IsNumeric(op)
    ensures Numeric(op, stack).Some? <==>
            HasNumbers(op, stack) && (op == OP_NUMEQUALVERIFY ==> NumberOf(op, stack, 0) == NumberOf(op, stack, 1))
    ensures Numeric(op, stack).Some? ==>
              var r, base := Numeric(op, stack).value, |stack| - Arity(op);
              if op == OP_NUMEQUALVERIFY then r == stack[..base]
              else && |r| == base + 1 && r[..base] == stack[..base] && Encodes(r[base], Num(r[base]))
                   && Answers(op, NumberOf(op, stack, 0), NumberOf(op, stack, 1), NumberOf(op, stack, 2), Num(r[base]))
  {
    if HasNumbers(op, stack) {
      var x, y, z := NumberOf(op, stack, 0), NumberOf(op, stack, 1), NumberOf(op, stack, 2);
      NumBound(stack[|stack| - Arity(op)]);
      NumBound(stack[|stack| - 1]);
      if IsUnary(op) {
        UnaryAnswers(op, x, y, z);
        EncodingOf(Unary(op, x));
      } else if IsBinary(op) {
        BinaryAnswers(op, x, y, z);
        EncodingOf(Binary(op, x, y));
      } else {
        FlagEncodes(y <= x < z);
      }
    }
  }

  method NumericOp(op: byte, stackIn: seq<Item>) returns (ok: bool, stack: seq<Item>)
    requires IsNumeric(op)
    ensures Numeric(op, stackIn) == if ok then Some(stack) else None
  {
    stack := stackIn;
    var n := |stack|;
    if IsUnary(op) {
      if n < 1 || !IsNum(stack[n - 1]) { return false, stack; }
      var bn := Num(stack[n - 1]);
      stack := stack[..n - 1];
      stack := stack + [Bignum.GetVch(Unary(op, bn))];
    } else if IsBinary(op) {
      if n < 2 || !IsNum(stack[n - 2]) || !IsNum(stack[n - 1]) { return false, stack; }
      var bn1, bn2 := Num(stack[n - 2]), Num(stack[n - 1]);
      var bn := Binary(op, bn1, bn2);
      stack := stack[..n - 2];
      stack := stack + [Bignum.GetVch(bn)];
      if op == OP_NUMEQUALVERIFY {
        Bignum.VchRoundTrip(bn);
        var good := CastToBool(stack[n - 2]);
        if !good { return false, stack; }
        stack := stack[..n - 2];
      }
    } else {
      if n < 3 || !IsNum(stack[n - 3]) || !IsNum(stack[n - 2]) || !IsNum(stack[n - 1]) { return false, stack; }
      var fValue := Num(stack[n - 2]) <= Num(stack[n - 3]) && Num(stack[n - 3]) < Num(stack[n - 1]);
      stack := stack[..n - 3];
      stack := stack + [Flag(fValue)];
    }
    ok := true;
  }

  method PickOrRoll(roll: bool, stackIn: seq<Item>) returns (ok: bool, stack: seq<Item>)
    ensures Picked(stackIn, roll) == if ok then Some(stack) else None
  {
    stack := stackIn;
    if |stack| < 2 || !IsNum(stack[|stack| - 1]) { return false, stack; }
    var n := Num(stack[|stack| - 1]);
    stack := stack[..|stack| - 1];
    if n < 0 || n >= |stack| { return false, stack; }
    var vch := stack[|stack| - n - 1];
    if roll {
      stack := stack[..|stack| - n - 1] + stack[|stack| - n..];
    }
    stack := stack + [vch];
    ok := true;
    assert stack == Picked(stackIn, roll).value;
  }

  /** Rolling changes the order of the items and nothing else. */
  lemma {:induction false} RollPermutes(stack: seq<Item>)
    requires Picked(stack, true).Some?
    ensures multiset(Picked(stack, true).value) == multiset(stack[..|stack| - 1])
  {
    var n := |stack|;
    var at := n - 2 - Num(stack[n - 1]);
    assert stack[..n - 1] == stack[..at] + [stack[at]] + stack[at + 1..n - 1];
  }

  // ----- the other words -----

  predicate IsNumber(op: byte) {
    op == OP_1NEGATE || OP_1 <= op <= OP_16
  }

  predicate IsHash(op: byte) {
    OP_RIPEMD160 <= op <= OP_HASH256
  }

  function HashOf(e: Env, op: byte, v: Item): Item {
    if op == OP_RIPEMD160 || op == OP_SHA1 || op == OP_HASH160 then e.hash20(op, v) else e.hash32(op, v)
  }

  /** Everything that touches only the main stack.  None also for the words that
      always fail and for numbers that are no words. */
  function StackWord(e: Env, op: byte, code: seq<byte>, stack: seq<Item>): Option<seq<Item>> {
    var n := |stack|;
    if IsNumber(op) then Some(stack + [Bignum.GetVch(op - (OP_1 - 1))])
    else if op == OP_NOP || OP_NOP1 <= op <= OP_NOP10 then Some(stack)
    else if Shuffles(op) then Shuffled(stack, op)
    else if IsNumeric(op) then Numeric(op, stack)
    else if op == OP_DEPTH then Some(stack + [Bignum.GetVch(n)])
    else if op == OP_PICK || op == OP_ROLL then Picked(stack, op == OP_ROLL)
    else if op == OP_VERIFY then if n >= 1 && True(stack[n - 1]) then Some(stack[..n - 1]) else None
    else if op == OP_IFDUP then if n >= 1 then Some(if True(stack[n - 1]) then stack + [stack[n - 1]] else stack) else None
    else if op == OP_SIZE then if n >= 1 then Some(stack + [Bignum.GetVch(|stack[n - 1]|)]) else None
    else if IsHash(op) then if n >= 1 then Some(stack[..n - 1] + [HashOf(e, op, stack[n - 1])]) else None
    else if op == OP_EQUAL || op == OP_EQUALVERIFY then
      if n >= 2 then Tested(op == OP_EQUALVERIFY, stack[n - 2] == stack[n - 1], stack[..n - 2]) else None
    else if op == OP_CHECKSIG || op == OP_CHECKSIGVERIFY then
      if n >= 2 then
        var sig := stack[n - 2];
        Tested(op == OP_CHECKSIGVERIFY, e.checkSig(sig, stack[n - 1], Deleted(code, PushData(sig))), stack[..n - 2])
      else None
    else None
  }

  /** The script code without the given signatures. */
  function WithoutSigs(code: seq<byte>, sigs: seq<Item>): seq<byte> {
    if sigs == [] then code else Deleted(WithoutSigs(code, sigs[..|sigs| - 1]), PushData(sigs[|sigs| - 1]))
  }

  function Checker(e: Env, code: seq<byte>): Check {
    (sig, key) => e.checkSig(sig, key, code)
  }

  datatype Counts = Counts(nKeys: nat, nSigs: nat)

  /** The two counts on the stack, with one item below everything they announce:
      OP_CHECKMULTISIG takes one more than it uses. */
  function MultiCounts(stack: seq<Item>, nOpCount: nat): (r: Option<Counts>)
    ensures r.Some? ==> r.value.nSigs <= r.value.nKeys && 3 + r.value.nKeys + r.value.nSigs <= |stack|
  {
    var n := |stack|;
    if n < 1 || !IsNum(stack[n - 1]) then None else
    var nKeys := Num(stack[n - 1]);
    if nKeys < 0 || nKeys > MAX_KEYS || nOpCount + nKeys > MAX_OPS || n < 2 + nKeys then None else
    if !IsNum(stack[n - 2 - nKeys]) then None else
    var nSigs := Num(stack[n - 2 - nKeys]);
    if nSigs < 0 || nSigs > nKeys || n < 3 + nKeys + nSigs then None else Some(Counts(nKeys, nSigs))
  }

  /** Whether the signatures on the stack can be assigned to keys in order. */
  ghost predicate SignedOnStack(e: Env, code: seq<byte>, stack: seq<Item>, c: Counts)
    requires c.nSigs <= c.nKeys && 3 + c.nKeys + c.nSigs <= |stack|
  {
    var sigs := TopDown(stack, 3 + c.nKeys, c.nSigs);
    Signed(Checker(e, WithoutSigs(code, sigs)), sigs, TopDown(stack, 2, c.nKeys))
  }

  ghost function MultiSigWord(e: Env, verify: bool, s: State): Option<State> {
    var c := MultiCounts(s.stack, s.nOpCount);
    if c.None? then None else
    var nKeys, nSigs := c.value.nKeys, c.value.nSigs;
    var r := Tested(verify, SignedOnStack(e, s.code, s.stack, c.value), s.stack[..|s.stack| - (3 + nKeys + nSigs)]);
    if r.None? then None else Some(s.(stack := r.value, nOpCount := s.nOpCount + nKeys))
  }

  /** One instruction, other than the conditional ones, when it is executed. */
  ghost function Exec(e: Env, op: Op, s: State): Option<State> {
    if op.opcode <= OP_PUSHDATA4 then Some(s.(stack := s.stack + [op.data]))
    else if op.opcode == OP_TOALTSTACK then
      var n := |s.stack|;
      if n < 1 then None else Some(s.(stack := s.stack[..n - 1], alt := s.alt + [s.stack[n - 1]]))
    else if op.opcode == OP_FROMALTSTACK then
      var n := |s.alt|;
      if n < 1 then None else Some(s.(stack := s.stack + [s.alt[n - 1]], alt := s.alt[..n - 1]))
    else if op.opcode == OP_CODESEPARATOR then Some(s.(code := op.rest))
    else if op.opcode == OP_CHECKMULTISIG || op.opcode == OP_CHECKMULTISIGVERIFY then
      MultiSigWord(e, op.opcode == OP_CHECKMULTISIGVERIFY, s)
    else
      var r := StackWord(e, op.opcode, s.code, s.stack);
      if r.None? then None else Some(s.(stack := r.value))
  }

  method TestOp(e: Env, op: byte, code: seq<byte>, stackIn: seq<Item>) returns (ok: bool, stack: seq<Item>)
    requires op in {OP_VERIFY, OP_IFDUP, OP_EQUAL, OP_EQUALVERIFY, OP_CHECKSIG, OP_CHECKSIGVERIFY}
    ensures StackWord(e, op, code, stackIn) == if ok then Some(stack) else None
  {
    stack := stackIn;
    var n := |stack|;
    if op == OP_VERIFY {
      if n < 1 { return false, stack; }
      ok := CastToBool(stack[n - 1]);
      if ok {
        stack := stack[..n - 1];
      }
      return;
    } else if op == OP_IFDUP {
      if n < 1 { return false, stack; }
      var vch := stack[n - 1];
      var fValue := CastToBool(vch);
      if fValue {
        stack := stack + [vch];
      }
      return true, stack;
    }
    if n < 2 { return false, stack; }
    if op == OP_EQUAL || op == OP_EQUALVERIFY {
      ok, stack := PushOutcome(op == OP_EQUALVERIFY, stack[n - 2] == stack[n - 1], stack[..n - 2]);
    } else {
      var scriptCode := FindAndDelete(code, PushData(stack[n - 2]));
      var good := e.checkSig(stack[n - 2], stack[n - 1], scriptCode);
      ok, stack := PushOutcome(op == OP_CHECKSIGVERIFY, good, stack[..n - 2]);
    }
  }

  /** Leaves the flag, which the verifying form takes off again. */
  method PushOutcome(verify: bool, good: bool, below: seq<Item>) returns (ok: bool, stack: seq<Item>)
    ensures Tested(verify, good, below) == if ok then Some(stack) else None
  {
    stack := below + [Flag(good)];
    if verify {
      if !good { return false, stack; }
      stack := stack[..|stack| - 1];
    }
    ok := true;
  }

  /** There is no way for a signature to sign itself. */
  lemma {:induction false} OneSigLess(code: seq<byte>, sigs: seq<Item>, k: nat)
    requires k < |sigs|
    ensures WithoutSigs(code, sigs[..k + 1]) == Deleted(WithoutSigs(code, sigs[..k]), PushData(sigs[k]))
  {
    assert sigs[..k + 1][..k] == sigs[..k];
  }

  method DropSignatures(code: seq<byte>, stack: seq<Item>, isig: nat, nSigsCount: nat) returns (scriptCode: seq<byte>)
    requires isig >= 1 && isig + nSigsCount <= |stack| + 1
    ensures scriptCode == WithoutSigs(code, TopDown(stack, isig, nSigsCount))
  {
    ghost var sigs := TopDown(stack, isig, nSigsCount);
    scriptCode := code;
    for k := 0 to nSigsCount
      invariant scriptCode == WithoutSigs(code, sigs[..k])
    {
      OneSigLess(code, sigs, k);
      scriptCode := FindAndDelete(scriptCode, PushData(stack[|stack| - isig - k]));
    }
    assert sigs[..nSigsCount] == sigs;
  }

  method ReadCounts(stack: seq<Item>, nOpCountIn: nat) returns (ok: bool, nOpCount: nat, nKeysCount: nat, nSigsCount: nat)
    ensures MultiCounts(stack, nOpCountIn) == if ok then Some(Counts(nKeysCount, nSigsCount)) else None
    ensures ok ==> nOpCount == nOpCountIn + nKeysCount
  {
    ok, nOpCount, nKeysCount, nSigsCount := false, nOpCountIn, 0, 0;
    var i := 1;
    if |stack| < i || !IsNum(stack[|stack| - i]) { return; }
    var nKeys := Num(stack[|stack| - i]);
    if nKeys < 0 || nKeys > MAX_KEYS { return; }
    nOpCount := nOpCount + nKeys;
    if nOpCount > MAX_OPS { return; }
    i := i + 1 + nKeys;
    if |stack| < i || !IsNum(stack[|stack| - i]) { return; }
    var nSigs := Num(stack[|stack| - i]);
    if nSigs < 0 || nSigs > nKeys { return; }
    i := i + 1 + nSigs;
    if |stack| < i { return; }
    ok, nKeysCount, nSigsCount := true, nKeys, nSigs;
  }

  method CheckMultiSig(e: Env, verify: bool, code: seq<byte>, nOpCountIn: nat, stackIn: seq<Item>, ghost s: State)
    returns (ok: bool, stack: seq<Item>, nOpCount: nat)
    requires s.stack == stackIn && s.nOpCount == nOpCountIn && s.code == code
    ensures MultiSigWord(e, verify, s) == if ok then Some(s.(stack := stack, nOpCount := nOpCount)) else None
  {
    stack := stackIn;
    var nKeysCount, nSigsCount;
    ok, nOpCount, nKeysCount, nSigsCount := ReadCounts(stack, nOpCountIn);
    if !ok { return; }
    var fSuccess := CheckAll(e, code, stack, nKeysCount, nSigsCount);
    ok, stack := PushOutcome(verify, fSuccess, stack[..|stack| - (3 + nKeysCount + nSigsCount)]);
  }

  /** The middle of OP_CHECKMULTISIG. */
  method CheckAll(e: Env, code: seq<byte>, stack: seq<Item>, nKeysCount: nat, nSigsCount: nat) returns (fSuccess: bool)
    requires nSigsCount <= nKeysCount && 3 + nKeysCount + nSigsCount <= |stack|
    ensures fSuccess == SignedOnStack(e, code, stack, Counts(nKeysCount, nSigsCount))
  {
    var ikey := 2;
    var isig := 3 + nKeysCount;
    var scriptCode := DropSignatures(code, stack, isig, nSigsCount);
    fSuccess := ScanSignatures(Checker(e, scriptCode), stack, isig, nSigsCount, ikey, nKeysCount);
  }

  /** The switch of EvalScript, without the conditional words. */
  method ExecuteOp(e: Env, op: Op, stackIn: seq<Item>, altIn: seq<Item>, nOpCountIn: nat, codeIn: seq<byte>)
    returns (ok: bool, stack: seq<Item>, altstack: seq<Item>, nOpCount: nat, code: seq<byte>)
    ensures Exec(e, op, State(stackIn, altIn, nOpCountIn, codeIn))
         == if ok then Some(State(stack, altstack, nOpCount, code)) else None
  {
    stack, altstack, nOpCount, code, ok := stackIn, altIn, nOpCountIn, codeIn, true;
    var n := |stack|;
    var o := op.opcode;
    if o <= OP_PUSHDATA4 {
      stack := stack + [op.data];
    } else if o == OP_TOALTSTACK {
      if n < 1 { ok := false; return; }
      altstack := altstack + [stack[n - 1]];
      stack := stack[..n - 1];
    } else if o == OP_FROMALTSTACK {
      if |altstack| < 1 { ok := false; return; }
      stack := stack + [altstack[|altstack| - 1]];
      altstack := altstack[..|altstack| - 1];
    } else if o == OP_CODESEPARATOR {
      code := op.rest;
    } else if o == OP_CHECKMULTISIG || o == OP_CHECKMULTISIGVERIFY {
      ok, stack, nOpCount := CheckMultiSig(e, o == OP_CHECKMULTISIGVERIFY, code, nOpCount, stack, State(stackIn, altIn, nOpCountIn, codeIn));
    } else {
      ok, stack := ExecuteStackOp(e, o, code, stack);
    }
  }

  method ExecuteStackOp(e: Env, o: byte, code: seq<byte>, stackIn: seq<Item>) returns (ok: bool, stack: seq<Item>)
    ensures StackWord(e, o, code, stackIn) == if ok then Some(stack) else None
  {
    stack, ok := stackIn, true;
    var n := |stack|;
    if IsNumber(o) {
      stack := stack + [Bignum.GetVch(o - (OP_1 - 1))];
    } else if o == OP_NOP || OP_NOP1 <= o <= OP_NOP10 {
    } else if Shuffles(o) {
      if o in {OP_2DUP, OP_3DUP, OP_DUP} {
        ok, stack := Duplicate(stack, o);
      } else if o in {OP_2OVER, OP_OVER, OP_TUCK} {
        ok, stack := CopyOver(stack, o);
      } else if o in {OP_2DROP, OP_DROP, OP_NIP} {
        ok, stack := Drop(stack, o);
      } else if o in {OP_2ROT, OP_2SWAP} {
        ok, stack := RearrangePairs(stack, o);
      } else {
        ok, stack := Rearrange(stack, o);
      }
    } else if IsUnary(o) || IsBinary(o) || o == OP_WITHIN {
      ok, stack := NumericOp(o, stack);
    } else if o == OP_DEPTH {
      stack := stack + [Bignum.GetVch(n)];
    } else if o == OP_PICK || o == OP_ROLL {
      ok, stack := PickOrRoll(o == OP_ROLL, stack);
    } else if o in {OP_VERIFY, OP_IFDUP, OP_EQUAL, OP_EQUALVERIFY, OP_CHECKSIG, OP_CHECKSIGVERIFY} {
      ok, stack := TestOp(e, o, code, stack);
    } else if o == OP_SIZE {
      if n < 1 { return false, stack; }
      stack := stack + [Bignum.GetVch(|stack[n - 1]|)];
    } else if IsHash(o) {
      if n < 1 { return false, stack; }
      var vchHash := HashOf(e, o, stack[n - 1]);
      stack := stack[..n - 1];
      stack := stack + [vchHash];
    } else {
      ok := false;
    }
  }
}
