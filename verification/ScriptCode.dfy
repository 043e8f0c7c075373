/** The bytes of a script: reading one instruction, pushing data and numbers,
    and FindAndDelete. */
module ScriptCode {
  import opened Basics
  import Bignum

  const OP_PUSHDATA1: byte := 76
  const OP_PUSHDATA2: byte := 77
  const OP_PUSHDATA4: byte := 78
  const OP_1NEGATE: byte := 79
  const OP_1: byte := 81
  const OP_16: byte := 96
  const OP_INVALIDOPCODE: byte := 255

  datatype Op = Op(opcode: byte, data: seq<byte>, rest: seq<byte>)

  /** How many bytes after the opcode say how long the data is. */
  function LengthBytes(opcode: byte): nat {
    if opcode == OP_PUSHDATA1 then 1 else if opcode == OP_PUSHDATA2 then 2 else if opcode == OP_PUSHDATA4 then 4 else 0
  }

  /** The first instruction of s, with the bytes that follow it; None at the end
      of the script and on an instruction that runs past it. */
  function ReadOp(s: seq<byte>): (r: Option<Op>)
    ensures r.Some? ==> |r.value.rest| < |s| && r.value.rest == s[|s| - |r.value.rest|..]
  {
    if s == [] then None else
    var k := 1 + LengthBytes(s[0]);
    if s[0] > OP_PUSHDATA4 then Some(Op(s[0], [], s[1..]))
    else if |s| < k then None
    else
      var n := if s[0] < OP_PUSHDATA1 then s[0] else FromLE(s[1..k]);
      if |s| - k < n then None else Some(Op(s[0], s[k..k + n], s[k + n..]))
  }

  /** The bytes of the first instruction. */
  function RawOp(s: seq<byte>): seq<byte>
    requires ReadOp(s).Some?
  {
    s[..|s| - |ReadOp(s).value.rest|]
  }

  lemma {:induction false} OpSplits(s: seq<byte>)
    requires ReadOp(s).Some?
    ensures RawOp(s) + ReadOp(s).value.rest == s
  {
  }

  /** b is the encoding of one instruction. */
  predicate IsInstruction(b: seq<byte>) {
    ReadOp(b).Some? && ReadOp(b).value.rest == []
  }

  /** Reading depends only on the instruction's own bytes. */
  lemma {:induction false} ReadOpLocal(s: seq<byte>, t: seq<byte>)
    requires ReadOp(s).Some?
    ensures ReadOp(RawOp(s) + t) == Some(ReadOp(s).value.(rest := t))
  {
    var r, raw := ReadOp(s).value, RawOp(s);
    var k := 1 + LengthBytes(s[0]);
    assert raw[0] == s[0] && (raw + t)[0] == s[0];
    assert s == raw + r.rest;
    if s[0] > OP_PUSHDATA4 {
      assert (raw + t)[1..] == t;
    } else {
      assert (raw + t)[1..k] == raw[1..k] == s[1..k];
      assert (raw + t)[k..k + |r.data|] == s[k..k + |r.data|];
      assert (raw + t)[k + |r.data|..] == t;
    }
  }

  lemma {:induction false} RawOpIsInstruction(s: seq<byte>)
    requires ReadOp(s).Some?
    ensures IsInstruction(RawOp(s)) && RawOp(s) != []
  {
    ReadOpLocal(s, []);
    assert RawOp(s) + [] == RawOp(s);
  }

  /** How many bytes of data follow the length field of a push. */
  function DataSize(s: seq<byte>): nat
    requires s != [] && |s| >= 1 + LengthBytes(s[0])
  {
    if s[0] < OP_PUSHDATA1 then s[0] else FromLE(s[1..1 + LengthBytes(s[0])])
  }

  lemma {:induction false} OneByte(x: byte)
    ensures FromLE([x]) == x
  {
    assert [x][1..] == [];
  }

  /** The length field of a push at pc. */
  method ReadLength(script: seq<byte>, pcStart: nat) returns (ok: bool, pc: nat, nSize: nat)
    requires pcStart < |script| && script[pcStart] <= OP_PUSHDATA4
    ensures pcStart < pc <= |script|
    ensures var s := script[pcStart..];
            ok == (|s| >= 1 + LengthBytes(s[0])) && (ok ==> pc == pcStart + 1 + LengthBytes(s[0]) && nSize == DataSize(s))
  {
    var opcode := script[pcStart];
    ghost var s := script[pcStart..];
    ok, pc, nSize := true, pcStart + 1, 0;
    if opcode < OP_PUSHDATA1 {
      nSize := opcode;
    } else if opcode == OP_PUSHDATA1 {
      if |script| - pc < 1 {
        return false, pc, nSize;
      }
      nSize := script[pc];
      assert s[1..2] == [script[pc]];
      OneByte(script[pc]);
      pc := pc + 1;
    } else if opcode == OP_PUSHDATA2 {
      if |script| - pc < 2 {
        return false, pc, nSize;
      }
      nSize := FromLE(script[pc..pc + 2]);
      assert s[1..3] == script[pc..pc + 2];
      pc := pc + 2;
    } else {
      if |script| - pc < 4 {
        return false, pc, nSize;
      }
      nSize := FromLE(script[pc..pc + 4]);
      assert s[1..5] == script[pc..pc + 4];
      pc := pc + 4;
    }
  }

  lemma {:induction false} ReadPush(s: seq<byte>, k: nat)
    requires s != [] && s[0] <= OP_PUSHDATA4 && k == 1 + LengthBytes(s[0])
    ensures |s| < k ==> ReadOp(s).None?
    ensures |s| >= k ==> ReadOp(s) == if |s| - k < DataSize(s) then None else Some(Op(s[0], s[k..k + DataSize(s)], s[k + DataSize(s)..]))
  {
  }

  /** CScript::GetOp2.  On failure the opcode is the invalid one, the data is
      cleared, and pc may have moved past a length field. */
  method GetOp2(script: seq<byte>, pcStart: nat) returns (ok: bool, pc: nat, opcodeRet: byte, vchRet: seq<byte>)
    requires pcStart <= |script|
    ensures ok <==> ReadOp(script[pcStart..]).Some?
    ensures ok ==> pcStart < pc <= |script| && Op(opcodeRet, vchRet, script[pc..]) == ReadOp(script[pcStart..]).value
    ensures !ok ==> pcStart <= pc <= |script| && opcodeRet == OP_INVALIDOPCODE && vchRet == []
  {
    pc, opcodeRet, vchRet := pcStart, OP_INVALIDOPCODE, [];
    if pc >= |script| {
      return false, pc, opcodeRet, vchRet;
    }

    ghost var s := script[pcStart..];
    var opcode := script[pc];
    pc := pc + 1;

    if opcode <= OP_PUSHDATA4 {
      ghost var k := 1 + LengthBytes(opcode);
      ReadPush(s, k);
      var nSize: nat;
      ok, pc, nSize := ReadLength(script, pcStart);
      if !ok || |script| - pc < nSize {
        return false, pc, opcodeRet, vchRet;
      }
      vchRet := script[pc..pc + nSize];
      assert s[k..k + nSize] == vchRet;
      DropDrop(script, pcStart, k + nSize);
      pc := pc + nSize;
    }
    opcodeRet := opcode;
    ok := true;
  }

  // ----- pushing -----

  /** CScript::operator<< on a byte vector.  The length field of the longest form
      has 32 bits. */
  function PushData(b: seq<byte>): seq<byte> {
    (if |b| < OP_PUSHDATA1 then [|b|]
     else if |b| <= 0xff then [OP_PUSHDATA1, |b|]
     else if |b| <= 0xffff then [OP_PUSHDATA2] + LE(|b|, 2)
     else [OP_PUSHDATA4] + LE(|b| % 0x1_0000_0000, 4)) + b
  }

  lemma {:induction false} LengthFieldReads(n: nat, k: nat)
    requires n < Pow(256, k)
    ensures FromLE(LE(n, k)) == n && |LE(n, k)| == k
  {
    FromLEOfLE(n, k);
  }

  /** Pushed data comes back through GetOp2, as one instruction. */
  lemma {:induction false} PushDecodes(b: seq<byte>, t: seq<byte>)
    requires |b| <= 0xffff_ffff
    ensures var r := ReadOp(PushData(b) + t);
            r.Some? && r.value.opcode <= OP_PUSHDATA4 && r.value.data == b && r.value.rest == t
  {
    Pow256Values();
    var s := PushData(b) + t;
    var k := 1 + LengthBytes(s[0]);
    if |b| >= OP_PUSHDATA1 {
      LengthFieldReads(|b|, k - 1);
      if |b| <= 0xff {
        assert LE(|b|, 1) == [|b|];
      }
      assert s[1..k] == LE(|b|, k - 1);
    }
    assert s[k..k + |b|] == b && s[k + |b|..] == t;
  }

  /** CScript::push_int64 */
  function PushInt(n: int): seq<byte> {
    if n == -1 || 1 <= n <= 16 then [n + (OP_1 - 1)] else PushData(Bignum.GetVch(n))
  }

  /** The number an instruction leaves on the stack: small numbers are in the
      opcode, others in the data. */
  function NumberPushed(op: Op): int {
    if op.opcode <= OP_PUSHDATA4 then Bignum.SetVch(op.data) else op.opcode - (OP_1 - 1)
  }

  lemma {:induction false} PushIntDecodes(n: int, t: seq<byte>)
    requires |Bignum.GetVch(n)| <= 0xffff_ffff
    ensures var r := ReadOp(PushInt(n) + t); r.Some? && r.value.rest == t && NumberPushed(r.value) == n
  {
    var s := PushInt(n) + t;
    if n == -1 || 1 <= n <= 16 {
      assert s[1..] == t;
    } else {
      PushDecodes(Bignum.GetVch(n), t);
      Bignum.VchRoundTrip(n);
    }
  }

  // ----- FindAndDelete -----

  /** The instructions of a script, as raw bytes, up to the first malformed one. */
  function RawOps(s: seq<byte>): seq<seq<byte>>
    decreases |s|
  {
    if ReadOp(s).None? then [] else [RawOp(s)] + RawOps(ReadOp(s).value.rest)
  }

  /** What is left when no further instruction can be read. */
  function Tail(s: seq<byte>): seq<byte>
    decreases |s|
  {
    if ReadOp(s).None? then s else Tail(ReadOp(s).value.rest)
  }

  function Without(ops: seq<seq<byte>>, b: seq<byte>): seq<seq<byte>> {
    if ops == [] then [] else (if ops[0] == b then [] else [ops[0]]) + Without(ops[1..], b)
  }

  function Joined(ops: seq<seq<byte>>): seq<byte> {
    if ops == [] then [] else ops[0] + Joined(ops[1..])
  }

  /** The script with every instruction equal to b dropped and any malformed tail
      kept. */
  function Delete(s: seq<byte>, b: seq<byte>): seq<byte> {
    Joined(Without(RawOps(s), b)) + Tail(s)
  }

  lemma {:induction false} DeleteStep(s: seq<byte>, b: seq<byte>)
    requires ReadOp(s).Some?
    ensures Delete(s, b) == (if RawOp(s) == b then [] else RawOp(s)) + Delete(ReadOp(s).value.rest, b)
  {
    var rest := ReadOp(s).value.rest;
    var ops := RawOps(rest);
    assert RawOps(s) == [RawOp(s)] + ops && Tail(s) == Tail(rest);
    WithoutCons(RawOp(s), ops, b);
    if RawOp(s) == b {
      assert [] + Delete(rest, b) == Delete(rest, b);
    } else {
      JoinedCons(RawOp(s), Without(ops, b));
      Regroup(RawOp(s), Joined(Without(ops, b)), Tail(rest));
    }
  }

  lemma {:induction false} WithoutCons(x: seq<byte>, ops: seq<seq<byte>>, b: seq<byte>)
    ensures Without([x] + ops, b) == if x == b then Without(ops, b) else [x] + Without(ops, b)
  {
    assert ([x] + ops)[1..] == ops;
  }

  lemma {:induction false} JoinedCons(x: seq<byte>, ops: seq<seq<byte>>)
    ensures Joined([x] + ops) == x + Joined(ops)
  {
    assert ([x] + ops)[1..] == ops;
  }

  /** At an instruction boundary, the bytes match b exactly when the instruction
      there is b. */
  lemma {:induction false} MatchIsInstruction(s: seq<byte>, b: seq<byte>)
    requires IsInstruction(b)
    ensures b <= s <==> ReadOp(s).Some? && RawOp(s) == b
    ensures b <= s ==> ReadOp(s).value.rest == s[|b|..]
  {
    if b <= s {
      ReadOpLocal(b, s[|b|..]);
      assert RawOp(b) == b;
      assert b + s[|b|..] == s;
    }
    if ReadOp(s).Some? && RawOp(s) == b {
      assert s[..|b|] == b;
    }
  }

  /** s after erasing b at its front for as long as it matches. */
  function Stripped(s: seq<byte>, b: seq<byte>): (r: seq<byte>)
    requires b != []
    ensures |r| <= |s| && !(b <= r)
    decreases |s|
  {
    if b <= s then Stripped(s[|b|..], b) else s
  }

  /** What FindAndDelete leaves of s, for any b. */
  function Deleted(s: seq<byte>, b: seq<byte>): seq<byte>
    requires b != []
    decreases |s|
  {
    var t := Stripped(s, b);
    if ReadOp(t).None? then t else RawOp(t) + Deleted(ReadOp(t).value.rest, b)
  }

  /** The inner loop of FindAndDelete. */
  method EraseMatches(scriptIn: seq<byte>, pc: nat, b: seq<byte>) returns (script: seq<byte>)
    requires b != [] && pc <= |scriptIn|
    ensures script == scriptIn[..pc] + Stripped(scriptIn[pc..], b)
  {
    script := scriptIn;
    while |script| - pc >= |b| && script[pc..pc + |b|] == b
      invariant pc <= |script| && script[..pc] == scriptIn[..pc]
      invariant Stripped(script[pc..], b) == Stripped(scriptIn[pc..], b)
      decreases |script|
    {
      ghost var s := script[pc..];
      assert s[..|b|] == b;
      script := script[..pc] + script[pc + |b|..];
      assert script[pc..] == s[|b|..];
    }
    assert |script| - pc >= |b| ==> script[pc..][..|b|] == script[pc..pc + |b|];
  }

  lemma {:induction false} SplitAt(script: seq<byte>, pc: nat, next: nat)
    requires pc < next <= |script|
    ensures script[..next] == script[..pc] + script[pc..][..|script[pc..]| - |script[next..]|]
  {
  }

  lemma {:induction false} DeletedStep(script: seq<byte>, pc: nat, next: nat, b: seq<byte>)
    requires b != [] && pc < next <= |script| && !(b <= script[pc..])
    requires ReadOp(script[pc..]).Some? && ReadOp(script[pc..]).value.rest == script[next..]
    ensures script[..pc] + Deleted(script[pc..], b) == script[..next] + Deleted(script[next..], b)
  {
    var s := script[pc..];
    assert Stripped(s, b) == s;
    assert Deleted(s, b) == RawOp(s) + Deleted(script[next..], b);
    SplitAt(script, pc, next);
    Regroup(script[..pc], RawOp(s), Deleted(script[next..], b));
  }

  lemma {:induction false} DeletedStripped(s: seq<byte>, b: seq<byte>)
    requires b != []
    ensures Deleted(Stripped(s, b), b) == Deleted(s, b)
  {
    assert Stripped(Stripped(s, b), b) == Stripped(s, b);
  }

  /** CScript::FindAndDelete.  It terminates on every input. */
  method FindAndDelete(scriptIn: seq<byte>, b: seq<byte>) returns (script: seq<byte>)
    ensures script == if b == [] then scriptIn else Deleted(scriptIn, b)
  {
    script := scriptIn;
    if b == [] {
      return;
    }
    var pc: nat := 0;
    var more := true;
    while more
      invariant pc <= |script|
      invariant Deleted(scriptIn, b) == script[..pc] + if more then Deleted(script[pc..], b) else script[pc..]
      decreases more, |script| - pc
    {
      DeletedStripped(script[pc..], b);
      ghost var t := Stripped(script[pc..], b);
      script := EraseMatches(script, pc, b);
      assert script[pc..] == t;
      var next, opcode, vch;
      more, next, opcode, vch := GetOp2(script, pc);
      if more {
        DeletedStep(script, pc, next, b);
        pc := next;
      }
    }
    assert script[..pc] + script[pc..] == script;
  }

  /** When b encodes one instruction, FindAndDelete drops exactly the instructions
      equal to b: nothing inside pushed data, and nothing of a malformed tail. */
  lemma {:induction false} DeletedDropsInstructions(s: seq<byte>, b: seq<byte>)
    requires IsInstruction(b)
    ensures Deleted(s, b) == Delete(s, b)
    decreases |s|
  {
    MatchIsInstruction(s, b);
    if b <= s {
      DeleteStep(s, b);
      DeletedDropsInstructions(s[|b|..], b);
    } else if ReadOp(s).Some? {
      DeleteStep(s, b);
      DeletedDropsInstructions(ReadOp(s).value.rest, b);
    }
  }

  /** Deleting a signature from a script, as the signature words do, drops exactly the
      instructions that push it in the form of operator<<. */
  lemma {:induction false} SignatureDropped(s: seq<byte>, sig: seq<byte>)
    requires |sig| <= 0xffff_ffff
    ensures Deleted(s, PushData(sig)) == Delete(s, PushData(sig))
  {
    PushDecodes(sig, []);
    assert PushData(sig) + [] == PushData(sig);
    DeletedDropsInstructions(s, PushData(sig));
  }

  // ----- properties of deletion -----

  lemma {:induction false} RawOpsOfJoin(ops: seq<seq<byte>>, tail: seq<byte>)
    requires Instructions(ops)
    requires ReadOp(tail).None?
    ensures RawOps(Joined(ops) + tail) == ops && Tail(Joined(ops) + tail) == tail
  {
    if ops == [] {
      assert Joined(ops) + tail == tail;
    } else {
      var more := Joined(ops[1..]) + tail;
      Regroup(ops[0], Joined(ops[1..]), tail);
      ReadJoined(ops[0], more);
      RawOpsOfJoin(ops[1..], tail);
      assert [ops[0]] + ops[1..] == ops;
    }
  }

  lemma {:induction false} ReadJoined(op: seq<byte>, more: seq<byte>)
    requires IsInstruction(op)
    ensures ReadOp(op + more).Some? && RawOp(op + more) == op && ReadOp(op + more).value.rest == more
  {
    ReadOpLocal(op, more);
    assert RawOp(op) == op;
  }

  predicate Instructions(ops: seq<seq<byte>>) {
    forall k :: 0 <= k < |ops| ==> IsInstruction(ops[k]) && ops[k] != []
  }

  /** A script is its instructions followed by its tail. */
  lemma {:induction false} RawOpsMakeScript(s: seq<byte>)
    ensures ReadOp(Tail(s)).None? && Joined(RawOps(s)) + Tail(s) == s
    decreases |s|
  {
    if ReadOp(s).Some? {
      var rest := ReadOp(s).value.rest;
      OpSplits(s);
      RawOpsMakeScript(rest);
      JoinedCons(RawOp(s), RawOps(rest));
      Regroup(RawOp(s), Joined(RawOps(rest)), Tail(rest));
    }
  }

  lemma {:induction false} RawOpsAreInstructions(s: seq<byte>)
    ensures Instructions(RawOps(s))
    decreases |s|
  {
    if ReadOp(s).Some? {
      RawOpIsInstruction(s);
      RawOpsAreInstructions(ReadOp(s).value.rest);
    }
  }

  lemma {:induction false} WithoutKeeps(ops: seq<seq<byte>>, b: seq<byte>)
    ensures b !in Without(ops, b) && forall x :: x in Without(ops, b) ==> x in ops
    ensures b !in ops ==> Without(ops, b) == ops
  {
    if ops != [] {
      WithoutKeeps(ops[1..], b);
      assert ops == [ops[0]] + ops[1..];
    }
  }

  /** Deleting leaves a script whose instructions are the old ones other than b,
      with the old tail; so deleting again changes nothing. */
  lemma {:induction false} DeleteIdempotent(s: seq<byte>, b: seq<byte>)
    ensures RawOps(Delete(s, b)) == Without(RawOps(s), b) && Tail(Delete(s, b)) == Tail(s)
    ensures Delete(Delete(s, b), b) == Delete(s, b)
  {
    RawOpsMakeScript(s);
    RawOpsAreInstructions(s);
    WithoutKeeps(RawOps(s), b);
    var ops := Without(RawOps(s), b);
    forall k | 0 <= k < |ops|
      ensures IsInstruction(ops[k]) && ops[k] != []
    {
      assert ops[k] in RawOps(s);
    }
    RawOpsOfJoin(ops, Tail(s));
    WithoutKeeps(ops, b);
  }
}
