/** What scripts mean that people write: the standard payments, a conditional, and the stack
    words in terms of PICK and ROLL. */
module ScriptLaws {
  import opened Basics
  import Bignum
  import opened ScriptCode
  import opened MultiSig
  import opened ScriptMachine
  import opened EvalScript

  // ----- one instruction at a time -----

  /** An instruction outside any conditional. */
  lemma {:induction false} PlainRuns(e: Env, op: Op, left: seq<byte>, s: State)
    requires left != [] && ReadOp(left) == Some(op) && !Opens(op) && !Continues(op)
    ensures Onwards(e, left, [], s) ==
            var t := Plainly(e, op, true, s); if t.None? then None else Onwards(e, op.rest, [], t.value)
  {
    OnwardsStep(e, left, [], s);
    assert Live([]);
  }

  predicate Holds(s: State) {
    |s.stack| + |s.alt| < MAX_STACK
  }

  lemma {:induction false} PushRuns(e: Env, b: Item, t: seq<byte>, s: State)
    requires |b| <= 0xffff_ffff && StackFits(s)
    ensures Onwards(e, PushData(b) + t, [], s) ==
            if |b| <= MAX_ITEM && Holds(s) then Onwards(e, t, [], s.(stack := s.stack + [b])) else None
  {
    PushDecodes(b, t);
    var op := ReadOp(PushData(b) + t).value;
    PlainRuns(e, op, PushData(b) + t, s);
    PushPlainly(e, op, s);
  }

  lemma {:induction false} PushPlainly(e: Env, op: Op, s: State)
    requires op.opcode <= OP_PUSHDATA4 && StackFits(s)
    ensures Plainly(e, op, true, s) == if |op.data| <= MAX_ITEM && Holds(s) then Some(s.(stack := s.stack + [op.data])) else None
  {
  }

  /** A word that is executed and counted. */
  predicate IsWord(o: byte) {
    o > OP_16 && !(OP_IF <= o <= OP_ENDIF) && !Disabled(o)
  }

  lemma {:induction false} WordRuns(e: Env, o: byte, t: seq<byte>, s: State)
    requires IsWord(o)
    ensures Onwards(e, [o] + t, [], s) ==
            if s.nOpCount + 1 > MAX_OPS then None else
            var x := Exec(e, Op(o, [], t), s.(nOpCount := s.nOpCount + 1));
            if x.None? || !StackFits(x.value) then None else Onwards(e, t, [], x.value)
  {
    assert ([o] + t)[1..] == t;
    PlainRuns(e, Op(o, [], t), [o] + t, s);
    WordPlainly(e, Op(o, [], t), s);
  }

  lemma {:induction false} WordPlainly(e: Env, op: Op, s: State)
    requires IsWord(op.opcode) && op.data == []
    ensures Plainly(e, op, true, s) ==
            if s.nOpCount + 1 > MAX_OPS then None else
            var x := Exec(e, op, s.(nOpCount := s.nOpCount + 1));
            if x.None? || !StackFits(x.value) then None else x
  {
  }

  lemma {:induction false} EndRuns(e: Env, s: State)
    ensures Onwards(e, [], [], s) == Some(s)
  {
  }

  // ----- a signature by a key -----

  // Single words, on a stack that ends in what they take.

  lemma {:induction false} DupRuns(e: Env, t: seq<byte>, s: State, below: seq<Item>, x: Item)
    requires s.stack == below + [x] && Holds(s) && s.nOpCount < MAX_OPS
    ensures Onwards(e, [OP_DUP] + t, [], s) == Onwards(e, t, [], s.(stack := below + [x, x], nOpCount := s.nOpCount + 1))
  {
    WordRuns(e, OP_DUP, t, s);
    OutputsAre(s.stack, OP_DUP, [x, x], below + [x, x]);
  }

  lemma {:induction false} HashRuns(e: Env, t: seq<byte>, s: State, below: seq<Item>, x: Item)
    requires s.stack == below + [x] && StackFits(s) && s.nOpCount < MAX_OPS
    ensures Onwards(e, [OP_HASH160] + t, [], s)
         == Onwards(e, t, [], s.(stack := below + [e.hash20(OP_HASH160, x)], nOpCount := s.nOpCount + 1))
  {
    WordRuns(e, OP_HASH160, t, s);
    assert s.stack[..|s.stack| - 1] == below;
  }

  lemma {:induction false} EqualVerifyRuns(e: Env, t: seq<byte>, s: State, below: seq<Item>, x: Item, y: Item)
    requires s.stack == below + [x, y] && StackFits(s) && s.nOpCount < MAX_OPS
    ensures Onwards(e, [OP_EQUALVERIFY] + t, [], s)
         == if x == y then Onwards(e, t, [], s.(stack := below, nOpCount := s.nOpCount + 1)) else None
  {
    WordRuns(e, OP_EQUALVERIFY, t, s);
    assert s.stack[..|s.stack| - 2] == below;
  }

  /** The signature lies below the key, and signs the code without itself. */
  lemma {:induction false} CheckSigWord(e: Env, s: State, below: seq<Item>, sig: Item, key: Item, rest: seq<byte>)
    requires s.stack == below + [sig, key]
    ensures Exec(e, Op(OP_CHECKSIG, [], rest), s)
         == Some(s.(stack := below + [Flag(e.checkSig(sig, key, Deleted(s.code, PushData(sig))))]))
  {
    assert s.stack[..|s.stack| - 2] == below;
  }

  lemma {:induction false} CheckSigRuns(e: Env, t: seq<byte>, s: State, below: seq<Item>, sig: Item, key: Item)
    requires s.stack == below + [sig, key] && StackFits(s) && s.nOpCount < MAX_OPS
    ensures Onwards(e, [OP_CHECKSIG] + t, [], s)
         == Onwards(e, t, [], s.(stack := below + [Flag(e.checkSig(sig, key, Deleted(s.code, PushData(sig))))], nOpCount := s.nOpCount + 1))
  {
    WordRuns(e, OP_CHECKSIG, t, s);
    CheckSigWord(e, s.(nOpCount := s.nOpCount + 1), below, sig, key, t);
  }

  // ----- a signature by a key -----

  lemma {:induction false} FlagIsTrue(b: bool)
    ensures True(Flag(b)) <==> b
  {
    FlagEncodes(b);
  }

  lemma {:induction false} PushSize(b: Item)
    ensures |b| < |PushData(b)| <= |b| + 5
  {
  }

  /** What the owner of a key signs with. */
  function SigScript(sig: Item, key: Item): seq<byte> {
    PushData(sig) + (PushData(key) + [])
  }

  lemma {:induction false} SigScriptLeaves(e: Env, sig: Item, key: Item)
    requires |sig| <= 0xffff_ffff && |key| <= 0xffff_ffff
    ensures Evaluate(e, SigScript(sig, key), []) == if |sig| <= MAX_ITEM && |key| <= MAX_ITEM then Some([sig, key]) else None
  {
    var s := State([], [], 0, SigScript(sig, key));
    EvaluateIsRun(e, SigScript(sig, key), []);
    TwoPushes(e, sig, key, s);
    PushSize(sig);
    PushSize(key);
  }

  lemma {:induction false} TwoPushes(e: Env, sig: Item, key: Item, s: State)
    requires |sig| <= 0xffff_ffff && |key| <= 0xffff_ffff && s.stack == [] && s.alt == []
    ensures Onwards(e, SigScript(sig, key), [], s) ==
            if |sig| <= MAX_ITEM && |key| <= MAX_ITEM then Some(s.(stack := [sig, key])) else None
  {
    PushRuns(e, sig, PushData(key) + [], s);
    var t := s.(stack := [] + [sig]);
    PushRuns(e, key, [], t);
    EndRuns(e, t.(stack := t.stack + [key]));
    assert [] + [sig] + [key] == [sig, key];
  }

  /** Pay to a key hash. */
  function KeyHashScript(h: Item): seq<byte> {
    [OP_DUP] + HashTail(h)
  }

  function HashTail(h: Item): seq<byte> {
    [OP_HASH160] + (PushData(h) + VerifyTail())
  }

  function VerifyTail(): seq<byte> {
    [OP_EQUALVERIFY] + ([OP_CHECKSIG] + [])
  }

  lemma {:induction false} VerifyTailRuns(e: Env, below: seq<Item>, sig: Item, key: Item, x: Item, h: Item, s: State)
    requires below == [] + [sig, key] && s.stack == below + [x, h] && s.alt == [] && s.nOpCount == 2
    ensures Onwards(e, VerifyTail(), [], s) ==
            if x == h then Some(s.(stack := [] + [Flag(e.checkSig(sig, key, Deleted(s.code, PushData(sig))))], nOpCount := 4)) else None
  {
    EqualVerifyRuns(e, [OP_CHECKSIG] + [], s, below, x, h);
    var t := s.(stack := below, nOpCount := 3);
    CheckSigRuns(e, [], t, [], sig, key);
    EndRuns(e, t.(stack := [] + [Flag(e.checkSig(sig, key, Deleted(s.code, PushData(sig))))], nOpCount := 4));
  }

  lemma {:induction false} HashTailRuns(e: Env, below: seq<Item>, sig: Item, key: Item, h: Item, s: State)
    requires |h| <= 0xffff_ffff && below == [] + [sig, key] && s.stack == below + [key] && s.alt == [] && s.nOpCount == 1
    ensures Onwards(e, HashTail(h), [], s) ==
            if e.hash20(OP_HASH160, key) == h
            then Some(s.(stack := [] + [Flag(e.checkSig(sig, key, Deleted(s.code, PushData(sig))))], nOpCount := 4)) else None
  {
    var x: Item := e.hash20(OP_HASH160, key);
    HashRuns(e, PushData(h) + VerifyTail(), s, below, key);
    var t := s.(stack := below + [x], nOpCount := 2);
    PushRuns(e, h, VerifyTail(), t);
    assert (below + [x]) + [h] == below + [x, h];
    VerifyTailRuns(e, below, sig, key, x, h, t.(stack := below + [x, h]));
  }

  lemma {:induction false} KeyHashRuns(e: Env, h: Item, sig: Item, key: Item, s: State)
    requires |h| <= 0xffff_ffff && s.stack == [] + [sig, key] && s.alt == [] && s.nOpCount == 0
    ensures Onwards(e, KeyHashScript(h), [], s) ==
            if e.hash20(OP_HASH160, key) == h
            then Some(s.(stack := [] + [Flag(e.checkSig(sig, key, Deleted(s.code, PushData(sig))))], nOpCount := 4)) else None
  {
    assert s.stack == [sig] + [key] && [sig] + [key, key] == s.stack + [key];
    DupRuns(e, HashTail(h), s, [sig], key);
    HashTailRuns(e, s.stack, sig, key, h, s.(stack := s.stack + [key], nOpCount := 1));
  }

  lemma {:induction false} KeyHashLeaves(e: Env, h: Item, sig: Item, key: Item)
    requires |h| <= 0xffff_ffff
    ensures Evaluate(e, KeyHashScript(h), [sig, key]) ==
            if e.hash20(OP_HASH160, key) == h
            then Some([] + [Flag(e.checkSig(sig, key, Deleted(KeyHashScript(h), PushData(sig))))]) else None
  {
    assert [] + [sig, key] == [sig, key];
    EvaluateIsRun(e, KeyHashScript(h), [sig, key]);
    KeyHashRuns(e, h, sig, key, State([sig, key], [], 0, KeyHashScript(h)));
    PushSize(h);
  }

  /** A payment to a key hash is redeemed by a signature and a key exactly if the key has
      that hash and the signature checks under it, for the script without any push of the
      signature. */
  lemma {:induction false} PayToKeyHash(e: Env, h: Item, sig: Item, key: Item)
    requires |h| <= 0xffff_ffff && |sig| <= 0xffff_ffff && |key| <= 0xffff_ffff
    ensures Verifies(e, SigScript(sig, key), KeyHashScript(h)) <==>
            && |sig| <= MAX_ITEM && |key| <= MAX_ITEM && e.hash20(OP_HASH160, key) == h
            && e.checkSig(sig, key, Deleted(KeyHashScript(h), PushData(sig)))
  {
    SigScriptLeaves(e, sig, key);
    KeyHashLeaves(e, h, sig, key);
    FlagIsTrue(e.checkSig(sig, key, Deleted(KeyHashScript(h), PushData(sig))));
  }

  // ----- signatures by some of several keys -----

  /** Pushes the items one after another, and goes on with t. */
  function Pushes(items: seq<Item>, t: seq<byte>): seq<byte> {
    if items == [] then t else PushData(items[0]) + Pushes(items[1..], t)
  }

  ghost predicate Fit(items: seq<Item>) {
    forall k :: 0 <= k < |items| ==> |items[k]| <= MAX_ITEM
  }

  lemma {:induction false} PushesRun(e: Env, items: seq<Item>, t: seq<byte>, s: State)
    requires Fit(items) && |s.stack| + |items| + |s.alt| <= MAX_STACK
    ensures Onwards(e, Pushes(items, t), [], s) == Onwards(e, t, [], s.(stack := s.stack + items))
    decreases |items|
  {
    if items == [] {
      assert s.stack + items == s.stack;
    } else {
      var x, more := items[0], items[1..];
      assert items == [x] + more;
      Regroup(s.stack, [x], more);
      PushRuns(e, x, Pushes(more, t), s);
      PushesRun(e, more, t, s.(stack := s.stack + [x]));
    }
  }

  /** A count of keys is one byte, or none. */
  lemma {:induction false} CountIsNum(n: nat)
    requires n <= MAX_KEYS
    ensures IsNum(Bignum.GetVch(n)) && Num(Bignum.GetVch(n)) == n
  {
    Pow256Values();
    Bignum.MagnitudeFits(n, 1);
    Bignum.VchRoundTrip(n);
  }

  lemma {:induction false} CountRuns(e: Env, n: nat, t: seq<byte>, s: State)
    requires n <= MAX_KEYS && Holds(s)
    ensures Onwards(e, PushInt(n) + t, [], s) == Onwards(e, t, [], s.(stack := s.stack + [Bignum.GetVch(n)]))
  {
    if 1 <= n <= 16 {
      SmallRuns(e, n + (OP_1 - 1), t, s);
    } else {
      CountIsNum(n);
      PushRuns(e, Bignum.GetVch(n), t, s);
    }
  }

  lemma {:induction false} SmallRuns(e: Env, o: byte, t: seq<byte>, s: State)
    requires OP_1 <= o <= OP_16 && Holds(s)
    ensures Onwards(e, [o] + t, [], s) == Onwards(e, t, [], s.(stack := s.stack + [Bignum.GetVch(o - (OP_1 - 1))]))
  {
    assert ([o] + t)[1..] == t;
    PlainRuns(e, Op(o, [], t), [o] + t, s);
    SmallPlainly(e, Op(o, [], t), s);
  }

  lemma {:induction false} SmallPlainly(e: Env, op: Op, s: State)
    requires OP_1 <= op.opcode <= OP_16 && op.data == [] && Holds(s)
    ensures Plainly(e, op, true, s) == Some(s.(stack := s.stack + [Bignum.GetVch(op.opcode - (OP_1 - 1))]))
  {
  }

  /** What OP_CHECKMULTISIG finds on the stack. */
  ghost predicate MultiSigStack(stack: seq<Item>, below: seq<Item>, dummy: Item, sigs: seq<Item>, keys: seq<Item>) {
    && |sigs| <= |keys| <= MAX_KEYS
    && stack == below + [dummy] + sigs + [Bignum.GetVch(|sigs|)] + keys + [Bignum.GetVch(|keys|)]
  }

  lemma {:induction false} MultiSigParts(stack: seq<Item>, below: seq<Item>, dummy: Item, sigs: seq<Item>, keys: seq<Item>)
    requires MultiSigStack(stack, below, dummy, sigs, keys)
    ensures |stack| == |below| + |sigs| + |keys| + 3 && stack[..|below|] == below
    ensures stack[|stack| - 1] == Bignum.GetVch(|keys|) && stack[|stack| - 2 - |keys|] == Bignum.GetVch(|sigs|)
    ensures TopDown(stack, 3 + |keys|, |sigs|) == Reverse(sigs) && TopDown(stack, 2, |keys|) == Reverse(keys)
  {
  }

  lemma {:induction false} CountsFound(stack: seq<Item>, below: seq<Item>, dummy: Item, sigs: seq<Item>, keys: seq<Item>, nOpCount: nat)
    requires MultiSigStack(stack, below, dummy, sigs, keys) && nOpCount + |keys| <= MAX_OPS
    ensures MultiCounts(stack, nOpCount) == Some(Counts(|keys|, |sigs|))
  {
    MultiSigParts(stack, below, dummy, sigs, keys);
    CountIsNum(|keys|);
    CountIsNum(|sigs|);
  }

  /** The signatures can be assigned in order to keys under which they check, for the code
      without any push of one of them. */
  ghost predicate SignedBy(e: Env, code: seq<byte>, sigs: seq<Item>, keys: seq<Item>) {
    Signed(Checker(e, WithoutSigs(code, Reverse(sigs))), sigs, keys)
  }

  lemma {:induction false} SignedOnIt(e: Env, code: seq<byte>, stack: seq<Item>, below: seq<Item>, dummy: Item, sigs: seq<Item>, keys: seq<Item>)
    requires MultiSigStack(stack, below, dummy, sigs, keys)
    ensures 3 + |keys| + |sigs| <= |stack|
    ensures SignedOnStack(e, code, stack, Counts(|keys|, |sigs|)) <==> SignedBy(e, code, sigs, keys)
  {
    MultiSigParts(stack, below, dummy, sigs, keys);
    SignedReverse(Checker(e, WithoutSigs(code, Reverse(sigs))), sigs, keys);
  }

  /** The signatures and the keys lie in order, the keys on top; the item below them all is
      taken too. */
  lemma {:induction false} MultiSigLeaves(e: Env, s: State, below: seq<Item>, dummy: Item, sigs: seq<Item>, keys: seq<Item>, good: bool, x: State)
    requires MultiSigStack(s.stack, below, dummy, sigs, keys) && s.nOpCount + |keys| <= MAX_OPS
    requires good <==> SignedBy(e, s.code, sigs, keys)
    requires x == s.(stack := below + [Flag(good)], nOpCount := s.nOpCount + |keys|)
    ensures MultiSigWord(e, false, s) == Some(x)
  {
    CountsFound(s.stack, below, dummy, sigs, keys, s.nOpCount);
    SignedOnIt(e, s.code, s.stack, below, dummy, sigs, keys);
    MultiSigParts(s.stack, below, dummy, sigs, keys);
    MultiSigWordIs(e, s, Counts(|keys|, |sigs|), below, good, x);
  }

  lemma {:induction false} MultiSigWordIs(e: Env, s: State, c: Counts, below: seq<Item>, good: bool, x: State)
    requires MultiCounts(s.stack, s.nOpCount) == Some(c) && (SignedOnStack(e, s.code, s.stack, c) <==> good)
    requires |below| == |s.stack| - (3 + c.nKeys + c.nSigs) && s.stack[..|below|] == below
    requires x == s.(stack := below + [Flag(good)], nOpCount := s.nOpCount + c.nKeys)
    ensures MultiSigWord(e, false, s) == Some(x)
  {
  }

  /** The keys of which as many as m have to sign, and how they sign. */
  function MultiSigScript(m: nat, keys: seq<Item>): seq<byte> {
    PushInt(m) + Pushes(keys, PushInt(|keys|) + ([OP_CHECKMULTISIG] + []))
  }

  function MultiSigSigs(sigs: seq<Item>): seq<byte> {
    Pushes([[]] + sigs, [])
  }

  lemma {:induction false} MultiSigRuns(e: Env, sigs: seq<Item>, keys: seq<Item>, s: State, good: bool)
    requires |sigs| <= |keys| <= MAX_KEYS && Fit(keys) && s.stack == [] + [[]] + sigs && s.alt == [] && s.nOpCount == 0
    requires good <==> SignedBy(e, s.code, sigs, keys)
    ensures Onwards(e, MultiSigScript(|sigs|, keys), [], s) == Some(s.(stack := [] + [Flag(good)], nOpCount := |keys| + 1))
  {
    var last := [OP_CHECKMULTISIG] + [];
    var t := s.(stack := s.stack + [Bignum.GetVch(|sigs|)]);
    CountRuns(e, |sigs|, Pushes(keys, PushInt(|keys|) + last), s);
    KeysRun(e, sigs, keys, t, good);
  }

  lemma {:induction false} KeysRun(e: Env, sigs: seq<Item>, keys: seq<Item>, t: State, good: bool)
    requires |sigs| <= |keys| <= MAX_KEYS && Fit(keys) && t.stack == [] + [[]] + sigs + [Bignum.GetVch(|sigs|)] && t.alt == [] && t.nOpCount == 0
    requires good <==> SignedBy(e, t.code, sigs, keys)
    ensures Onwards(e, Pushes(keys, PushInt(|keys|) + ([OP_CHECKMULTISIG] + [])), [], t)
         == Some(t.(stack := [] + [Flag(good)], nOpCount := |keys| + 1))
  {
    var last := [OP_CHECKMULTISIG] + [];
    PushesRun(e, keys, PushInt(|keys|) + last, t);
    var u := t.(stack := t.stack + keys);
    CountRuns(e, |keys|, last, u);
    MultiSigLast(e, sigs, keys, u.(stack := u.stack + [Bignum.GetVch(|keys|)]), good);
  }

  lemma {:induction false} MultiSigLast(e: Env, sigs: seq<Item>, keys: seq<Item>, v: State, good: bool)
    requires MultiSigStack(v.stack, [], [], sigs, keys) && v.alt == [] && v.nOpCount == 0
    requires good <==> SignedBy(e, v.code, sigs, keys)
    ensures Onwards(e, [OP_CHECKMULTISIG] + [], [], v) == Some(v.(stack := [] + [Flag(good)], nOpCount := |keys| + 1))
  {
    var x := v.(stack := [] + [Flag(good)], nOpCount := |keys| + 1);
    MultiSigTurn(e, [], v, [], [], sigs, keys, good, x);
    EndRuns(e, x);
  }

  lemma {:induction false} MultiSigTurn(e: Env, t: seq<byte>, v: State, below: seq<Item>, dummy: Item, sigs: seq<Item>, keys: seq<Item>,
                                        good: bool, x: State)
    requires MultiSigStack(v.stack, below, dummy, sigs, keys) && v.nOpCount + 1 + |keys| <= MAX_OPS
    requires good <==> SignedBy(e, v.code, sigs, keys)
    requires x == v.(stack := below + [Flag(good)], nOpCount := v.nOpCount + 1 + |keys|) && StackFits(x)
    ensures Onwards(e, [OP_CHECKMULTISIG] + t, [], v) == Onwards(e, t, [], x)
  {
    MultiSigLeaves(e, v.(nOpCount := v.nOpCount + 1), below, dummy, sigs, keys, good, x);
    MultiSigStep(e, t, v, x);
  }

  lemma {:induction false} MultiSigStep(e: Env, t: seq<byte>, s: State, x: State)
    requires s.nOpCount < MAX_OPS && MultiSigWord(e, false, s.(nOpCount := s.nOpCount + 1)) == Some(x) && StackFits(x)
    ensures Onwards(e, [OP_CHECKMULTISIG] + t, [], s) == Onwards(e, t, [], x)
  {
    WordRuns(e, OP_CHECKMULTISIG, t, s);
  }

  lemma {:induction false} SigsLeave(e: Env, sigs: seq<Item>)
    requires |sigs| <= MAX_KEYS && Fit(sigs) && |MultiSigSigs(sigs)| <= MAX_SCRIPT
    ensures Evaluate(e, MultiSigSigs(sigs), []) == Some([] + [[]] + sigs)
  {
    var s := State([], [], 0, MultiSigSigs(sigs));
    EvaluateIsRun(e, MultiSigSigs(sigs), []);
    PushesRun(e, [[]] + sigs, [], s);
    EndRuns(e, s.(stack := [] + ([[]] + sigs)));
    assert [] + ([[]] + sigs) == [] + [[]] + sigs;
  }

  lemma {:induction false} MultiSigEvaluates(e: Env, sigs: seq<Item>, keys: seq<Item>, good: bool)
    requires |sigs| <= |keys| <= MAX_KEYS && Fit(keys) && |MultiSigScript(|sigs|, keys)| <= MAX_SCRIPT
    requires good <==> SignedBy(e, MultiSigScript(|sigs|, keys), sigs, keys)
    ensures Evaluate(e, MultiSigScript(|sigs|, keys), [] + [[]] + sigs) == Some([] + [Flag(good)])
  {
    EvaluateIsRun(e, MultiSigScript(|sigs|, keys), [] + [[]] + sigs);
    MultiSigRuns(e, sigs, keys, State([] + [[]] + sigs, [], 0, MultiSigScript(|sigs|, keys)), good);
  }

  /** A payment to several keys is redeemed by so many signatures exactly if these can be
      assigned, in order, to keys under which they check. */
  lemma {:induction false} PayToMultiSig(e: Env, sigs: seq<Item>, keys: seq<Item>)
    requires |sigs| <= |keys| <= MAX_KEYS && Fit(sigs) && Fit(keys)
    requires |MultiSigSigs(sigs)| <= MAX_SCRIPT && |MultiSigScript(|sigs|, keys)| <= MAX_SCRIPT
    ensures Verifies(e, MultiSigSigs(sigs), MultiSigScript(|sigs|, keys))
       <==> SignedBy(e, MultiSigScript(|sigs|, keys), sigs, keys)
  {
    var good := SignedBy(e, MultiSigScript(|sigs|, keys), sigs, keys);
    SigsLeave(e, sigs);
    MultiSigEvaluates(e, sigs, keys, good);
    FlagIsTrue(good);
  }

  // ----- a conditional -----

  lemma {:induction false} OpenRuns(e: Env, head: byte, t: seq<byte>, s: State, below: seq<Item>, x: Item)
    requires (head == OP_IF || head == OP_NOTIF) && s.stack == below + [x] && StackFits(s) && s.nOpCount < MAX_OPS
    ensures Onwards(e, [head] + t, [], s)
         == Onwards(e, t, [True(x) == (head == OP_IF)], s.(stack := below, nOpCount := s.nOpCount + 1))
  {
    WordReads(head, t);
    OnwardsStep(e, [head] + t, [], s);
    OpenStep(e, head, t, s, below, x);
  }

  lemma {:induction false} OpenStep(e: Env, head: byte, t: seq<byte>, s: State, below: seq<Item>, x: Item)
    requires (head == OP_IF || head == OP_NOTIF) && s.stack == below + [x] && StackFits(s) && s.nOpCount < MAX_OPS
    ensures StepFlat(e, Op(head, [], t), [], s)
         == Some(Config([True(x) == (head == OP_IF)], s.(stack := below, nOpCount := s.nOpCount + 1)))
  {
    assert Live([]) && s.stack[..|s.stack| - 1] == below;
    assert [] + [True(x) == (head == OP_IF)] == [True(x) == (head == OP_IF)];
  }

  lemma {:induction false} PushInside(e: Env, b: Item, t: seq<byte>, on: bool, s: State)
    requires |b| <= MAX_ITEM && Holds(s)
    ensures Onwards(e, PushData(b) + t, [on], s) == Onwards(e, t, [on], if on then s.(stack := s.stack + [b]) else s)
  {
    PushDecodes(b, t);
    OnwardsStep(e, PushData(b) + t, [on], s);
    assert Live([on]) <==> on by {
      assert [on][0] == on;
    }
    if on {
      PushPlainly(e, ReadOp(PushData(b) + t).value, s);
    }
  }

  lemma {:induction false} WordReads(o: byte, t: seq<byte>)
    requires o > OP_PUSHDATA4
    ensures ReadOp([o] + t) == Some(Op(o, [], t))
  {
    assert ([o] + t)[1..] == t;
  }

  lemma {:induction false} ElseStep(e: Env, t: seq<byte>, on: bool, s: State)
    requires StackFits(s) && s.nOpCount < MAX_OPS
    ensures StepFlat(e, Op(OP_ELSE, [], t), [on], s) == Some(Config([!on], s.(nOpCount := s.nOpCount + 1)))
  {
    assert [on][..0] + [!on] == [!on];
  }

  lemma {:induction false} EndIfStep(e: Env, t: seq<byte>, on: bool, s: State)
    requires StackFits(s) && s.nOpCount < MAX_OPS
    ensures StepFlat(e, Op(OP_ENDIF, [], t), [on], s) == Some(Config([], s.(nOpCount := s.nOpCount + 1)))
  {
    assert [on][..0] == [];
  }

  lemma {:induction false} ElseRuns(e: Env, t: seq<byte>, on: bool, s: State)
    requires StackFits(s) && s.nOpCount < MAX_OPS
    ensures Onwards(e, [OP_ELSE] + t, [on], s) == Onwards(e, t, [!on], s.(nOpCount := s.nOpCount + 1))
  {
    WordReads(OP_ELSE, t);
    OnwardsStep(e, [OP_ELSE] + t, [on], s);
    ElseStep(e, t, on, s);
  }

  lemma {:induction false} EndIfRuns(e: Env, t: seq<byte>, on: bool, s: State)
    requires StackFits(s) && s.nOpCount < MAX_OPS
    ensures Onwards(e, [OP_ENDIF] + t, [on], s) == Onwards(e, t, [], s.(nOpCount := s.nOpCount + 1))
  {
    WordReads(OP_ENDIF, t);
    OnwardsStep(e, [OP_ENDIF] + t, [on], s);
    EndIfStep(e, t, on, s);
  }

  /** Pushes u in the first branch and v in the other. */
  function IfScript(head: byte, u: Item, v: Item): seq<byte> {
    [head] + Branches(u, v)
  }

  function Branches(u: Item, v: Item): seq<byte> {
    PushData(u) + ([OP_ELSE] + (PushData(v) + ([OP_ENDIF] + [])))
  }

  lemma {:induction false} BranchesRun(e: Env, u: Item, v: Item, on: bool, s: State)
    requires |u| <= MAX_ITEM && |v| <= MAX_ITEM && Holds(s) && s.nOpCount == 1
    ensures Onwards(e, Branches(u, v), [on], s) == Some(s.(stack := s.stack + [if on then u else v], nOpCount := 3))
  {
    PushInside(e, u, [OP_ELSE] + (PushData(v) + ([OP_ENDIF] + [])), on, s);
    var t := if on then s.(stack := s.stack + [u]) else s;
    ElseRuns(e, PushData(v) + ([OP_ENDIF] + []), on, t);
    OtherBranch(e, u, v, on, s, t.(nOpCount := 2));
  }

  lemma {:induction false} OtherBranch(e: Env, u: Item, v: Item, on: bool, s: State, t: State)
    requires |v| <= MAX_ITEM && Holds(s) && t == if on then s.(stack := s.stack + [u], nOpCount := 2) else s.(nOpCount := 2)
    ensures Onwards(e, PushData(v) + ([OP_ENDIF] + []), [!on], t) == Some(s.(stack := s.stack + [if on then u else v], nOpCount := 3))
  {
    var w := s.(stack := s.stack + [if on then u else v], nOpCount := 2);
    if on {
      SkipPush(e, v, [OP_ENDIF] + [], t);
    } else {
      PushInside(e, v, [OP_ENDIF] + [], true, t);
    }
    EndIfRuns(e, [], !on, w);
    EndRuns(e, w.(nOpCount := 3));
  }

  lemma {:induction false} SkipPush(e: Env, b: Item, t: seq<byte>, s: State)
    requires |b| <= MAX_ITEM && StackFits(s)
    ensures Onwards(e, PushData(b) + t, [false], s) == Onwards(e, t, [false], s)
  {
    PushDecodes(b, t);
    OnwardsStep(e, PushData(b) + t, [false], s);
    assert ![false][0];
    PushDead(e, ReadOp(PushData(b) + t).value, s);
  }

  lemma {:induction false} PushDead(e: Env, op: Op, s: State)
    requires op.opcode <= OP_PUSHDATA4 && |op.data| <= MAX_ITEM && StackFits(s)
    ensures Plainly(e, op, false, s) == Some(s)
  {
  }

  /** IF takes the first branch on a true item and the other on a false one; NOTIF the other
      way round. */
  lemma {:induction false} Chooses(e: Env, head: byte, below: seq<Item>, x: Item, u: Item, v: Item)
    requires (head == OP_IF || head == OP_NOTIF) && |u| <= MAX_ITEM && |v| <= MAX_ITEM && |below| < MAX_STACK
    ensures Evaluate(e, IfScript(head, u, v), below + [x]) == Some(below + [if True(x) == (head == OP_IF) then u else v])
  {
    var s := State(below + [x], [], 0, IfScript(head, u, v));
    EvaluateIsRun(e, IfScript(head, u, v), below + [x]);
    OpenRuns(e, head, Branches(u, v), s, below, x);
    BranchesRun(e, u, v, True(x) == (head == OP_IF), s.(stack := below, nOpCount := 1));
    PushSize(u);
    PushSize(v);
  }

  // ----- the stack words, by their stack comments -----

  lemma {:induction false} OneItemWords(below: seq<Item>, a: Item)
    ensures Shuffled(below + [a], OP_DROP) == Some(below)
    ensures Shuffled(below + [a], OP_DUP) == Some(below + [a, a])
  {
    var v := below + [a];
    OutputsAre(v, OP_DROP, [], below);
    OutputsAre(v, OP_DUP, [a, a], below + [a, a]);
  }

  lemma {:induction false} TwoItemWords(below: seq<Item>, a: Item, b: Item)
    ensures Shuffled(below + [a, b], OP_NIP) == Some(below + [b])
    ensures Shuffled(below + [a, b], OP_OVER) == Some(below + [a, b, a])
    ensures Shuffled(below + [a, b], OP_SWAP) == Some(below + [b, a])
    ensures Shuffled(below + [a, b], OP_TUCK) == Some(below + [b, a, b])
  {
    var v := below + [a, b];
    OutputsAre(v, OP_NIP, [b], below + [b]);
    OutputsAre(v, OP_OVER, [a, b, a], below + [a, b, a]);
    OutputsAre(v, OP_SWAP, [b, a], below + [b, a]);
    OutputsAre(v, OP_TUCK, [b, a, b], below + [b, a, b]);
  }

  lemma {:induction false} PairWords(below: seq<Item>, a: Item, b: Item)
    ensures Shuffled(below + [a, b], OP_2DROP) == Some(below)
    ensures Shuffled(below + [a, b], OP_2DUP) == Some(below + [a, b, a, b])
  {
    var v := below + [a, b];
    OutputsAre(v, OP_2DROP, [], below);
    OutputsAre(v, OP_2DUP, [a, b, a, b], below + [a, b, a, b]);
  }

  lemma {:induction false} ThreeItemWords(below: seq<Item>, a: Item, b: Item, c: Item)
    ensures Shuffled(below + [a, b, c], OP_3DUP) == Some(below + [a, b, c, a, b, c])
    ensures Shuffled(below + [a, b, c], OP_ROT) == Some(below + [b, c, a])
  {
    var v := below + [a, b, c];
    OutputsAre(v, OP_3DUP, [a, b, c, a, b, c], below + [a, b, c, a, b, c]);
    OutputsAre(v, OP_ROT, [b, c, a], below + [b, c, a]);
  }

  lemma {:induction false} FourItemWords(below: seq<Item>, a: Item, b: Item, c: Item, d: Item)
    ensures Shuffled(below + [a, b, c, d], OP_2OVER) == Some(below + [a, b, c, d, a, b])
    ensures Shuffled(below + [a, b, c, d], OP_2SWAP) == Some(below + [c, d, a, b])
  {
    var v := below + [a, b, c, d];
    OutputsAre(v, OP_2OVER, [a, b, c, d, a, b], below + [a, b, c, d, a, b]);
    OutputsAre(v, OP_2SWAP, [c, d, a, b], below + [c, d, a, b]);
  }

  lemma {:induction false} SixItemWords(below: seq<Item>, a: Item, b: Item, c: Item, d: Item, f: Item, g: Item)
    ensures Shuffled(below + [a, b, c, d, f, g], OP_2ROT) == Some(below + [c, d, f, g, a, b])
  {
    OutputsAre(below + [a, b, c, d, f, g], OP_2ROT, [c, d, f, g, a, b], below + [c, d, f, g, a, b]);
  }

  /** They fail exactly on too few items. */
  lemma {:induction false} TooFewItems(v: seq<Item>, op: byte)
    requires Shuffles(op)
    ensures Shuffled(v, op).None? <==>
            |v| < (if op == OP_DROP || op == OP_DUP then 1 else if op == OP_3DUP || op == OP_ROT then 3
                   else if op == OP_2OVER || op == OP_2SWAP then 4 else if op == OP_2ROT then 6 else 2)
  {
  }

  /** PICK copies the item n below the top, ROLL moves it to the top. */
  lemma {:induction false} PickIs(v: seq<Item>, n: nat, count: Item)
    requires IsNum(count) && Num(count) == n
    ensures Picked(v + [count], false) == if n < |v| then Some(v + [v[|v| - 1 - n]]) else None
    ensures Picked(v + [count], true) == if n < |v| then Some(v[..|v| - 1 - n] + v[|v| - n..] + [v[|v| - 1 - n]]) else None
  {
    assert (v + [count])[..|v|] == v;
    if n < |v| {
      assert (v + [count])[..|v| - 1 - n] == v[..|v| - 1 - n] && (v + [count])[|v| - n..|v|] == v[|v| - n..];
    }
  }

  // ----- words that measure, and words that move the signed code or the other stack -----

  /** DEPTH and SIZE leave the encodings of what they count, and a small number its own. */
  ghost predicate Leaves(r: Option<seq<Item>>, v: seq<Item>, n: int) {
    r.Some? && |r.value| == |v| + 1 && r.value[..|v|] == v && Encodes(r.value[|v|], n)
  }

  lemma {:induction false} LeavesNumber(v: seq<Item>, n: int)
    requires Bignum.Abs(n) < 0x1_0000_0000
    ensures Leaves(Some(v + [Bignum.GetVch(n)]), v, n)
  {
    EncodingOf(n);
  }

  lemma {:induction false} DepthLeaves(e: Env, code: seq<byte>, v: seq<Item>)
    requires |v| <= MAX_STACK
    ensures Leaves(StackWord(e, OP_DEPTH, code, v), v, |v|)
  {
    LeavesNumber(v, |v|);
  }

  lemma {:induction false} SizeLeaves(e: Env, code: seq<byte>, v: seq<Item>)
    requires v != [] && |v[|v| - 1]| <= MAX_ITEM
    ensures Leaves(StackWord(e, OP_SIZE, code, v), v, |v[|v| - 1]|)
  {
    LeavesNumber(v, |v[|v| - 1]|);
  }

  lemma {:induction false} NumberLeaves(e: Env, code: seq<byte>, v: seq<Item>, n: int)
    requires n == -1 || 1 <= n <= 16
    ensures Leaves(StackWord(e, n + (OP_1 - 1), code, v), v, n)
  {
    LeavesNumber(v, n);
  }

  /** VERIFY drops a number other than zero and fails on zero; IFDUP copies it, and leaves a
      zero alone. */
  lemma {:induction false} TestingWords(e: Env, code: seq<byte>, below: seq<Item>, x: Item)
    ensures StackWord(e, OP_VERIFY, code, below + [x]) == if Num(x) != 0 then Some(below) else None
    ensures StackWord(e, OP_IFDUP, code, below + [x]) == Some(if Num(x) != 0 then below + [x, x] else below + [x])
  {
    assert (below + [x])[..|below|] == below && below + [x] + [x] == below + [x, x];
  }

  /** What is put on the alternate stack comes back. */
  lemma {:induction false} ThereAndBack(e: Env, s: State, rest: seq<byte>)
    requires s.stack != []
    ensures var t := Exec(e, Op(OP_TOALTSTACK, [], rest), s);
            t.Some? && t.value.alt == s.alt + [s.stack[|s.stack| - 1]] && Exec(e, Op(OP_FROMALTSTACK, [], rest), t.value) == Some(s)
  {
    var n := |s.stack|;
    var t := Exec(e, Op(OP_TOALTSTACK, [], rest), s).value;
    assert t.alt[..|s.alt|] == s.alt && s.stack[..n - 1] + [s.stack[n - 1]] == s.stack;
  }

  lemma {:induction false} SeparatorRuns(e: Env, code: seq<byte>, s: State)
    requires StackFits(s) && s.nOpCount < MAX_OPS
    ensures Onwards(e, [OP_CODESEPARATOR] + code, [], s) == Onwards(e, code, [], s.(code := code, nOpCount := s.nOpCount + 1))
  {
    WordRuns(e, OP_CODESEPARATOR, code, s);
  }

  /** After a separator only what follows it is signed. */
  lemma {:induction false} SeparatedCode(e: Env, t: seq<byte>, s: State, below: seq<Item>, sig: Item, key: Item)
    requires s.stack == below + [sig, key] && StackFits(s) && s.nOpCount + 2 <= MAX_OPS
    ensures Onwards(e, [OP_CODESEPARATOR] + ([OP_CHECKSIG] + t), [], s)
         == Onwards(e, t, [], s.(stack := below + [Flag(e.checkSig(sig, key, Deleted([OP_CHECKSIG] + t, PushData(sig))))],
                                 nOpCount := s.nOpCount + 2, code := [OP_CHECKSIG] + t))
  {
    var code := [OP_CHECKSIG] + t;
    SeparatorRuns(e, code, s);
    CheckSigRuns(e, t, s.(code := code, nOpCount := s.nOpCount + 1), below, sig, key);
  }
}
