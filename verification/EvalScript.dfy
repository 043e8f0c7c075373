/** EvalScript: the flat loop with its condition stack, against a recursive
    evaluator of nested IF ... ELSE ... ENDIF blocks. */
module EvalScript {
  import opened Basics
  import Bignum
  import opened ScriptCode
  import opened ScriptMachine

  const OP_VERIF: byte := 101
  const OP_VERNOTIF: byte := 102

  // ----- what is checked on every instruction, executed or not -----

  predicate Disabled(o: byte) {
    OP_CAT <= o <= OP_RIGHT || OP_INVERT <= o <= OP_XOR || o == OP_2MUL || o == OP_2DIV || OP_MUL <= o <= OP_RSHIFT
  }

  /** VERIF and VERNOTIF lie between IF and ENDIF, so even unexecuted they reach the
      default branch of the switch. */
  predicate Legal(op: Op) {
    |op.data| <= MAX_ITEM && !Disabled(op.opcode) && op.opcode != OP_VERIF && op.opcode != OP_VERNOTIF
  }

  function Count(op: Op): nat {
    if op.opcode > OP_16 then 1 else 0
  }

  predicate StackFits(s: State) {
    |s.stack| + |s.alt| <= MAX_STACK
  }

  function Counted(op: Op, s: State): Option<State> {
    if Legal(op) && (Count(op) == 1 ==> s.nOpCount + 1 <= MAX_OPS) then Some(s.(nOpCount := s.nOpCount + Count(op))) else None
  }

  function Limited(s: State): Option<State> {
    if StackFits(s) then Some(s) else None
  }

  /** ELSE and ENDIF, and any instruction that is not executed. */
  function Skip(op: Op, s: State): Option<State> {
    var c := Counted(op, s);
    if c.None? then None else Limited(c.value)
  }

  ghost function Plainly(e: Env, op: Op, live: bool, s: State): Option<State> {
    var c := Counted(op, s);
    if c.None? then None else
    if !live then Limited(c.value) else
    var x := Exec(e, op, c.value);
    if x.None? then None else Limited(x.value)
  }

  datatype Choice = Choice(on: bool, s: State)

  /** IF and NOTIF take their condition off the stack only when executed. */
  function Choose(op: Op, live: bool, s: State): Option<Choice> {
    var c := Counted(op, s);
    if c.None? then None else
    if !live then if StackFits(c.value) then Some(Choice(false, c.value)) else None else
    var n := |s.stack|;
    if n < 1 then None else
    var t := c.value.(stack := s.stack[..n - 1]);
    if StackFits(t) then Some(Choice(True(s.stack[n - 1]) != (op.opcode == OP_NOTIF), t)) else None
  }

  // ----- the flat machine -----

  /** vfExec holds one entry for every open IF; code is executed when all are true. */
  datatype Config = Config(vfExec: seq<bool>, s: State)

  predicate Live(vfExec: seq<bool>) {
    forall k :: 0 <= k < |vfExec| ==> vfExec[k]
  }

  predicate Opens(op: Op) {
    op.opcode == OP_IF || op.opcode == OP_NOTIF
  }

  predicate Continues(op: Op) {
    op.opcode == OP_ELSE || op.opcode == OP_ENDIF
  }

  ghost function StepFlat(e: Env, op: Op, vf: seq<bool>, s: State): Option<Config> {
    if Opens(op) then
      var c := Choose(op, Live(vf), s);
      if c.None? then None else Some(Config(vf + [c.value.on], c.value.s))
    else if Continues(op) then
      var c := Skip(op, s);
      if c.None? || vf == [] then None
      else if op.opcode == OP_ELSE then Some(Config(vf[..|vf| - 1] + [!vf[|vf| - 1]], c.value))
      else Some(Config(vf[..|vf| - 1], c.value))
    else
      var c := Plainly(e, op, Live(vf), s);
      if c.None? then None else Some(Config(vf, c.value))
  }

  ghost function RunFlat(e: Env, ops: seq<Op>, vf: seq<bool>, s: State): Option<State> {
    if ops == [] then if vf == [] then Some(s) else None else
    var c := StepFlat(e, ops[0], vf, s);
    if c.None? then None else RunFlat(e, ops[1..], c.value.vfExec, c.value.s)
  }

  // ----- nested blocks -----

  datatype Block = Done | Then(node: Node, rest: Block)
  datatype Node = Plain(op: Op) | Cond(head: Op, body: Block, tail: Tail)
  datatype Tail = EndIf(op: Op) | Else(op: Op, body: Block, tail: Tail)

  predicate WellFormed(b: Block) {
    b.Then? ==> WellFormedNode(b.node) && WellFormed(b.rest)
  }

  predicate WellFormedNode(n: Node) {
    match n
    case Plain(op) => !Opens(op) && !Continues(op)
    case Cond(head, body, tail) => Opens(head) && WellFormed(body) && WellFormedTail(tail)
  }

  predicate WellFormedTail(t: Tail) {
    match t
    case EndIf(op) => op.opcode == OP_ENDIF
    case Else(op, body, tail) => op.opcode == OP_ELSE && WellFormed(body) && WellFormedTail(tail)
  }

  ghost function EvalBlock(e: Env, b: Block, live: bool, s: State): Option<State> {
    match b
    case Done => Some(s)
    case Then(node, rest) =>
      var t := EvalNode(e, node, live, s);
      if t.None? then None else EvalBlock(e, rest, live, t.value)
  }

  ghost function EvalNode(e: Env, n: Node, live: bool, s: State): Option<State> {
    match n
    case Plain(op) => Plainly(e, op, live, s)
    case Cond(head, body, tail) =>
      var c := Choose(head, live, s);
      if c.None? then None else
      var t := EvalBlock(e, body, live && c.value.on, c.value.s);
      if t.None? then None else EvalTail(e, tail, live, c.value.on, t.value)
  }

  /** on says whether the branch just left was the chosen one; every ELSE flips it. */
  ghost function EvalTail(e: Env, t: Tail, live: bool, on: bool, s: State): Option<State> {
    match t
    case EndIf(op) => Skip(op, s)
    case Else(op, body, tail) =>
      var c := Skip(op, s);
      if c.None? then None else
      var u := EvalBlock(e, body, live && !on, c.value);
      if u.None? then None else EvalTail(e, tail, live, !on, u.value)
  }

  /** The instructions of a block, followed by rest. */
  function Flat(b: Block, rest: seq<Op>): seq<Op> {
    match b
    case Done => rest
    case Then(node, more) => FlatNode(node, Flat(more, rest))
  }

  function FlatNode(n: Node, rest: seq<Op>): seq<Op> {
    match n
    case Plain(op) => [op] + rest
    case Cond(head, body, tail) => [head] + Flat(body, FlatTail(tail, rest))
  }

  function FlatTail(t: Tail, rest: seq<Op>): seq<Op> {
    match t
    case EndIf(op) => [op] + rest
    case Else(op, body, tail) => [op] + Flat(body, FlatTail(tail, rest))
  }

  // ----- the flat loop evaluates nested blocks -----

  ghost function Resume(e: Env, t: Option<State>, rest: seq<Op>, vf: seq<bool>): Option<State> {
    if t.None? then None else RunFlat(e, rest, vf, t.value)
  }

  lemma {:induction false} RunCons(e: Env, op: Op, rest: seq<Op>, vf: seq<bool>, s: State)
    ensures RunFlat(e, [op] + rest, vf, s)
         == var c := StepFlat(e, op, vf, s); if c.None? then None else RunFlat(e, rest, c.value.vfExec, c.value.s)
  {
    assert ([op] + rest)[1..] == rest;
  }

  lemma {:induction false} LivePush(vf: seq<bool>, on: bool)
    ensures Live(vf + [on]) <==> Live(vf) && on
  {
    if Live(vf + [on]) {
      assert (vf + [on])[|vf|] == on;
      forall k | 0 <= k < |vf| ensures vf[k] { assert (vf + [on])[k]; }
    }
  }

  lemma {:induction false} BlockRuns(e: Env, b: Block, rest: seq<Op>, vf: seq<bool>, s: State)
    requires WellFormed(b)
    ensures RunFlat(e, Flat(b, rest), vf, s) == Resume(e, EvalBlock(e, b, Live(vf), s), rest, vf)
    decreases b
  {
    if b.Then? {
      NodeRuns(e, b.node, Flat(b.rest, rest), vf, s);
      var t := EvalNode(e, b.node, Live(vf), s);
      if t.Some? {
        BlockRuns(e, b.rest, rest, vf, t.value);
      }
    }
  }

  lemma {:induction false} NodeRuns(e: Env, n: Node, rest: seq<Op>, vf: seq<bool>, s: State)
    requires WellFormedNode(n)
    ensures RunFlat(e, FlatNode(n, rest), vf, s) == Resume(e, EvalNode(e, n, Live(vf), s), rest, vf)
    decreases n
  {
    match n
    case Plain(op) => RunCons(e, op, rest, vf, s);
    case Cond(head, body, tail) =>
      RunCons(e, head, Flat(body, FlatTail(tail, rest)), vf, s);
      var c := Choose(head, Live(vf), s);
      if c.Some? {
        var on := c.value.on;
        LivePush(vf, on);
        BlockRuns(e, body, FlatTail(tail, rest), vf + [on], c.value.s);
        var t := EvalBlock(e, body, Live(vf) && on, c.value.s);
        if t.Some? {
          TailRuns(e, tail, rest, vf, on, t.value);
        }
      }
  }

  lemma {:induction false} TailRuns(e: Env, t: Tail, rest: seq<Op>, vf: seq<bool>, on: bool, s: State)
    requires WellFormedTail(t)
    ensures RunFlat(e, FlatTail(t, rest), vf + [on], s) == Resume(e, EvalTail(e, t, Live(vf), on, s), rest, vf)
    decreases t
  {
    var top := vf + [on];
    assert top[..|top| - 1] == vf && top[|top| - 1] == on;
    match t
    case EndIf(op) => RunCons(e, op, rest, top, s);
    case Else(op, body, tail) =>
      RunCons(e, op, Flat(body, FlatTail(tail, rest)), top, s);
      var c := Skip(op, s);
      if c.Some? {
        LivePush(vf, !on);
        BlockRuns(e, body, FlatTail(tail, rest), vf + [!on], c.value);
        var u := EvalBlock(e, body, Live(vf) && !on, c.value);
        if u.Some? {
          TailRuns(e, tail, rest, vf, !on, u.value);
        }
      }
  }

  // ----- reading the block structure -----

  datatype Parsed<T> = Parsed(tree: T, rest: seq<Op>)

  predicate AtBoundary(ops: seq<Op>) {
    ops == [] || Continues(ops[0])
  }

  /** The longest block at the front; None when some IF in it is never closed. */
  function ParseBlock(ops: seq<Op>): (r: Option<Parsed<Block>>)
    ensures r.Some? ==> |r.value.rest| <= |ops| && AtBoundary(r.value.rest)
    decreases |ops|, 0
  {
    if AtBoundary(ops) then Some(Parsed(Done, ops)) else
    var node := if Opens(ops[0]) then ParseCond(ops) else Some(Parsed(Plain(ops[0]), ops[1..]));
    if node.None? then None else
    var more := ParseBlock(node.value.rest);
    if more.None? then None else Some(Parsed(Then(node.value.tree, more.value.tree), more.value.rest))
  }

  function ParseCond(ops: seq<Op>): (r: Option<Parsed<Node>>)
    requires ops != []
    ensures r.Some? ==> |r.value.rest| < |ops|
    decreases |ops| - 1, 2
  {
    var body := ParseBlock(ops[1..]);
    if body.None? then None else
    var tail := ParseTail(body.value.rest);
    if tail.None? then None else Some(Parsed(Cond(ops[0], body.value.tree, tail.value.tree), tail.value.rest))
  }

  function ParseTail(ops: seq<Op>): (r: Option<Parsed<Tail>>)
    requires AtBoundary(ops)
    ensures r.Some? ==> |r.value.rest| < |ops|
    decreases |ops|, 1
  {
    if ops == [] then None else
    if ops[0].opcode == OP_ENDIF then Some(Parsed(EndIf(ops[0]), ops[1..])) else
    var body := ParseBlock(ops[1..]);
    if body.None? then None else
    var tail := ParseTail(body.value.rest);
    if tail.None? then None else Some(Parsed(Else(ops[0], body.value.tree, tail.value.tree), tail.value.rest))
  }

  /** The nested form of a whole script: None when IF, ELSE and ENDIF do not match up. */
  function Parse(ops: seq<Op>): Option<Block> {
    var p := ParseBlock(ops);
    if p.None? || p.value.rest != [] then None else Some(p.value.tree)
  }

  lemma {:induction false} Uncons(ops: seq<Op>)
    requires ops != []
    ensures ops == [ops[0]] + ops[1..]
  {
  }

  lemma {:induction false} ParsedBlock(ops: seq<Op>)
    requires ParseBlock(ops).Some?
    ensures var p := ParseBlock(ops).value; WellFormed(p.tree) && Flat(p.tree, p.rest) == ops
    decreases |ops|, 0
  {
    if !AtBoundary(ops) {
      if Opens(ops[0]) {
        ParsedCond(ops);
        ParsedBlock(ParseCond(ops).value.rest);
      } else {
        Uncons(ops);
        ParsedBlock(ops[1..]);
      }
    }
  }

  lemma {:induction false} ParsedCond(ops: seq<Op>)
    requires ops != [] && Opens(ops[0]) && ParseCond(ops).Some?
    ensures var p := ParseCond(ops).value; WellFormedNode(p.tree) && FlatNode(p.tree, p.rest) == ops
    decreases |ops| - 1, 2
  {
    Uncons(ops);
    ParsedBlock(ops[1..]);
    ParsedTail(ParseBlock(ops[1..]).value.rest);
  }

  lemma {:induction false} ParsedTail(ops: seq<Op>)
    requires AtBoundary(ops) && ParseTail(ops).Some?
    ensures var p := ParseTail(ops).value; WellFormedTail(p.tree) && FlatTail(p.tree, p.rest) == ops
    decreases |ops|, 1
  {
    Uncons(ops);
    if ops[0].opcode == OP_ELSE {
      ParsedBlock(ops[1..]);
      ParsedTail(ParseBlock(ops[1..]).value.rest);
    }
  }

  /** The block structure is the only one: parsing gives back any well-formed block. */
  lemma {:induction false} ParseOfFlat(b: Block, rest: seq<Op>)
    requires WellFormed(b) && AtBoundary(rest)
    ensures ParseBlock(Flat(b, rest)) == Some(Parsed(b, rest))
    decreases b
  {
    if b.Then? {
      var more := Flat(b.rest, rest);
      ParseOfFlat(b.rest, rest);
      match b.node
      case Plain(op) => assert ([op] + more)[1..] == more;
      case Cond(_, _, _) => ParseOfCond(b.node, more);
    }
  }

  lemma {:induction false} ParseOfCond(n: Node, rest: seq<Op>)
    requires n.Cond? && WellFormedNode(n)
    ensures var ops := FlatNode(n, rest); ops != [] && Opens(ops[0]) && ParseCond(ops) == Some(Parsed(n, rest))
    decreases n
  {
    var tail := FlatTail(n.tail, rest);
    var inner := Flat(n.body, tail);
    assert ([n.head] + inner)[1..] == inner;
    ParseOfTail(n.tail, rest);
    ParseOfFlat(n.body, tail);
  }

  lemma {:induction false} ParseOfTail(t: Tail, rest: seq<Op>)
    requires WellFormedTail(t)
    ensures var ops := FlatTail(t, rest); AtBoundary(ops) && ParseTail(ops) == Some(Parsed(t, rest))
    decreases t
  {
    match t
    case EndIf(op) => assert ([op] + rest)[1..] == rest;
    case Else(op, body, tail) =>
      var inner := Flat(body, FlatTail(tail, rest));
      assert ([op] + inner)[1..] == inner;
      ParseOfTail(tail, rest);
      ParseOfFlat(body, FlatTail(tail, rest));
  }

  // ----- scripts whose conditionals do not match up fail -----

  lemma {:induction false} UnclosedFails(e: Env, ops: seq<Op>, vf: seq<bool>, s: State)
    requires ParseBlock(ops).None?
    ensures RunFlat(e, ops, vf, s).None?
    decreases |ops|, 0
  {
    if Opens(ops[0]) && ParseCond(ops).None? {
      CondFails(e, ops, vf, s);
    } else if Opens(ops[0]) {
      var p := ParseCond(ops).value;
      ParsedCond(ops);
      NodeRuns(e, p.tree, p.rest, vf, s);
      var t := EvalNode(e, p.tree, Live(vf), s);
      if t.Some? {
        UnclosedFails(e, p.rest, vf, t.value);
      }
    } else {
      var c := StepFlat(e, ops[0], vf, s);
      if c.Some? {
        UnclosedFails(e, ops[1..], vf, c.value.s);
      }
    }
  }

  lemma {:induction false} CondFails(e: Env, ops: seq<Op>, vf: seq<bool>, s: State)
    requires ops != [] && Opens(ops[0]) && ParseCond(ops).None?
    ensures RunFlat(e, ops, vf, s).None?
    decreases |ops| - 1, 3
  {
    var c := StepFlat(e, ops[0], vf, s);
    if c.Some? {
      BranchFails(e, ops[1..], c.value.vfExec, c.value.s);
    }
  }

  /** A branch of an IF that is not closed. */
  lemma {:induction false} BranchFails(e: Env, ops: seq<Op>, vf: seq<bool>, s: State)
    requires vf != []
    requires var p := ParseBlock(ops); p.None? || ParseTail(p.value.rest).None?
    ensures RunFlat(e, ops, vf, s).None?
    decreases |ops|, 2
  {
    var p := ParseBlock(ops);
    if p.None? {
      UnclosedFails(e, ops, vf, s);
    } else {
      ParsedBlock(ops);
      BlockRuns(e, p.value.tree, p.value.rest, vf, s);
      var t := EvalBlock(e, p.value.tree, Live(vf), s);
      if t.Some? {
        TailFails(e, p.value.rest, vf, t.value);
      }
    }
  }

  lemma {:induction false} TailFails(e: Env, ops: seq<Op>, vf: seq<bool>, s: State)
    requires AtBoundary(ops) && ParseTail(ops).None? && vf != []
    ensures RunFlat(e, ops, vf, s).None?
    decreases |ops|, 1
  {
    if ops != [] {
      var c := StepFlat(e, ops[0], vf, s);
      if c.Some? {
        BranchFails(e, ops[1..], c.value.vfExec, c.value.s);
      }
    }
  }

  /** The flat machine and the nested evaluator agree on every instruction sequence. */
  lemma {:induction false} FlatIsNested(e: Env, ops: seq<Op>, s: State)
    ensures RunFlat(e, ops, [], s) == if Parse(ops).Some? then EvalBlock(e, Parse(ops).value, true, s) else None
  {
    var p := ParseBlock(ops);
    if p.None? {
      UnclosedFails(e, ops, [], s);
    } else {
      ParsedBlock(ops);
      BlockRuns(e, p.value.tree, p.value.rest, [], s);
    }
  }

  // ----- code that is not executed -----

  predicate AllLegal(b: Block) {
    b.Then? ==> NodeLegal(b.node) && AllLegal(b.rest)
  }

  predicate NodeLegal(n: Node) {
    match n
    case Plain(op) => Legal(op)
    case Cond(head, body, tail) => Legal(head) && AllLegal(body) && TailLegal(tail)
  }

  predicate TailLegal(t: Tail) {
    match t
    case EndIf(op) => Legal(op)
    case Else(op, body, tail) => Legal(op) && AllLegal(body) && TailLegal(tail)
  }

  function BlockCount(b: Block): nat {
    if b.Done? then 0 else NodeCount(b.node) + BlockCount(b.rest)
  }

  function NodeCount(n: Node): nat {
    match n
    case Plain(op) => Count(op)
    case Cond(head, body, tail) => Count(head) + BlockCount(body) + TailCount(tail)
  }

  function TailCount(t: Tail): nat {
    match t
    case EndIf(op) => Count(op)
    case Else(op, body, tail) => Count(op) + BlockCount(body) + TailCount(tail)
  }

  /** What passing over code leaves: the count moves on if every instruction is legal
      and the limit is not reached. */
  function Passed(legal: bool, count: nat, s: State): Option<State> {
    if legal && s.nOpCount + count <= MAX_OPS then Some(s.(nOpCount := s.nOpCount + count)) else None
  }

  /** Unexecuted code touches neither stack nor the signed code, and fails exactly
      when one of its instructions is illegal or there are too many of them. */
  lemma {:induction false} UnexecutedBlock(e: Env, b: Block, s: State)
    requires StackFits(s) && s.nOpCount <= MAX_OPS
    ensures EvalBlock(e, b, false, s) == Passed(AllLegal(b), BlockCount(b), s)
    decreases b
  {
    if b.Then? {
      UnexecutedNode(e, b.node, s);
      var t := EvalNode(e, b.node, false, s);
      if t.Some? {
        UnexecutedBlock(e, b.rest, t.value);
      }
    }
  }

  lemma {:induction false} UnexecutedNode(e: Env, n: Node, s: State)
    requires StackFits(s) && s.nOpCount <= MAX_OPS
    ensures EvalNode(e, n, false, s) == Passed(NodeLegal(n), NodeCount(n), s)
    decreases n
  {
    if n.Cond? {
      var c := Choose(n.head, false, s);
      if c.Some? {
        UnexecutedBlock(e, n.body, c.value.s);
        var t := EvalBlock(e, n.body, false, c.value.s);
        if t.Some? {
          UnexecutedTail(e, n.tail, false, t.value);
        }
      }
    }
  }

  lemma {:induction false} UnexecutedTail(e: Env, t: Tail, on: bool, s: State)
    requires StackFits(s) && s.nOpCount <= MAX_OPS
    ensures EvalTail(e, t, false, on, s) == Passed(TailLegal(t), TailCount(t), s)
    decreases t
  {
    if t.Else? {
      var c := Skip(t.op, s);
      if c.Some? {
        UnexecutedBlock(e, t.body, c.value);
        var u := EvalBlock(e, t.body, false, c.value);
        if u.Some? {
          UnexecutedTail(e, t.tail, !on, u.value);
        }
      }
    }
  }

  // ----- what every successful run has kept -----

  predicate Small(items: seq<Item>) {
    forall k :: 0 <= k < |items| ==> |items[k]| <= MAX_ITEM
  }

  predicate InLimits(s: State) {
    StackFits(s) && s.nOpCount <= MAX_OPS && Small(s.stack) && Small(s.alt)
  }

  lemma {:induction false} NumberIsSmall(n: int)
    requires Bignum.Abs(n) < 0x1_0000_0000_0000_0000
    ensures |Bignum.GetVch(n)| <= MAX_ITEM
  {
    Pow256Values();
    Bignum.MagnitudeFits(Bignum.Abs(n), 8);
  }

  lemma {:induction false} PushSmall(stack: seq<Item>, n: nat, v: Item)
    requires Small(stack) && n <= |stack| && |v| <= MAX_ITEM
    ensures Small(stack[..n] + [v])
  {
  }

  lemma {:induction false} NumericSmall(op: byte, stack: seq<Item>)
    requires Small(stack) && Numeric(op, stack).Some? && IsNumeric(op)
    ensures Small(Numeric(op, stack).value)
  {
    NumericMeaning(op, stack);
    var r, base := Numeric(op, stack).value, |stack| - Arity(op);
    if op != OP_NUMEQUALVERIFY {
      PushSmall(stack, base, r[base]);
      assert r == stack[..base] + [r[base]];
    }
  }

  lemma {:induction false} ShuffledSmall(op: byte, stack: seq<Item>)
    requires Small(stack) && Shuffled(stack, op).Some?
    ensures Small(Shuffled(stack, op).value)
  {
  }

  lemma {:induction false} PickedSmall(roll: bool, stack: seq<Item>)
    requires Small(stack) && Picked(stack, roll).Some?
    ensures Small(Picked(stack, roll).value)
  {
  }

  lemma {:induction false} StackWordSmall(e: Env, op: byte, code: seq<byte>, stack: seq<Item>)
    requires Small(stack) && |stack| <= MAX_STACK && StackWord(e, op, code, stack).Some?
    ensures Small(StackWord(e, op, code, stack).value)
  {
    if IsNumber(op) {
      NumberIsSmall(op - (OP_1 - 1));
    } else if Shuffles(op) {
      ShuffledSmall(op, stack);
    } else if IsNumeric(op) {
      NumericSmall(op, stack);
    } else if op == OP_PICK || op == OP_ROLL {
      PickedSmall(op == OP_ROLL, stack);
    } else {
      OtherWordSmall(e, op, code, stack);
    }
  }

  lemma {:induction false} OtherWordSmall(e: Env, op: byte, code: seq<byte>, stack: seq<Item>)
    requires Small(stack) && |stack| <= MAX_STACK && StackWord(e, op, code, stack).Some?
    requires !IsNumber(op) && !Shuffles(op) && !IsNumeric(op) && op !in {OP_PICK, OP_ROLL}
    ensures Small(StackWord(e, op, code, stack).value)
  {
    var n := |stack|;
    if op == OP_DEPTH {
      NumberIsSmall(n);
    } else if op == OP_SIZE {
      NumberIsSmall(|stack[n - 1]|);
    } else if IsHash(op) {
      PushSmall(stack, n - 1, HashOf(e, op, stack[n - 1]));
    } else if op in {OP_EQUAL, OP_EQUALVERIFY, OP_CHECKSIG, OP_CHECKSIGVERIFY} {
      assert Small(stack[..n - 2]);
    }
  }

  lemma {:induction false} ExecKeeps(e: Env, op: Op, s: State)
    requires InLimits(s) && |op.data| <= MAX_ITEM && Exec(e, op, s).Some?
    ensures var t := Exec(e, op, s).value; Small(t.stack) && Small(t.alt) && s.nOpCount <= t.nOpCount <= MAX_OPS
  {
    if StackWord(e, op.opcode, s.code, s.stack).Some? {
      StackWordSmall(e, op.opcode, s.code, s.stack);
    }
  }

  function TotalCount(ops: seq<Op>): nat {
    if ops == [] then 0 else Count(ops[0]) + TotalCount(ops[1..])
  }

  lemma {:induction false} StepKeeps(e: Env, op: Op, vf: seq<bool>, s: State)
    requires InLimits(s) && StepFlat(e, op, vf, s).Some?
    ensures var t := StepFlat(e, op, vf, s).value.s; InLimits(t) && t.nOpCount >= s.nOpCount + Count(op) && Legal(op)
  {
    var c := Counted(op, s).value;
    if !Opens(op) && !Continues(op) && Live(vf) {
      ExecKeeps(e, op, c);
    }
  }

  /** A run that succeeds has passed every instruction, executed or not, through the
      checks, and stays within all limits. */
  lemma {:induction false} RunKeeps(e: Env, ops: seq<Op>, vf: seq<bool>, s: State)
    requires InLimits(s) && RunFlat(e, ops, vf, s).Some?
    ensures var t := RunFlat(e, ops, vf, s).value; InLimits(t) && t.nOpCount >= s.nOpCount + TotalCount(ops)
    ensures forall op :: op in ops ==> Legal(op)
  {
    if ops != [] {
      StepKeeps(e, ops[0], vf, s);
      var c := StepFlat(e, ops[0], vf, s).value;
      RunKeeps(e, ops[1..], c.vfExec, c.s);
    }
  }

  // ----- scripts as bytes -----

  /** All instructions of a script; None when one is malformed. */
  function Instructions(script: seq<byte>): Option<seq<Op>>
    decreases |script|
  {
    if script == [] then Some([]) else
    var op := ReadOp(script);
    if op.None? then None else
    var more := Instructions(op.value.rest);
    if more.None? then None else Some([op.value] + more.value)
  }

  /** What EvalScript leaves on the stack, by nested evaluation. */
  ghost function Evaluate(e: Env, script: seq<byte>, stack: seq<Item>): Option<seq<Item>> {
    if |script| > MAX_SCRIPT || Instructions(script).None? then None else
    var b := Parse(Instructions(script).value);
    if b.None? then None else
    var t := EvalBlock(e, b.value, true, State(stack, [], 0, script));
    if t.None? then None else Some(t.value.stack)
  }

  /** What is left to do from some position of the loop. */
  ghost function Onwards(e: Env, left: seq<byte>, vf: seq<bool>, s: State): Option<State> {
    if Instructions(left).None? then None else RunFlat(e, Instructions(left).value, vf, s)
  }

  lemma {:induction false} OnwardsStep(e: Env, left: seq<byte>, vf: seq<bool>, s: State)
    requires left != []
    ensures var op := ReadOp(left);
            var c := if op.None? then None else StepFlat(e, op.value, vf, s);
            Onwards(e, left, vf, s) == if c.None? then None else Onwards(e, op.value.rest, c.value.vfExec, c.value.s)
  {
    var op := ReadOp(left);
    if op.Some? && Instructions(op.value.rest).Some? {
      RunCons(e, op.value, Instructions(op.value.rest).value, vf, s);
    }
  }

  method AllTrue(vfExec: seq<bool>) returns (fExec: bool)
    ensures fExec <==> Live(vfExec)
  {
    fExec := true;
    for k := 0 to |vfExec|
      invariant fExec <==> forall j :: 0 <= j < k ==> vfExec[j]
    {
      fExec := fExec && vfExec[k];
    }
  }

  method Conditional(op: Op, fExec: bool, vfIn: seq<bool>, stackIn: seq<Item>) returns (ok: bool, vfExec: seq<bool>, stack: seq<Item>)
    requires Opens(op) || Continues(op)
    ensures Opens(op) ==> ok == (fExec ==> |stackIn| >= 1)
    ensures Opens(op) && ok && fExec ==> stack == stackIn[..|stackIn| - 1]
    ensures Opens(op) && ok && fExec ==> vfExec == vfIn + [True(stackIn[|stackIn| - 1]) != (op.opcode == OP_NOTIF)]
    ensures Opens(op) && ok && !fExec ==> stack == stackIn && vfExec == vfIn + [false]
    ensures Continues(op) ==> ok == (vfIn != []) && stack == stackIn
    ensures Continues(op) && ok && op.opcode == OP_ELSE ==> vfExec == vfIn[..|vfIn| - 1] + [!vfIn[|vfIn| - 1]]
    ensures Continues(op) && ok && op.opcode == OP_ENDIF ==> vfExec == vfIn[..|vfIn| - 1]
  {
    ok, vfExec, stack := true, vfIn, stackIn;
    if Opens(op) {
      var fValue := false;
      if fExec {
        if |stack| < 1 { return false, vfExec, stack; }
        fValue := CastToBool(stack[|stack| - 1]);
        if op.opcode == OP_NOTIF {
          fValue := !fValue;
        }
        stack := stack[..|stack| - 1];
      }
      vfExec := vfExec + [fValue];
    } else {
      if vfExec == [] { return false, vfExec, stack; }
      if op.opcode == OP_ELSE {
        vfExec := vfExec[|vfExec| - 1 := !vfExec[|vfExec| - 1]];
      } else {
        vfExec := vfExec[..|vfExec| - 1];
      }
    }
  }

  /** One turn of the loop, after the instruction has been read. */
  method Turn(e: Env, op: Op, vfIn: seq<bool>, stackIn: seq<Item>, altIn: seq<Item>, nOpCountIn: nat, codeIn: seq<byte>)
    returns (ok: bool, vfExec: seq<bool>, stack: seq<Item>, altstack: seq<Item>, nOpCount: nat, code: seq<byte>)
    ensures StepFlat(e, op, vfIn, State(stackIn, altIn, nOpCountIn, codeIn))
         == if ok then Some(Config(vfExec, State(stack, altstack, nOpCount, code))) else None
  {
    ok, vfExec, stack, altstack, nOpCount, code := true, vfIn, stackIn, altIn, nOpCountIn, codeIn;
    var fExec := AllTrue(vfExec);
    if |op.data| > MAX_ITEM { ok := false; return; }
    if op.opcode > OP_16 {
      nOpCount := nOpCount + 1;
      if nOpCount > MAX_OPS { ok := false; return; }
    }
    if Disabled(op.opcode) { ok := false; return; }
    if OP_IF <= op.opcode <= OP_ENDIF {
      if op.opcode == OP_VERIF || op.opcode == OP_VERNOTIF { ok := false; return; }
      ok, vfExec, stack := Conditional(op, fExec, vfExec, stack);
    } else if fExec {
      ok, stack, altstack, nOpCount, code := ExecuteOp(e, op, stack, altstack, nOpCount, code);
    }
    // StackFits, which the nested evaluator tests after every instruction as well.
    if |stack| + |altstack| > MAX_STACK {
      ok := false;
    }
  }

  /** EvalScript succeeds exactly when nested evaluation does, with the same stack. */
  method EvalScript(e: Env, stackIn: seq<Item>, script: seq<byte>) returns (ok: bool, stack: seq<Item>)
    ensures Evaluate(e, script, stackIn) == if ok then Some(stack) else None
  {
    stack := stackIn;
    var pc := 0;
    var pbegincodehash := script;
    var vfExec: seq<bool> := [];
    var altstack: seq<Item> := [];
    if |script| > MAX_SCRIPT {
      return false, stack;
    }
    var nOpCount := 0;
    ghost var run := Onwards(e, script, [], State(stackIn, [], 0, script));
    EvaluateIsRun(e, script, stackIn);
    assert script[0..] == script;
    while pc < |script|
      invariant 0 <= pc <= |script|
      invariant run == Onwards(e, script[pc..], vfExec, State(stack, altstack, nOpCount, pbegincodehash))
    {
      OnwardsStep(e, script[pc..], vfExec, State(stack, altstack, nOpCount, pbegincodehash));
      var fRead, opcode, vchPushValue;
      ghost var pc0 := pc;
      fRead, pc, opcode, vchPushValue := GetOp2(script, pc);
      if !fRead {
        return false, stack;
      }
      ok, vfExec, stack, altstack, nOpCount, pbegincodehash :=
        Turn(e, Op(opcode, vchPushValue, script[pc..]), vfExec, stack, altstack, nOpCount, pbegincodehash);
      if !ok {
        return false, stack;
      }
    }
    ok := vfExec == [];
  }

  lemma {:induction false} EvaluateIsRun(e: Env, script: seq<byte>, stack: seq<Item>)
    ensures var run := Onwards(e, script, [], State(stack, [], 0, script));
            Evaluate(e, script, stack) == if |script| > MAX_SCRIPT || run.None? then None else Some(run.value.stack)
  {
    if Instructions(script).Some? {
      FlatIsNested(e, Instructions(script).value, State(stack, [], 0, script));
    }
  }

  /** VerifyScript: the two scripts are evaluated one after the other on one stack,
      each with its own conditions, counts and alternate stack. */
  method VerifyScript(e: Env, scriptSig: seq<byte>, scriptPubKey: seq<byte>) returns (ok: bool)
    ensures ok <==> Verifies(e, scriptSig, scriptPubKey)
  {
    var stack: seq<Item> := [];
    ok, stack := EvalScript(e, stack, scriptSig);
    if !ok { return; }
    ok, stack := EvalScript(e, stack, scriptPubKey);
    if !ok { return; }
    if |stack| == 0 { return false; }
    ok := CastToBool(stack[|stack| - 1]);
  }

  ghost predicate Verifies(e: Env, scriptSig: seq<byte>, scriptPubKey: seq<byte>) {
    var first := Evaluate(e, scriptSig, []);
    first.Some? &&
    var second := Evaluate(e, scriptPubKey, first.value);
    second.Some? && second.value != [] && True(second.value[|second.value| - 1])
  }

  /** Whatever a script does, it leaves a stack within the limits; in particular
      its own nOpCount covers every instruction, executed or not. */
  lemma {:induction false} EvaluateKeepsLimits(e: Env, script: seq<byte>, stack: seq<Item>)
    requires Small(stack) && |stack| <= MAX_STACK && Evaluate(e, script, stack).Some?
    ensures Small(Evaluate(e, script, stack).value) && |Evaluate(e, script, stack).value| <= MAX_STACK
    ensures |script| <= 10000 && TotalCount(Instructions(script).value) <= MAX_OPS
    ensures forall op :: op in Instructions(script).value ==> Legal(op)
    ensures forall op :: op in Instructions(script).value ==>
              op.opcode !in {101, 102, 126, 127, 128, 129, 131, 132, 133, 134, 141, 142, 149, 150, 151, 152, 153}
  {
    EvaluateIsRun(e, script, stack);
    RunKeeps(e, Instructions(script).value, [], State(stack, [], 0, script));
  }
}
