/** What connecting and disconnecting transactions does to the transaction
    index: the pure functions that the methods of TxDb and Chain are proved
    against, and the laws that relate them. */
module TxIndex {
  import opened Basics
  import opened Serialize

  const COIN: int64 := 100000000
  const MAX_MONEY: int64 := 21000000 * COIN

  predicate MoneyRange(n: int) {
    0 <= n <= MAX_MONEY
  }

  datatype CDiskTxPos = CDiskTxPos(nFile: nat, nBlockPos: nat, nTxPos: nat)
  {
    predicate IsNull() {
      nFile == UINT_MAX
    }
  }

  const NullPos := CDiskTxPos(UINT_MAX, 0, 0)

  /** Marks a transaction that is in memory rather than in a block file. */
  const MemoryPos := CDiskTxPos(1, 1, 1)

  datatype CTxIndex = CTxIndex(pos: CDiskTxPos, vSpent: seq<CDiskTxPos>)

  type Index = map<uint256, CTxIndex>

  function NewTxIndex(pos: CDiskTxPos, nOutputs: nat): CTxIndex {
    CTxIndex(pos, seq(nOutputs, _ => NullPos))
  }

  /** GetHash of a transaction. */
  type TxHash = CTransaction -> uint256

  /** Everything connecting a transaction reads besides the index: the hash
      function, script evaluation, the previous transaction stored at a
      position, and whether a coinbase there is still immature. */
  datatype Context = Context(
    hashTx: TxHash,
    verifyScript: (seq<byte>, seq<byte>, CTransaction, nat) -> bool,
    fetch: (uint256, CDiskTxPos) -> Option<CTransaction>,
    immature: CDiskTxPos -> bool)

  predicate VerifySignature(c: Context, txFrom: CTransaction, txTo: CTransaction, i: nat)
    requires i < |txTo.vin|
  {
    var txin := txTo.vin[i];
    && txin.prevout.n < |txFrom.vout|
    && txin.prevout.hash == c.hashTx(txFrom)
    && c.verifyScript(txin.scriptSig, txFrom.vout[txin.prevout.n].scriptPubKey, txTo, i)
  }

  // ----- values -----

  function ValueOf(vout: seq<CTxOut>): int {
    if vout == [] then 0 else ValueOf(vout[..|vout| - 1]) + vout[|vout| - 1].nValue
  }

  /** GetValueOut throws unless this holds; CheckTransaction tests it first. */
  predicate OutputsInRange(vout: seq<CTxOut>) {
    (forall n :: 0 <= n < |vout| ==> MoneyRange(vout[n].nValue)) && MoneyRange(ValueOf(vout))
  }

  lemma {:induction false} ValueMonotone(vout: seq<CTxOut>, k: nat)
    requires k <= |vout|
    requires forall n :: 0 <= n < |vout| ==> vout[n].nValue >= 0
    ensures 0 <= ValueOf(vout[..k]) <= ValueOf(vout)
  {
    if k < |vout| {
      ValueMonotone(vout[..|vout| - 1], k);
      assert vout[..|vout| - 1][..k] == vout[..k];
    } else {
      assert vout[..k] == vout;
      if vout != [] {
        ValueMonotone(vout[..|vout| - 1], |vout| - 1);
        assert vout[..|vout| - 1][..|vout| - 1] == vout[..|vout| - 1];
      }
    }
  }

  // ----- one transaction -----

  /** Input i of tx may spend the output it names of txPrev, whose record is
      txindex, when the inputs before it brought in nValueIn. */
  predicate Spendable(c: Context, txindex: CTxIndex, txPrev: CTransaction, tx: CTransaction, i: nat, nValueIn: int)
    requires i < |tx.vin|
  {
    var n := tx.vin[i].prevout.n;
    && n < |txPrev.vout| && n < |txindex.vSpent|
    && !(txPrev.IsCoinBase() && c.immature(txindex.pos))
    && VerifySignature(c, txPrev, tx, i)
    && txindex.vSpent[n].IsNull()
    && MoneyRange(txPrev.vout[n].nValue) && MoneyRange(nValueIn + txPrev.vout[n].nValue)
  }

  function Spend(txindex: CTxIndex, n: nat, pos: CDiskTxPos): CTxIndex
    requires n < |txindex.vSpent|
  {
    txindex.(vSpent := txindex.vSpent[n := pos])
  }

  /** Input i of tx takes over the spent slot of the output it names. */
  function ConnectInput(c: Context, idx: Index, tx: CTransaction, pos: CDiskTxPos, i: nat, nValueIn: int): Option<(Index, int)>
    requires i < |tx.vin|
  {
    var prevout := tx.vin[i].prevout;
    if prevout.hash !in idx then None else
    var txindex := idx[prevout.hash];
    var txPrev := c.fetch(prevout.hash, txindex.pos);
    if txPrev.None? || !Spendable(c, txindex, txPrev.value, tx, i, nValueIn) then None else
    Some((idx[prevout.hash := Spend(txindex, prevout.n, pos)], nValueIn + txPrev.value.vout[prevout.n].nValue))
  }

  function ConnectInputsFrom(c: Context, idx: Index, tx: CTransaction, pos: CDiskTxPos, i: nat, nValueIn: int): Option<(Index, int)>
    requires i <= |tx.vin|
    decreases |tx.vin| - i
  {
    if i == |tx.vin| then Some((idx, nValueIn)) else
    var step := ConnectInput(c, idx, tx, pos, i, nValueIn);
    if step.None? then None else ConnectInputsFrom(c, step.value.0, tx, pos, i + 1, step.value.1)
  }

  lemma {:induction false} FromStep(c: Context, idx: Index, tx: CTransaction, pos: CDiskTxPos, i: nat, nValueIn: int, step: Option<(Index, int)>)
    requires i < |tx.vin| && step == ConnectInput(c, idx, tx, pos, i, nValueIn)
    ensures ConnectInputsFrom(c, idx, tx, pos, i, nValueIn) ==
            if step.None? then None else ConnectInputsFrom(c, step.value.0, tx, pos, i + 1, step.value.1)
  {
  }

  /** nFees is an out-argument of the source, so it has a value on failure too. */
  datatype TxResult = Connected(idx: Index, nFees: int) | Rejected(nFees: int)

  function ConnectTx(c: Context, idx: Index, tx: CTransaction, pos: CDiskTxPos, nFees: int, nMinFee: int): TxResult {
    var added := NewTxIndex(pos, |tx.vout|);
    if tx.IsCoinBase() then Connected(idx[c.hashTx(tx) := added], nFees) else
    var ins := ConnectInputsFrom(c, idx, tx, pos, 0, 0);
    if ins.None? || ins.value.1 < ValueOf(tx.vout) then Rejected(nFees) else
    var nTxFee := ins.value.1 - ValueOf(tx.vout);
    if nTxFee < nMinFee then Rejected(nFees) else
    if !MoneyRange(nFees + nTxFee) then Rejected(nFees + nTxFee) else
    Connected(ins.value.0[c.hashTx(tx) := added], nFees + nTxFee)
  }

  function DisconnectInput(idx: Index, prevout: COutPoint): Option<Index> {
    if prevout.hash !in idx || prevout.n >= |idx[prevout.hash].vSpent| then None else
    Some(idx[prevout.hash := idx[prevout.hash].(vSpent := idx[prevout.hash].vSpent[prevout.n := NullPos])])
  }

  function DisconnectInputsFrom(idx: Index, tx: CTransaction, i: nat): Option<Index>
    requires i <= |tx.vin|
    decreases |tx.vin| - i
  {
    if i == |tx.vin| then Some(idx) else
    var step := DisconnectInput(idx, tx.vin[i].prevout);
    if step.None? then None else DisconnectInputsFrom(step.value, tx, i + 1)
  }

  function DisconnectTx(f: TxHash, idx: Index, tx: CTransaction): Option<Index> {
    var ins := if tx.IsCoinBase() then Some(idx) else DisconnectInputsFrom(idx, tx, 0);
    if ins.None? then None else Some(ins.value - {f(tx)})
  }

  // ----- the transactions of a block, each with its position -----

  datatype Entry = Entry(tx: CTransaction, pos: CDiskTxPos)

  function ConnectEntries(c: Context, idx: Index, es: seq<Entry>, nFees: int): Option<(Index, int)>
    decreases |es|
  {
    if es == [] then Some((idx, nFees)) else
    var r := ConnectTx(c, idx, es[0].tx, es[0].pos, nFees, 0);
    if r.Rejected? then None else ConnectEntries(c, r.idx, es[1..], r.nFees)
  }

  /** Last transaction first. */
  function DisconnectEntries(f: TxHash, idx: Index, es: seq<Entry>): Option<Index>
    decreases |es|
  {
    if es == [] then Some(idx) else
    var r := DisconnectTx(f, idx, es[|es| - 1].tx);
    if r.None? then None else DisconnectEntries(f, r.value, es[..|es| - 1])
  }

  function HashOf(f: TxHash, e: Entry): uint256 {
    f(e.tx)
  }

  predicate DistinctTxids(f: TxHash, es: seq<Entry>) {
    forall i, j {:trigger HashOf(f, es[i]), HashOf(f, es[j])} ::
      0 <= i < j < |es| ==> HashOf(f, es[i]) != HashOf(f, es[j])
  }

  /** Among these entries a hash stands for one transaction only. */
  ghost predicate NoCollisions(f: TxHash, es: seq<Entry>) {
    forall i, j {:trigger HashOf(f, es[i]), HashOf(f, es[j])} ::
      0 <= i < j < |es| && HashOf(f, es[i]) == HashOf(f, es[j]) ==> es[i].tx == es[j].tx
  }

  predicate FreshTxids(f: TxHash, idx: Index, es: seq<Entry>) {
    forall i :: 0 <= i < |es| ==> HashOf(f, es[i]) !in idx
  }

  /** Every null slot is the one SetNull writes.  IsNull looks at nFile alone. */
  ghost predicate CanonicalNulls(idx: Index) {
    forall h, n :: h in idx && 0 <= n < |idx[h].vSpent| && idx[h].vSpent[n].IsNull() ==> idx[h].vSpent[n] == NullPos
  }

  // ----- disconnecting undoes connecting -----

  lemma {:induction false} ConnectInputsKeys(c: Context, idx: Index, tx: CTransaction, pos: CDiskTxPos, i: nat, nValueIn: int)
    requires i <= |tx.vin|
    ensures var r := ConnectInputsFrom(c, idx, tx, pos, i, nValueIn); r.Some? ==> r.value.0.Keys == idx.Keys
    decreases |tx.vin| - i
  {
    if i < |tx.vin| {
      var step := ConnectInput(c, idx, tx, pos, i, nValueIn);
      if step.Some? {
        ConnectInputsKeys(c, step.value.0, tx, pos, i + 1, step.value.1);
      }
    }
  }

  /** A slot already spent keeps its value: no later input of the same
      transaction can take it. */
  lemma {:induction false} SpentSlotKept(c: Context, idx: Index, tx: CTransaction, pos: CDiskTxPos, i: nat, nValueIn: int, p: COutPoint)
    requires i <= |tx.vin| && p.hash in idx && p.n < |idx[p.hash].vSpent| && !idx[p.hash].vSpent[p.n].IsNull()
    ensures var r := ConnectInputsFrom(c, idx, tx, pos, i, nValueIn);
            r.Some? ==> (forall k :: i <= k < |tx.vin| ==> tx.vin[k].prevout != p)
    decreases |tx.vin| - i
  {
    if i < |tx.vin| {
      var step := ConnectInput(c, idx, tx, pos, i, nValueIn);
      if step.Some? {
        SpentSlotKept(c, step.value.0, tx, pos, i + 1, step.value.1, p);
      }
    }
  }

  lemma {:induction false} DisconnectCommutes(idx: Index, tx: CTransaction, i: nat, p: COutPoint)
    requires i <= |tx.vin| && p.hash in idx && p.n < |idx[p.hash].vSpent|
    requires forall k :: i <= k < |tx.vin| ==> tx.vin[k].prevout != p
    ensures DisconnectInputsFrom(DisconnectInput(idx, p).value, tx, i) ==
            var r := DisconnectInputsFrom(idx, tx, i); if r.None? then None else DisconnectInput(r.value, p)
    ensures var r := DisconnectInputsFrom(idx, tx, i);
            r.Some? ==> p.hash in r.value && p.n < |r.value[p.hash].vSpent|
    decreases |tx.vin| - i
  {
    if i < |tx.vin| {
      var q := tx.vin[i].prevout;
      var step := DisconnectInput(idx, q);
      if step.Some? {
        DisconnectCommutes(step.value, tx, i + 1, p);
        if q.hash == p.hash {
          var v := idx[p.hash].vSpent;
          assert v[p.n := NullPos][q.n := NullPos] == v[q.n := NullPos][p.n := NullPos];
        }
        assert DisconnectInput(DisconnectInput(idx, p).value, q).value == DisconnectInput(step.value, p).value;
      }
    }
  }

  lemma {:induction false} UndoInput(c: Context, idx: Index, tx: CTransaction, pos: CDiskTxPos, i: nat, nValueIn: int)
    requires i < |tx.vin| && CanonicalNulls(idx) && !pos.IsNull() && ConnectInput(c, idx, tx, pos, i, nValueIn).Some?
    ensures var p, idx1 := tx.vin[i].prevout, ConnectInput(c, idx, tx, pos, i, nValueIn).value.0;
            && CanonicalNulls(idx1) && DisconnectInput(idx1, p) == Some(idx)
            && p.hash in idx1 && p.n < |idx1[p.hash].vSpent| && !idx1[p.hash].vSpent[p.n].IsNull()
  {
    var p, idx1 := tx.vin[i].prevout, ConnectInput(c, idx, tx, pos, i, nValueIn).value.0;
    assert idx1[p.hash].vSpent[p.n := NullPos] == idx[p.hash].vSpent;
    assert DisconnectInput(idx1, p).value == idx;
  }

  /** Input i is undone first but was done first: no later one touches its slot. */
  lemma {:induction false} UndoFirst(c: Context, idx: Index, idx1: Index, tx: CTransaction, pos: CDiskTxPos, i: nat, nValueIn: int)
    requires i < |tx.vin| && ConnectInputsFrom(c, idx1, tx, pos, i + 1, nValueIn).Some?
    requires var p := tx.vin[i].prevout;
             && DisconnectInput(idx1, p) == Some(idx)
             && p.hash in idx1 && p.n < |idx1[p.hash].vSpent| && !idx1[p.hash].vSpent[p.n].IsNull()
    requires DisconnectInputsFrom(ConnectInputsFrom(c, idx1, tx, pos, i + 1, nValueIn).value.0, tx, i + 1) == Some(idx1)
    ensures DisconnectInputsFrom(ConnectInputsFrom(c, idx1, tx, pos, i + 1, nValueIn).value.0, tx, i) == Some(idx)
  {
    var p := tx.vin[i].prevout;
    SpentSlotKept(c, idx1, tx, pos, i + 1, nValueIn, p);
    ConnectInputsShape(c, idx1, tx, pos, i + 1, nValueIn);
    DisconnectCommutes(ConnectInputsFrom(c, idx1, tx, pos, i + 1, nValueIn).value.0, tx, i + 1, p);
  }

  lemma {:induction false} UndoInputs(c: Context, idx: Index, tx: CTransaction, pos: CDiskTxPos, i: nat, nValueIn: int)
    requires i <= |tx.vin| && CanonicalNulls(idx) && !pos.IsNull()
    ensures var r := ConnectInputsFrom(c, idx, tx, pos, i, nValueIn);
            r.Some? ==> DisconnectInputsFrom(r.value.0, tx, i) == Some(idx)
    decreases |tx.vin| - i
  {
    if i < |tx.vin| {
      var step := ConnectInput(c, idx, tx, pos, i, nValueIn);
      if step.Some? {
        var idx1 := step.value.0;
        var r := ConnectInputsFrom(c, idx1, tx, pos, i + 1, step.value.1);
        if r.Some? {
          UndoInput(c, idx, tx, pos, i, nValueIn);
          UndoInputs(c, idx1, tx, pos, i + 1, step.value.1);
          UndoFirst(c, idx, idx1, tx, pos, i, step.value.1);
        }
      }
    }
  }

  /** Connecting inputs changes no position and no number of slots. */
  lemma {:induction false} ConnectInputsShape(c: Context, idx: Index, tx: CTransaction, pos: CDiskTxPos, i: nat, nValueIn: int)
    requires i <= |tx.vin|
    ensures var r := ConnectInputsFrom(c, idx, tx, pos, i, nValueIn);
            r.Some? ==> forall h :: h in idx ==> h in r.value.0 && r.value.0[h].pos == idx[h].pos
                                                 && |r.value.0[h].vSpent| == |idx[h].vSpent|
    decreases |tx.vin| - i
  {
    if i < |tx.vin| {
      var step := ConnectInput(c, idx, tx, pos, i, nValueIn);
      if step.Some? {
        ConnectInputsShape(c, step.value.0, tx, pos, i + 1, step.value.1);
      }
    }
  }

  lemma {:induction false} InputsIndexed(c: Context, idx: Index, tx: CTransaction, pos: CDiskTxPos, i: nat, nValueIn: int)
    requires i <= |tx.vin| && ConnectInputsFrom(c, idx, tx, pos, i, nValueIn).Some?
    ensures forall k :: i <= k < |tx.vin| ==> tx.vin[k].prevout.hash in idx
    decreases |tx.vin| - i
  {
    if i < |tx.vin| {
      var step := ConnectInput(c, idx, tx, pos, i, nValueIn).value;
      InputsIndexed(c, step.0, tx, pos, i + 1, step.1);
    }
  }

  lemma {:induction false} DisconnectFrame(idx: Index, tx: CTransaction, i: nat, h: uint256, t: CTxIndex)
    requires i <= |tx.vin|
    requires forall k :: i <= k < |tx.vin| ==> tx.vin[k].prevout.hash != h
    ensures DisconnectInputsFrom(idx[h := t], tx, i) ==
            var r := DisconnectInputsFrom(idx, tx, i); if r.None? then None else Some(r.value[h := t])
    decreases |tx.vin| - i
  {
    if i < |tx.vin| {
      var q := tx.vin[i].prevout;
      var step := DisconnectInput(idx, q);
      if step.Some? {
        DisconnectFrame(step.value, tx, i + 1, h, t);
        assert DisconnectInput(idx[h := t], q).value == step.value[h := t];
      }
    }
  }

  lemma {:induction false} UndoTx(c: Context, idx: Index, tx: CTransaction, pos: CDiskTxPos, nFees: int, nMinFee: int)
    requires CanonicalNulls(idx) && !pos.IsNull() && c.hashTx(tx) !in idx
    ensures var r := ConnectTx(c, idx, tx, pos, nFees, nMinFee);
            r.Connected? ==> DisconnectTx(c.hashTx, r.idx, tx) == Some(idx)
  {
    var h, added := c.hashTx(tx), NewTxIndex(pos, |tx.vout|);
    var r := ConnectTx(c, idx, tx, pos, nFees, nMinFee);
    assert idx[h := added] - {h} == idx;
    if r.Connected? && !tx.IsCoinBase() {
      UndoInputs(c, idx, tx, pos, 0, 0);
      InputsIndexed(c, idx, tx, pos, 0, 0);
      var ins := ConnectInputsFrom(c, idx, tx, pos, 0, 0).value.0;
      DisconnectFrame(ins, tx, 0, h, added);
    }
  }

  lemma {:induction false} ConnectInputsCanonical(c: Context, idx: Index, tx: CTransaction, pos: CDiskTxPos, i: nat, nValueIn: int)
    requires i <= |tx.vin| && CanonicalNulls(idx) && !pos.IsNull()
    ensures var r := ConnectInputsFrom(c, idx, tx, pos, i, nValueIn); r.Some? ==> CanonicalNulls(r.value.0)
    decreases |tx.vin| - i
  {
    if i < |tx.vin| {
      var step := ConnectInput(c, idx, tx, pos, i, nValueIn);
      if step.Some? {
        assert CanonicalNulls(step.value.0);
        ConnectInputsCanonical(c, step.value.0, tx, pos, i + 1, step.value.1);
      }
    }
  }

  lemma {:induction false} ConnectTxKeys(c: Context, idx: Index, tx: CTransaction, pos: CDiskTxPos, nFees: int, nMinFee: int)
    ensures var r := ConnectTx(c, idx, tx, pos, nFees, nMinFee);
            r.Connected? ==> r.idx.Keys == idx.Keys + {c.hashTx(tx)}
                             && (CanonicalNulls(idx) && !pos.IsNull() ==> CanonicalNulls(r.idx))
  {
    var r := ConnectTx(c, idx, tx, pos, nFees, nMinFee);
    if r.Connected? && !tx.IsCoinBase() {
      ConnectInputsKeys(c, idx, tx, pos, 0, 0);
      if CanonicalNulls(idx) && !pos.IsNull() {
        ConnectInputsCanonical(c, idx, tx, pos, 0, 0);
      }
    }
  }

  /** Disconnecting the first entry last. */
  lemma {:induction false} DisconnectFirst(f: TxHash, idx: Index, es: seq<Entry>)
    requires es != []
    ensures DisconnectEntries(f, idx, es) ==
            var r := DisconnectEntries(f, idx, es[1..]); if r.None? then None else DisconnectTx(f, r.value, es[0].tx)
    decreases |es|
  {
    if |es| > 1 {
      var last := es[|es| - 1];
      var r := DisconnectTx(f, idx, last.tx);
      assert es[1..][..|es| - 2] == es[..|es| - 1][1..];
      if r.Some? {
        DisconnectFirst(f, r.value, es[..|es| - 1]);
      }
    }
  }

  predicate AllPlaced(es: seq<Entry>) {
    forall k :: 0 <= k < |es| ==> !es[k].pos.IsNull()
  }

  lemma {:induction false} UndoEntries(c: Context, idx: Index, es: seq<Entry>, nFees: int)
    requires CanonicalNulls(idx) && AllPlaced(es) && DistinctTxids(c.hashTx, es) && FreshTxids(c.hashTx, idx, es)
    ensures var r := ConnectEntries(c, idx, es, nFees);
            r.Some? ==> DisconnectEntries(c.hashTx, r.value.0, es) == Some(idx)
    decreases |es|
  {
    if es != [] {
      var r := ConnectTx(c, idx, es[0].tx, es[0].pos, nFees, 0);
      if r.Connected? {
        ConnectTxKeys(c, idx, es[0].tx, es[0].pos, nFees, 0);
        assert FreshTxids(c.hashTx, r.idx, es[1..]) by {
          forall k | 0 <= k < |es[1..]| ensures HashOf(c.hashTx, es[1..][k]) !in r.idx {
            assert HashOf(c.hashTx, es[0]) != HashOf(c.hashTx, es[k + 1]);
          }
        }
        UndoEntries(c, r.idx, es[1..], r.nFees);
        UndoTx(c, idx, es[0].tx, es[0].pos, nFees, 0);
        var rest := ConnectEntries(c, r.idx, es[1..], r.nFees);
        if rest.Some? {
          DisconnectFirst(c.hashTx, rest.value.0, es);
        }
      }
    }
  }

  lemma {:induction false} DisconnectInputsKeys(idx: Index, tx: CTransaction, i: nat)
    requires i <= |tx.vin|
    ensures var r := DisconnectInputsFrom(idx, tx, i); r.Some? ==> r.value.Keys == idx.Keys
    decreases |tx.vin| - i
  {
    if i < |tx.vin| {
      var step := DisconnectInput(idx, tx.vin[i].prevout);
      if step.Some? {
        DisconnectInputsKeys(step.value, tx, i + 1);
      }
    }
  }

  lemma {:induction false} DisconnectRemovesTxids(f: TxHash, idx: Index, es: seq<Entry>)
    ensures var r := DisconnectEntries(f, idx, es); r.Some? ==> r.value.Keys <= idx.Keys && FreshTxids(f, r.value, es)
    decreases |es|
  {
    if es != [] {
      var tx := es[|es| - 1].tx;
      var r := DisconnectTx(f, idx, tx);
      if r.Some? {
        if !tx.IsCoinBase() {
          DisconnectInputsKeys(idx, tx, 0);
        }
        DisconnectRemovesTxids(f, r.value, es[..|es| - 1]);
        var out := DisconnectEntries(f, r.value, es[..|es| - 1]);
        if out.Some? {
          forall k | 0 <= k < |es| ensures HashOf(f, es[k]) !in out.value {
            if k < |es| - 1 {
              assert HashOf(f, es[..|es| - 1][k]) !in out.value;
            }
          }
        }
      }
    }
  }

  /** Disconnecting a block right after connecting it restores the index exactly
      if and only if none of its transaction hashes was already a key.  AddTxIndex
      overwrites silently, so a repeated hash loses the older record. */
  lemma {:induction false} DisconnectUndoesConnect(c: Context, idx: Index, es: seq<Entry>, nFees: int)
    requires CanonicalNulls(idx) && AllPlaced(es) && DistinctTxids(c.hashTx, es)
    requires ConnectEntries(c, idx, es, nFees).Some?
    ensures DisconnectEntries(c.hashTx, ConnectEntries(c, idx, es, nFees).value.0, es) == Some(idx) <==> FreshTxids(c.hashTx, idx, es)
  {
    var r := ConnectEntries(c, idx, es, nFees).value.0;
    if FreshTxids(c.hashTx, idx, es) {
      UndoEntries(c, idx, es, nFees);
    }
    DisconnectRemovesTxids(c.hashTx, r, es);
  }

  lemma {:induction false} ConnectEntriesAppend(c: Context, idx: Index, es: seq<Entry>, e: Entry, nFees: int)
    ensures var r := ConnectEntries(c, idx, es, nFees);
            ConnectEntries(c, idx, es + [e], nFees) ==
            if r.None? then None else
            var s := ConnectTx(c, r.value.0, e.tx, e.pos, r.value.1, 0);
            if s.Rejected? then None else Some((s.idx, s.nFees))
    decreases |es|
  {
    if es == [] {
      assert [] + [e] == [e] && [e][1..] == [];
      var s := ConnectTx(c, idx, e.tx, e.pos, nFees, 0);
      if s.Connected? {
        assert ConnectEntries(c, s.idx, [], s.nFees) == Some((s.idx, s.nFees));
      }
    } else {
      assert (es + [e])[0] == es[0] && (es + [e])[1..] == es[1..] + [e];
      var s := ConnectTx(c, idx, es[0].tx, es[0].pos, nFees, 0);
      if s.Connected? {
        ConnectEntriesAppend(c, s.idx, es[1..], e, s.nFees);
      }
    }
  }
}
