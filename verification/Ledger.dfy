/** The meaning of the transaction index.  A ledger is the list of connected
    transactions, oldest first, each with its position on disk.  It determines
    one index; connecting appends to it and disconnecting drops from its end. */
module Ledger {
  import opened Basics
  import opened Serialize
  import opened TxIndex

  /** Which entry each transaction hash names. */
  function Placed(f: TxHash, l: seq<Entry>): map<uint256, Entry> {
    if l == [] then map[] else
    var e := l[|l| - 1];
    Placed(f, l[..|l| - 1])[HashOf(f, e) := e]
  }

  function SpendFrom(spent: map<COutPoint, CDiskTxPos>, tx: CTransaction, pos: CDiskTxPos, i: nat): map<COutPoint, CDiskTxPos>
    requires i <= |tx.vin|
    decreases |tx.vin| - i
  {
    if i == |tx.vin| then spent else SpendFrom(spent[tx.vin[i].prevout := pos], tx, pos, i + 1)
  }

  function SpendAll(spent: map<COutPoint, CDiskTxPos>, e: Entry): map<COutPoint, CDiskTxPos> {
    if e.tx.IsCoinBase() then spent else SpendFrom(spent, e.tx, e.pos, 0)
  }

  /** Which outputs are spent, and where the spender is. */
  function Spent(l: seq<Entry>): map<COutPoint, CDiskTxPos> {
    if l == [] then map[] else SpendAll(Spent(l[..|l| - 1]), l[|l| - 1])
  }

  function Slot(spent: map<COutPoint, CDiskTxPos>, h: uint256, n: nat): CDiskTxPos {
    if n <= UINT_MAX && COutPoint(h, n) in spent then spent[COutPoint(h, n)] else NullPos
  }

  function Record(e: Entry, spent: map<COutPoint, CDiskTxPos>, h: uint256): CTxIndex {
    CTxIndex(e.pos, seq(|e.tx.vout|, n requires 0 <= n => Slot(spent, h, n)))
  }

  function IndexOf(placed: map<uint256, Entry>, spent: map<COutPoint, CDiskTxPos>): Index {
    map h | h in placed :: Record(placed[h], spent, h)
  }

  /** The index a ledger stands for. */
  function LedgerIndex(f: TxHash, l: seq<Entry>): Index {
    IndexOf(Placed(f, l), Spent(l))
  }

  /** The output exists among the placed transactions. */
  predicate Exists(placed: map<uint256, Entry>, p: COutPoint) {
    p.hash in placed && p.n < |placed[p.hash].tx.vout|
  }

  predicate ValidInputs(placed: map<uint256, Entry>, spent: map<COutPoint, CDiskTxPos>, tx: CTransaction, i: nat) {
    && (forall k :: i <= k < |tx.vin| ==> Exists(placed, tx.vin[k].prevout) && tx.vin[k].prevout !in spent)
    && (forall j, k :: i <= j < k < |tx.vin| ==> tx.vin[j].prevout != tx.vin[k].prevout)
  }

  predicate ValidEntry(f: TxHash, placed: map<uint256, Entry>, spent: map<COutPoint, CDiskTxPos>, e: Entry) {
    && HashOf(f, e) !in placed && !e.pos.IsNull()
    && (e.tx.IsCoinBase() || ValidInputs(placed, spent, e.tx, 0))
  }

  /** Hashes are distinct, every input names an output of an earlier
      transaction, and no output is spent twice. */
  predicate ValidLedger(f: TxHash, l: seq<Entry>) {
    l == [] ||
    (ValidLedger(f, l[..|l| - 1]) && ValidEntry(f, Placed(f, l[..|l| - 1]), Spent(l[..|l| - 1]), l[|l| - 1]))
  }

  lemma {:induction false} PlacedKeys(f: TxHash, l: seq<Entry>)
    ensures forall h :: h in Placed(f, l) <==> exists k :: 0 <= k < |l| && HashOf(f, l[k]) == h
  {
    if l != [] {
      var m := l[..|l| - 1];
      PlacedKeys(f, m);
      forall h | h in Placed(f, l)
        ensures exists k :: 0 <= k < |l| && HashOf(f, l[k]) == h
      {
        if h == HashOf(f, l[|l| - 1]) {
        } else {
          assert h in Placed(f, m);
          var k :| 0 <= k < |m| && HashOf(f, m[k]) == h;
          assert HashOf(f, l[k]) == h;
        }
      }
      forall k | 0 <= k < |l|
        ensures HashOf(f, l[k]) in Placed(f, l)
      {
        if k < |m| {
          assert HashOf(f, m[k]) in Placed(f, m);
        }
      }
    }
  }

  lemma {:induction false} PlacedAt(f: TxHash, l: seq<Entry>, k: nat)
    requires ValidLedger(f, l) && k < |l|
    ensures HashOf(f, l[k]) in Placed(f, l) && Placed(f, l)[HashOf(f, l[k])] == l[k]
  {
    if k < |l| - 1 {
      var m := l[..|l| - 1];
      PlacedAt(f, m, k);
      assert m[k] == l[k];
    }
  }

  lemma {:induction false} ValidHashesDistinct(f: TxHash, l: seq<Entry>)
    requires ValidLedger(f, l)
    ensures DistinctTxids(f, l)
  {
    if l != [] {
      var m := l[..|l| - 1];
      ValidHashesDistinct(f, m);
      PlacedKeys(f, m);
      forall i, j | 0 <= i < j < |l|
        ensures HashOf(f, l[i]) != HashOf(f, l[j])
      {
        assert m[i] == l[i];
        if j < |m| {
          assert m[j] == l[j];
        }
      }
    }
  }

  lemma {:induction false} SpendFromKeys(spent: map<COutPoint, CDiskTxPos>, tx: CTransaction, pos: CDiskTxPos, i: nat)
    requires i <= |tx.vin|
    ensures forall p :: p in SpendFrom(spent, tx, pos, i) <==> p in spent || exists k :: i <= k < |tx.vin| && tx.vin[k].prevout == p
    ensures forall p :: p in SpendFrom(spent, tx, pos, i) ==>
              SpendFrom(spent, tx, pos, i)[p] ==
              if exists k :: i <= k < |tx.vin| && tx.vin[k].prevout == p then pos else spent[p]
    decreases |tx.vin| - i
  {
    if i < |tx.vin| {
      SpendFromKeys(spent[tx.vin[i].prevout := pos], tx, pos, i + 1);
    }
  }

  /** Spent outputs exist, and their spenders' positions are not null. */
  lemma {:induction false} SpentClosed(f: TxHash, l: seq<Entry>)
    requires ValidLedger(f, l)
    ensures forall p :: p in Spent(l) ==> Exists(Placed(f, l), p) && !Spent(l)[p].IsNull()
  {
    if l != [] {
      var m, e := l[..|l| - 1], l[|l| - 1];
      SpentClosed(f, m);
      if !e.tx.IsCoinBase() {
        SpendFromKeys(Spent(m), e.tx, e.pos, 0);
      }
    }
  }

  predicate SpendsAt(l: seq<Entry>, k: nat, i: nat, p: COutPoint) {
    k < |l| && !l[k].tx.IsCoinBase() && i < |l[k].tx.vin| && l[k].tx.vin[i].prevout == p
  }

  lemma {:induction false} SpendsInFront(l: seq<Entry>, k: nat, i: nat, p: COutPoint)
    requires l != [] && k < |l| - 1
    ensures SpendsAt(l, k, i, p) <==> SpendsAt(l[..|l| - 1], k, i, p)
  {
  }

  /** A spent output stays recorded as spent by the same transaction. */
  lemma {:induction false} SpentKept(f: TxHash, l: seq<Entry>, p: COutPoint)
    requires l != [] && ValidLedger(f, l) && p in Spent(l[..|l| - 1])
    ensures p in Spent(l) && Spent(l)[p] == Spent(l[..|l| - 1])[p]
    ensures forall k: nat, i: nat :: SpendsAt(l, k, i, p) ==> k < |l| - 1
  {
    var m, e := l[..|l| - 1], l[|l| - 1];
    if !e.tx.IsCoinBase() {
      SpendFromKeys(Spent(m), e.tx, e.pos, 0);
    }
  }

  lemma {:induction false} SpenderRecorded(f: TxHash, l: seq<Entry>, k: nat, i: nat, p: COutPoint)
    requires ValidLedger(f, l) && SpendsAt(l, k, i, p)
    ensures p in Spent(l) && Spent(l)[p] == l[k].pos
  {
    if k < |l| - 1 {
      SpendsInFront(l, k, i, p);
      SpenderRecorded(f, l[..|l| - 1], k, i, p);
      SpentKept(f, l, p);
    } else {
      SpendFromKeys(Spent(l[..k]), l[k].tx, l[k].pos, 0);
    }
  }

  lemma {:induction false} RecordedSpends(f: TxHash, l: seq<Entry>, p: COutPoint) returns (k: nat, i: nat)
    requires ValidLedger(f, l) && p in Spent(l)
    ensures SpendsAt(l, k, i, p)
  {
    var m, e := l[..|l| - 1], l[|l| - 1];
    if p in Spent(m) {
      k, i := RecordedSpends(f, m, p);
      SpendsInFront(l, k, i, p);
    } else {
      SpendFromKeys(Spent(m), e.tx, e.pos, 0);
      k := |m|;
      i :| 0 <= i < |e.tx.vin| && e.tx.vin[i].prevout == p;
    }
  }

  lemma {:induction false} SpendsOnce(f: TxHash, l: seq<Entry>, k: nat, i: nat, k': nat, i': nat, p: COutPoint)
    requires ValidLedger(f, l) && k <= k' && SpendsAt(l, k, i, p) && SpendsAt(l, k', i', p)
    ensures k == k' && i == i'
  {
    if k < |l| - 1 {
      SpendsInFront(l, k, i, p);
      if k' < |l| - 1 {
        SpendsInFront(l, k', i', p);
        SpendsOnce(f, l[..|l| - 1], k, i, k', i', p);
      } else {
        SpenderRecorded(f, l[..|l| - 1], k, i, p);
        SpentKept(f, l, p);
      }
    }
  }

  /** An output is in Spent exactly when some transaction of the ledger spends
      it; there is then only one such input, and the position recorded is that
      transaction's. */
  lemma {:induction false} SpentMeaning(f: TxHash, l: seq<Entry>, p: COutPoint)
    requires ValidLedger(f, l)
    ensures p in Spent(l) <==> exists k: nat, i: nat :: SpendsAt(l, k, i, p)
    ensures forall k: nat, i: nat :: SpendsAt(l, k, i, p) ==> p in Spent(l) && Spent(l)[p] == l[k].pos
    ensures forall k: nat, i: nat, k': nat, i': nat :: SpendsAt(l, k, i, p) && SpendsAt(l, k', i', p) ==> k == k' && i == i'
  {
    if p in Spent(l) {
      var k, i := RecordedSpends(f, l, p);
    }
    forall k: nat, i: nat | SpendsAt(l, k, i, p)
      ensures p in Spent(l) && Spent(l)[p] == l[k].pos
    {
      SpenderRecorded(f, l, k, i, p);
    }
    forall k: nat, i: nat, k': nat, i': nat | SpendsAt(l, k, i, p) && SpendsAt(l, k', i', p)
      ensures k == k' && i == i'
    {
      if k <= k' {
        SpendsOnce(f, l, k, i, k', i', p);
      } else {
        SpendsOnce(f, l, k', i', k, i, p);
      }
    }
  }

  // ----- connecting and disconnecting, seen on the ledger -----

  lemma {:induction false} SpendStep(placed: map<uint256, Entry>, spent: map<COutPoint, CDiskTxPos>, p: COutPoint, pos: CDiskTxPos)
    requires Exists(placed, p)
    ensures p.hash in IndexOf(placed, spent)
    ensures var t := IndexOf(placed, spent)[p.hash];
            p.n < |t.vSpent|
            && IndexOf(placed, spent)[p.hash := t.(vSpent := t.vSpent[p.n := pos])] == IndexOf(placed, spent[p := pos])
  {
    var idx := IndexOf(placed, spent);
    var t := idx[p.hash];
    var out := idx[p.hash := t.(vSpent := t.vSpent[p.n := pos])];
    forall h | h in placed
      ensures out[h] == Record(placed[h], spent[p := pos], h)
    {
      if h == p.hash {
        assert out[h].vSpent == Record(placed[h], spent[p := pos], h).vSpent;
      } else {
        assert idx[h].vSpent == Record(placed[h], spent[p := pos], h).vSpent;
      }
    }
  }

  lemma {:induction false} UnspendStep(placed: map<uint256, Entry>, spent: map<COutPoint, CDiskTxPos>, p: COutPoint)
    requires Exists(placed, p)
    ensures DisconnectInput(IndexOf(placed, spent), p) == Some(IndexOf(placed, spent - {p}))
  {
    SpendStep(placed, spent, p, NullPos);
    var a, b := IndexOf(placed, spent[p := NullPos]), IndexOf(placed, spent - {p});
    forall h | h in placed
      ensures a[h] == b[h]
    {
      assert a[h].vSpent == b[h].vSpent;
    }
    assert a == b;
  }

  lemma {:induction false} ConnectInputOnLedger(c: Context, placed: map<uint256, Entry>, spent: map<COutPoint, CDiskTxPos>,
                                               tx: CTransaction, pos: CDiskTxPos, i: nat, nValueIn: int)
    requires i < |tx.vin| && forall p :: p in spent ==> !spent[p].IsNull()
    ensures var p, r := tx.vin[i].prevout, ConnectInput(c, IndexOf(placed, spent), tx, pos, i, nValueIn);
            r.Some? ==> Exists(placed, p) && p !in spent && r.value.0 == IndexOf(placed, spent[p := pos])
  {
    var p := tx.vin[i].prevout;
    if ConnectInput(c, IndexOf(placed, spent), tx, pos, i, nValueIn).Some? {
      assert Exists(placed, p);
      SpendStep(placed, spent, p, pos);
    }
  }

  lemma {:induction false} ConnectInputsOnLedger(c: Context, placed: map<uint256, Entry>, spent: map<COutPoint, CDiskTxPos>,
                                                tx: CTransaction, pos: CDiskTxPos, i: nat, nValueIn: int)
    requires i <= |tx.vin| && !pos.IsNull()
    requires forall p :: p in spent ==> !spent[p].IsNull()
    ensures var r := ConnectInputsFrom(c, IndexOf(placed, spent), tx, pos, i, nValueIn);
            r.Some? ==> r.value.0 == IndexOf(placed, SpendFrom(spent, tx, pos, i)) && ValidInputs(placed, spent, tx, i)
    decreases |tx.vin| - i
  {
    if i < |tx.vin| {
      var idx := IndexOf(placed, spent);
      var step := ConnectInput(c, idx, tx, pos, i, nValueIn);
      if step.Some? {
        var p := tx.vin[i].prevout;
        ConnectInputOnLedger(c, placed, spent, tx, pos, i, nValueIn);
        ConnectInputsOnLedger(c, placed, spent[p := pos], tx, pos, i + 1, step.value.1);
      }
    }
  }

  /** A successful ConnectInputs appends the transaction to the ledger. */
  lemma {:induction false} ConnectTxOnLedger(c: Context, l: seq<Entry>, e: Entry, nFees: int, nMinFee: int)
    requires ValidLedger(c.hashTx, l) && !e.pos.IsNull() && HashOf(c.hashTx, e) !in Placed(c.hashTx, l)
    ensures var r := ConnectTx(c, LedgerIndex(c.hashTx, l), e.tx, e.pos, nFees, nMinFee);
            r.Connected? ==> r.idx == LedgerIndex(c.hashTx, l + [e]) && ValidLedger(c.hashTx, l + [e])
  {
    var r := ConnectTx(c, LedgerIndex(c.hashTx, l), e.tx, e.pos, nFees, nMinFee);
    assert (l + [e])[..|l|] == l;
    if r.Connected? {
      SpentClosed(c.hashTx, l);
      if !e.tx.IsCoinBase() {
        ConnectInputsOnLedger(c, Placed(c.hashTx, l), Spent(l), e.tx, e.pos, 0, 0);
      }
      var spent := SpendAll(Spent(l), e);
      assert ValidLedger(c.hashTx, l + [e]);
      AddRecord(c.hashTx, l, e);
    }
  }

  lemma {:induction false} AddRecord(f: TxHash, l: seq<Entry>, e: Entry)
    requires ValidLedger(f, l + [e])
    ensures LedgerIndex(f, l + [e]) ==
            IndexOf(Placed(f, l), SpendAll(Spent(l), e))[HashOf(f, e) := NewTxIndex(e.pos, |e.tx.vout|)]
  {
    assert (l + [e])[..|l|] == l;
    SpentClosed(f, l);
    if !e.tx.IsCoinBase() {
      SpendFromKeys(Spent(l), e.tx, e.pos, 0);
    }
    IndexAdd(Placed(f, l), SpendAll(Spent(l), e), HashOf(f, e), e);
  }

  /** A transaction none of whose outputs are spent has a new record. */
  lemma {:induction false} IndexAdd(placed: map<uint256, Entry>, spent: map<COutPoint, CDiskTxPos>, h: uint256, e: Entry)
    requires forall p :: p in spent ==> p.hash != h
    ensures IndexOf(placed[h := e], spent) == IndexOf(placed, spent)[h := NewTxIndex(e.pos, |e.tx.vout|)]
  {
    assert Record(e, spent, h).vSpent == NewTxIndex(e.pos, |e.tx.vout|).vSpent;
  }

  /** The inputs of tx from i on are what spent has over before. */
  ghost predicate SpentSince(before: map<COutPoint, CDiskTxPos>, spent: map<COutPoint, CDiskTxPos>, tx: CTransaction, i: nat) {
    && (forall p :: p in spent <==> p in before || exists k :: i <= k < |tx.vin| && tx.vin[k].prevout == p)
    && (forall p :: p in before ==> spent[p] == before[p])
  }

  lemma {:induction false} SpentSinceStep(placed: map<uint256, Entry>, before: map<COutPoint, CDiskTxPos>,
                                         spent: map<COutPoint, CDiskTxPos>, tx: CTransaction, i: nat)
    requires i < |tx.vin| && ValidInputs(placed, before, tx, 0) && SpentSince(before, spent, tx, i)
    ensures SpentSince(before, spent - {tx.vin[i].prevout}, tx, i + 1)
  {
    forall q | q in spent - {tx.vin[i].prevout}
      ensures q in before || exists k :: i + 1 <= k < |tx.vin| && tx.vin[k].prevout == q
    {
    }
  }

  lemma {:induction false} DisconnectInputsOnLedger(placed: map<uint256, Entry>, before: map<COutPoint, CDiskTxPos>,
                                                   spent: map<COutPoint, CDiskTxPos>, tx: CTransaction, i: nat)
    requires i <= |tx.vin| && ValidInputs(placed, before, tx, 0)
    requires SpentSince(before, spent, tx, i)
    ensures DisconnectInputsFrom(IndexOf(placed, spent), tx, i) == Some(IndexOf(placed, before))
    decreases |tx.vin| - i
  {
    if i == |tx.vin| {
      assert spent == before;
    } else {
      var p := tx.vin[i].prevout;
      UnspendStep(placed, spent, p);
      SpentSinceStep(placed, before, spent, tx, i);
      DisconnectInputsOnLedger(placed, before, spent - {p}, tx, i + 1);
    }
  }

  /** DisconnectInputs cannot fail on the last transaction of the ledger, and
      drops it. */
  lemma {:induction false} DisconnectTxOnLedger(f: TxHash, l: seq<Entry>, e: Entry)
    requires ValidLedger(f, l + [e])
    ensures DisconnectTx(f, LedgerIndex(f, l + [e]), e.tx) == Some(LedgerIndex(f, l))
  {
    assert (l + [e])[..|l|] == l;
    AddRecord(f, l, e);
    var placed, before, after, h := Placed(f, l), Spent(l), SpendAll(Spent(l), e), HashOf(f, e);
    var t := NewTxIndex(e.pos, |e.tx.vout|);
    assert IndexOf(placed, before)[h := t] - {h} == IndexOf(placed, before);
    if !e.tx.IsCoinBase() {
      SpendFromKeys(before, e.tx, e.pos, 0);
      DisconnectInputsOnLedger(placed, before, after, e.tx, 0);
      DisconnectFrame(IndexOf(placed, after), e.tx, 0, h, t);
    }
  }

  lemma {:induction false} HeadIsFresh(f: TxHash, l: seq<Entry>, es: seq<Entry>)
    requires es != [] && DistinctTxids(f, l + es)
    ensures HashOf(f, es[0]) !in Placed(f, l)
    ensures l + [es[0]] + es[1..] == l + es
  {
    PlacedKeys(f, l);
    forall k | 0 <= k < |l| ensures HashOf(f, l[k]) != HashOf(f, es[0]) {
      assert (l + es)[k] == l[k] && (l + es)[|l|] == es[0];
    }
  }

  lemma {:induction false} ConnectEntriesOnLedger(c: Context, l: seq<Entry>, es: seq<Entry>, nFees: int)
    requires ValidLedger(c.hashTx, l) && AllPlaced(es) && DistinctTxids(c.hashTx, l + es)
    ensures var r := ConnectEntries(c, LedgerIndex(c.hashTx, l), es, nFees);
            r.Some? ==> r.value.0 == LedgerIndex(c.hashTx, l + es) && ValidLedger(c.hashTx, l + es)
    decreases |es|
  {
    if es == [] {
      assert l + es == l;
    } else {
      var r := ConnectTx(c, LedgerIndex(c.hashTx, l), es[0].tx, es[0].pos, nFees, 0);
      if r.Connected? {
        FirstOnLedger(c, l, es, nFees);
        ConnectEntriesOnLedger(c, l + [es[0]], es[1..], r.nFees);
      }
    }
  }

  lemma {:induction false} FirstOnLedger(c: Context, l: seq<Entry>, es: seq<Entry>, nFees: int)
    requires es != [] && ValidLedger(c.hashTx, l) && !es[0].pos.IsNull() && DistinctTxids(c.hashTx, l + es)
    ensures l + [es[0]] + es[1..] == l + es
    ensures var r := ConnectTx(c, LedgerIndex(c.hashTx, l), es[0].tx, es[0].pos, nFees, 0);
            r.Connected? ==> r.idx == LedgerIndex(c.hashTx, l + [es[0]]) && ValidLedger(c.hashTx, l + [es[0]])
  {
    HeadIsFresh(c.hashTx, l, es);
    ConnectTxOnLedger(c, l, es[0], nFees, 0);
  }

  // ----- a repeated transaction -----

  /** A transaction that spends something cannot be connected twice: its first input
      finds the slot taken. */
  lemma {:induction false} RepeatRejected(c: Context, l: seq<Entry>, k: nat, pos: CDiskTxPos, nFees: int, nMinFee: int)
    requires ValidLedger(c.hashTx, l) && k < |l| && Spends(l[k])
    ensures ConnectTx(c, LedgerIndex(c.hashTx, l), l[k].tx, pos, nFees, nMinFee).Rejected?
  {
    var p := l[k].tx.vin[0].prevout;
    SpentClosed(c.hashTx, l);
    SpentMeaning(c.hashTx, l, p);
    assert SpendsAt(l, k, 0, p);
    assert ConnectInput(c, LedgerIndex(c.hashTx, l), l[k].tx, pos, 0, 0) == None;
  }

  predicate Spends(e: Entry) {
    !e.tx.IsCoinBase() && e.tx.vin != []
  }

  /** So, if a hash stands for one transaction, what connects is new. */
  lemma {:induction false} ConnectedIsFresh(c: Context, l: seq<Entry>, e: Entry, nFees: int, nMinFee: int)
    requires ValidLedger(c.hashTx, l) && Spends(e)
    requires forall k :: 0 <= k < |l| && HashOf(c.hashTx, l[k]) == HashOf(c.hashTx, e) ==> l[k].tx == e.tx
    requires ConnectTx(c, LedgerIndex(c.hashTx, l), e.tx, e.pos, nFees, nMinFee).Connected?
    ensures HashOf(c.hashTx, e) !in Placed(c.hashTx, l)
  {
    PlacedKeys(c.hashTx, l);
    if HashOf(c.hashTx, e) in Placed(c.hashTx, l) {
      var k :| 0 <= k < |l| && HashOf(c.hashTx, l[k]) == HashOf(c.hashTx, e);
      RepeatRejected(c, l, k, e.pos, nFees, nMinFee);
    }
  }

  /** The entries of a block on top of a ledger: the first is new, the others spend. */
  predicate BlockOn(f: TxHash, l: seq<Entry>, es: seq<Entry>) {
    && (es != [] ==> HashOf(f, es[0]) !in Placed(f, l) || Spends(es[0]))
    && forall k :: 1 <= k < |es| ==> Spends(es[k])
  }

  lemma {:induction false} CollisionFreeHead(f: TxHash, l: seq<Entry>, es: seq<Entry>)
    requires es != [] && NoCollisions(f, l + es)
    ensures forall k :: 0 <= k < |l| && HashOf(f, l[k]) == HashOf(f, es[0]) ==> l[k].tx == es[0].tx
    ensures l + [es[0]] + es[1..] == l + es
  {
    forall k | 0 <= k < |l| && HashOf(f, l[k]) == HashOf(f, es[0])
      ensures l[k].tx == es[0].tx
    {
      assert (l + es)[k] == l[k] && (l + es)[|l|] == es[0];
    }
  }

  lemma {:induction false} NewOnLedger(c: Context, l: seq<Entry>, es: seq<Entry>, nFees: int)
    requires es != [] && !es[0].pos.IsNull() && ValidLedger(c.hashTx, l) && NoCollisions(c.hashTx, l + es) && BlockOn(c.hashTx, l, es)
    requires ConnectTx(c, LedgerIndex(c.hashTx, l), es[0].tx, es[0].pos, nFees, 0).Connected?
    ensures l + [es[0]] + es[1..] == l + es
    ensures ConnectTx(c, LedgerIndex(c.hashTx, l), es[0].tx, es[0].pos, nFees, 0).idx == LedgerIndex(c.hashTx, l + [es[0]])
    ensures ValidLedger(c.hashTx, l + [es[0]]) && BlockOn(c.hashTx, l + [es[0]], es[1..])
  {
    CollisionFreeHead(c.hashTx, l, es);
    if HashOf(c.hashTx, es[0]) in Placed(c.hashTx, l) {
      ConnectedIsFresh(c, l, es[0], nFees, 0);
    }
    ConnectTxOnLedger(c, l, es[0], nFees, 0);
  }

  /** The transactions of a block that connects are all new, and different from one
      another. */
  lemma {:induction false} ConnectedAreDistinct(c: Context, l: seq<Entry>, es: seq<Entry>, nFees: int)
    requires ValidLedger(c.hashTx, l) && AllPlaced(es) && NoCollisions(c.hashTx, l + es) && BlockOn(c.hashTx, l, es)
    requires ConnectEntries(c, LedgerIndex(c.hashTx, l), es, nFees).Some?
    ensures DistinctTxids(c.hashTx, l + es)
    decreases |es|
  {
    if es == [] {
      assert l + es == l;
      ValidHashesDistinct(c.hashTx, l);
    } else {
      var r := ConnectTx(c, LedgerIndex(c.hashTx, l), es[0].tx, es[0].pos, nFees, 0);
      NewOnLedger(c, l, es, nFees);
      ConnectedAreDistinct(c, l + [es[0]], es[1..], r.nFees);
    }
  }

  lemma {:induction false} DisconnectEntriesOnLedger(f: TxHash, l: seq<Entry>, es: seq<Entry>)
    requires ValidLedger(f, l + es)
    ensures ValidLedger(f, l) && DisconnectEntries(f, LedgerIndex(f, l + es), es) == Some(LedgerIndex(f, l))
    decreases |es|
  {
    if es == [] {
      assert l + es == l;
    } else {
      var last := es[|es| - 1];
      var m := l + es[..|es| - 1];
      assert l + es == m + [last];
      assert (l + es)[..|l + es| - 1] == m;
      DisconnectTxOnLedger(f, m, last);
      DisconnectEntriesOnLedger(f, l, es[..|es| - 1]);
    }
  }

  /** What the index of a ledger says.  It holds exactly the hashes of the
      ledger's transactions, each with its own position and one slot for each
      output, and a slot is non-null exactly when some transaction of the ledger
      spends that output, in which case it holds that one spender's position. */
  lemma {:induction false} IndexMeaning(f: TxHash, l: seq<Entry>)
    requires ValidLedger(f, l)
    ensures forall h :: h in LedgerIndex(f, l) <==> exists k :: 0 <= k < |l| && HashOf(f, l[k]) == h
    ensures forall k :: 0 <= k < |l| ==> HashOf(f, l[k]) in LedgerIndex(f, l)
    ensures forall k :: 0 <= k < |l| ==> LedgerIndex(f, l)[HashOf(f, l[k])].pos == l[k].pos
    ensures forall k :: 0 <= k < |l| ==> |LedgerIndex(f, l)[HashOf(f, l[k])].vSpent| == |l[k].tx.vout|
    ensures forall k, n: uint32 :: 0 <= k < |l| && n < |l[k].tx.vout| ==>
              var slot := LedgerIndex(f, l)[HashOf(f, l[k])].vSpent[n];
              var p := COutPoint(HashOf(f, l[k]), n);
              && (!slot.IsNull() <==> exists k': nat, i: nat :: SpendsAt(l, k', i, p))
              && (forall k': nat, i: nat :: SpendsAt(l, k', i, p) ==> slot == l[k'].pos)
  {
    PlacedKeys(f, l);
    SpentClosed(f, l);
    forall k | 0 <= k < |l|
      ensures HashOf(f, l[k]) in Placed(f, l) && Placed(f, l)[HashOf(f, l[k])] == l[k]
    {
      PlacedAt(f, l, k);
    }
    forall k, n: uint32 | 0 <= k < |l| && n < |l[k].tx.vout|
      ensures var slot := LedgerIndex(f, l)[HashOf(f, l[k])].vSpent[n];
              var p := COutPoint(HashOf(f, l[k]), n);
              && (!slot.IsNull() <==> exists k': nat, i: nat :: SpendsAt(l, k', i, p))
              && (forall k': nat, i: nat :: SpendsAt(l, k', i, p) ==> slot == l[k'].pos)
    {
      SpentMeaning(f, l, COutPoint(HashOf(f, l[k]), n));
    }
  }

  /** No output is spent by two inputs, in one transaction or in two. */
  lemma {:induction false} NoDoubleSpend(f: TxHash, l: seq<Entry>, k: nat, i: nat, k': nat, i': nat)
    requires ValidLedger(f, l)
    requires k < |l| && i < |l[k].tx.vin| && !l[k].tx.IsCoinBase()
    requires k' < |l| && i' < |l[k'].tx.vin| && !l[k'].tx.IsCoinBase()
    requires l[k].tx.vin[i].prevout == l[k'].tx.vin[i'].prevout
    ensures k == k' && i == i'
  {
    var p := l[k].tx.vin[i].prevout;
    SpentMeaning(f, l, p);
    assert SpendsAt(l, k, i, p) && SpendsAt(l, k', i', p);
  }
}
