/** The transactions of a block template as an extension of the chain's ledger:
    what including one candidate keeps, and what the finished template means. */
module Template {
  import opened Basics
  import opened Serialize
  import opened TxIndex
  import opened Ledger
  import opened Supply
  import opened Rules
  import opened BlockIndex
  import opened Connect
  import opened Chain

  type Pool = map<uint256, CTransaction>

  function EntryOf(pool: Pool, h: uint256): Entry
    requires h in pool
  {
    Entry(pool[h], MemoryPos)
  }

  function EntriesOf(pool: Pool, hs: seq<uint256>): (es: seq<Entry>)
    requires forall k :: 0 <= k < |hs| ==> hs[k] in pool
    ensures |es| == |hs| && forall k :: 0 <= k < |hs| ==> es[k] == EntryOf(pool, hs[k])
  {
    seq(|hs|, k requires 0 <= k < |hs| => EntryOf(pool, hs[k]))
  }

  /** What acceptance into the memory pool has established: a transaction is filed
      under its hash, passed CheckTransaction and is not on the chain. */
  ghost predicate PoolTx(f: TxHash, placed: map<uint256, Entry>, pool: Pool, h: uint256) {
    h in pool ==> f(pool[h]) == h && OutputsInRange(pool[h].vout) && h !in placed
  }

  ghost predicate PoolOk(f: TxHash, placed: map<uint256, Entry>, pool: Pool) {
    forall h {:trigger PoolTx(f, placed, pool, h)} :: PoolTx(f, placed, pool, h)
  }

  // ----- no fee is lost -----

  lemma {:induction false} UnspentNonneg(f: TxHash, idx: Index, l: seq<Entry>, n: nat)
    requires Indexed(f, idx, l) && ValuesOk(l) && n <= |l|
    ensures UnspentTo(f, idx, l, n) >= 0
  {
    if n > 0 {
      var e := l[n - 1];
      UnspentNonneg(f, idx, l, n - 1);
      NullValueRange(idx[HashOf(f, e)].vSpent, e.tx.vout, |e.tx.vout|);
    }
  }

  lemma {:induction false} UnspentIsNonneg(f: TxHash, idx: Index, l: seq<Entry>)
    requires Indexed(f, idx, l) && ValuesOk(l)
    ensures UnspentValue(f, idx, l) >= 0
  {
    UnspentNonneg(f, idx, l, |l|);
  }

  /** When all the money there is stays in range, the running total of fees does too:
      nFees never takes in the fee of a transaction that is then turned away. */
  lemma {:induction false} RejectedLeavesFees(c: Context, l: seq<Entry>, tx: CTransaction, pos: CDiskTxPos, nFees: int, nMinFee: int)
    requires ValidLedger(c.hashTx, l) && FetchAgrees(c, l) && ValuesOk(l) && !pos.IsNull() && nMinFee >= 0
    requires Covers(c.hashTx, LedgerIndex(c.hashTx, l), l) && nFees >= 0
    requires OutputsInRange(tx.vout) && UnspentValue(c.hashTx, LedgerIndex(c.hashTx, l), l) + nFees <= MAX_MONEY
    ensures var r := ConnectTx(c, LedgerIndex(c.hashTx, l), tx, pos, nFees, nMinFee);
            r.Rejected? ==> r.nFees == nFees
  {
    var idx := LedgerIndex(c.hashTx, l);
    var ins := ConnectInputsFrom(c, idx, tx, pos, 0, 0);
    if ins.Some? {
      ValidHashesDistinct(c.hashTx, l);
      InputsTakeTheirValue(c, idx, l, tx, pos, 0, 0);
      UnspentIsNonneg(c.hashTx, ins.value.0, l);
      ValueMonotone(tx.vout, 0);
    }
  }

  // ----- the template as a ledger -----

  /** The template so far: its transactions extend the chain's ledger l0 to a valid
      ledger, view is the index of that ledger, connecting them one after another
      gives it, and the fees collected are the sum of what they pay. */
  ghost predicate TemplateOk(c: Context, l0: seq<Entry>, es: seq<Entry>, view: Index, nFees: int) {
    forall l {:trigger Joined(l0, es, l)} :: Joined(l0, es, l) ==>
      && Sound(c, l, view, nFees) && Paid(c, l, es, nFees)
      && ConnectEntries(c, LedgerIndex(c.hashTx, l0), es, 0) == Some((view, nFees))
  }

  /** l is the chain's ledger with the template on top. */
  ghost predicate Joined(l0: seq<Entry>, es: seq<Entry>, l: seq<Entry>) {
    l == l0 + es
  }

  ghost predicate Sound(c: Context, l: seq<Entry>, view: Index, nFees: int) {
    && ValidLedger(c.hashTx, l) && view == LedgerIndex(c.hashTx, l)
    && EntriesStored(c, l) && ValuesOk(l)
    && Covers(c.hashTx, view, l) && UnspentValue(c.hashTx, view, l) + nFees <= MAX_MONEY && nFees >= 0
  }

  ghost predicate Paid(c: Context, l: seq<Entry>, es: seq<Entry>, nFees: int) {
    AllFunded(Placed(c.hashTx, l), es) && nFees == TotalFee(Placed(c.hashTx, l), es)
  }

  lemma {:induction false} MinFeeIrrelevant(c: Context, idx: Index, tx: CTransaction, pos: CDiskTxPos, nFees: int, nMinFee: int)
    requires nMinFee >= 0
    ensures var r := ConnectTx(c, idx, tx, pos, nFees, nMinFee); r.Connected? ==> ConnectTx(c, idx, tx, pos, nFees, 0) == r
  {
  }

  /** e may be considered for the template es on top of l0. */
  ghost predicate Candidate(c: Context, l: seq<Entry>, e: Entry) {
    && HashOf(c.hashTx, e) !in Placed(c.hashTx, l) && !e.tx.IsCoinBase() && e.pos == MemoryPos
    && OutputsInRange(e.tx.vout) && c.fetch(HashOf(c.hashTx, e), e.pos) == Some(e.tx)
  }

  lemma {:induction false} StillPaid(c: Context, l: seq<Entry>, es: seq<Entry>, e: Entry, nFees: int, nMinFee: int)
    requires ValidLedger(c.hashTx, l) && EntriesStored(c, l) && Candidate(c, l, e) && Paid(c, l, es, nFees)
    ensures var r := ConnectTx(c, LedgerIndex(c.hashTx, l), e.tx, e.pos, nFees, nMinFee);
            r.Connected? ==> Paid(c, l + [e], es + [e], r.nFees)
  {
    var before, placed := Placed(c.hashTx, l), Placed(c.hashTx, l + [e]);
    var idx := LedgerIndex(c.hashTx, l);
    assert (l + [e])[..|l|] == l;
    if ConnectTx(c, idx, e.tx, e.pos, nFees, nMinFee).Connected? {
      StoredValues(c, l);
      KnownLedger(c, l);
      InputsExact(c, before, Spent(l), e.tx, e.pos, 0, 0);
      assert Grows(before, placed);
      FeeAppend(before, es, e);
      TotalFeeGrows(before, placed, es + [e]);
    }
  }

  lemma {:induction false} StillSound(c: Context, l: seq<Entry>, e: Entry, view: Index, nFees: int, nMinFee: int)
    requires Sound(c, l, view, nFees) && Candidate(c, l, e) && nMinFee >= 0
    ensures var r := ConnectTx(c, view, e.tx, e.pos, nFees, nMinFee);
            if r.Connected? then Sound(c, l + [e], r.idx, r.nFees) else r.nFees == nFees
  {
    var r := ConnectTx(c, view, e.tx, e.pos, nFees, nMinFee);
    RejectedLeavesFees(c, l, e.tx, e.pos, nFees, nMinFee);
    if r.Connected? {
      ConnectTxOnLedger(c, l, e, nFees, nMinFee);
      ConnectTxConserves(c, l, e, nFees, nMinFee);
      CandidateStored(c, l, e);
      StoredAppend(c, l, [e]);
      ValuesAppend(l, e);
    }
  }

  lemma {:induction false} CandidateStored(c: Context, l: seq<Entry>, e: Entry)
    requires Candidate(c, l, e)
    ensures EntriesStored(c, [e])
  {
  }

  lemma {:induction false} ValuesAppend(l: seq<Entry>, e: Entry)
    requires ValuesOk(l) && OutputsInRange(e.tx.vout)
    ensures ValuesOk(l + [e])
  {
  }

  /** A candidate that connects extends the template; one that does not leaves the
      fees as they were. */
  lemma {:induction false} IncludeOne(c: Context, l0: seq<Entry>, es: seq<Entry>, view: Index, nFees: int, e: Entry, nMinFee: int)
    requires TemplateOk(c, l0, es, view, nFees) && Candidate(c, l0 + es, e) && nMinFee >= 0
    ensures var r := ConnectTx(c, view, e.tx, e.pos, nFees, nMinFee);
            if r.Connected? then TemplateOk(c, l0, es + [e], r.idx, r.nFees) else r.nFees == nFees
  {
    assert Joined(l0, es, l0 + es);
    StillSound(c, l0 + es, e, view, nFees, nMinFee);
    StillPaid(c, l0 + es, es, e, nFees, nMinFee);
    ConnectEntriesAppend(c, LedgerIndex(c.hashTx, l0), es, e, 0);
    MinFeeIrrelevant(c, view, e.tx, e.pos, nFees, nMinFee);
    Regroup(l0, es, [e]);
  }

  /** The empty template on a chain whose money is in range. */
  lemma {:induction false} EmptyTemplate(c: Context, l0: seq<Entry>)
    requires ValidLedger(c.hashTx, l0) && EntriesStored(c, l0) && ValuesOk(l0)
    requires Covers(c.hashTx, LedgerIndex(c.hashTx, l0), l0)
    requires UnspentValue(c.hashTx, LedgerIndex(c.hashTx, l0), l0) <= MAX_MONEY
    ensures TemplateOk(c, l0, [], LedgerIndex(c.hashTx, l0), 0)
  {
    assert l0 + [] == l0;
  }

  // ----- what a template means -----

  ghost predicate SpendsFrom(es: seq<Entry>, k: nat, i: nat, h: uint256) {
    k < |es| && i < |es[k].tx.vin| && es[k].tx.vin[i].prevout.hash == h
  }

  /** In a valid ledger every input names an earlier transaction. */
  lemma {:induction false} ParentsFirst(f: TxHash, l: seq<Entry>, k: nat, i: nat)
    requires ValidLedger(f, l) && k < |l| && i < |l[k].tx.vin| && !l[k].tx.IsCoinBase()
    ensures exists j :: 0 <= j < k && HashOf(f, l[j]) == l[k].tx.vin[i].prevout.hash
  {
    var m := l[..|l| - 1];
    if k < |m| {
      assert m[k] == l[k];
      ParentsFirst(f, m, k, i);
      var j :| 0 <= j < k && HashOf(f, m[j]) == l[k].tx.vin[i].prevout.hash;
      assert m[j] == l[j];
    } else {
      PlacedKeys(f, m);
      assert Exists(Placed(f, m), l[k].tx.vin[i].prevout);
      var j :| 0 <= j < |m| && HashOf(f, m[j]) == l[k].tx.vin[i].prevout.hash;
      assert m[j] == l[j];
    }
  }

  /** In a template every parent comes before its child, no outpoint is spent twice,
      and none that is spent on the chain is spent again. */
  lemma {:induction false} TemplateOrder(f: TxHash, l0: seq<Entry>, es: seq<Entry>)
    requires ValidLedger(f, l0 + es) && forall k :: 0 <= k < |es| ==> !es[k].tx.IsCoinBase()
    ensures forall j, k: nat, i: nat :: 0 <= j < |es| && SpendsFrom(es, k, i, HashOf(f, es[j])) ==> j < k
    ensures forall k: nat, i: nat, k': nat, i': nat, p :: SpendsAt(es, k, i, p) && SpendsAt(es, k', i', p) ==> k == k' && i == i'
    ensures forall k: nat, i: nat, k': nat, i': nat, p :: SpendsAt(es, k, i, p) ==> !SpendsAt(l0, k', i', p)
  {
    var l := l0 + es;
    ValidHashesDistinct(f, l);
    forall j, k: nat, i: nat | 0 <= j < |es| && SpendsFrom(es, k, i, HashOf(f, es[j]))
      ensures j < k
    {
      assert l[|l0| + k] == es[k] && l[|l0| + j] == es[j];
      ParentsFirst(f, l, |l0| + k, i);
    }
    forall k: nat, i: nat, k': nat, i': nat, p | SpendsAt(es, k, i, p) && SpendsAt(es, k', i', p)
      ensures k == k' && i == i'
    {
      assert l[|l0| + k] == es[k] && l[|l0| + k'] == es[k'];
      NoDoubleSpend(f, l, |l0| + k, i, |l0| + k', i');
    }
    forall k: nat, i: nat, k': nat, i': nat, p | SpendsAt(es, k, i, p)
      ensures !SpendsAt(l0, k', i', p)
    {
      if SpendsAt(l0, k', i', p) {
        assert l[|l0| + k] == es[k] && l[k'] == l0[k'];
        NoDoubleSpend(f, l, |l0| + k, i, k', i');
      }
    }
  }
}
