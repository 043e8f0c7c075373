/** Conservation of value.  Fees plus the value of unspent outputs change only
    by what coinbases create, so the money in the index stays under the sum of
    the block subsidies. */
module Supply {
  import opened Basics
  import opened Serialize
  import opened TxIndex
  import opened Ledger

  /** GetBlockValue without the fees.  A shift by 64 or more, undefined in the
      source language, only concerns heights whose result the hard limit
      replaces by 0. */
  function Subsidy(nHeight: nat): (r: int64)
    ensures MoneyRange(r)
  {
    if nHeight >= 227499 then 0 else
    assert Pow(2, 1) == 2 * Pow(2, 0);
    96 * COIN / Pow(2, nHeight / 210000)
  }

  lemma {:induction false} SubsidyValues(nHeight: nat)
    ensures nHeight < 210000 ==> Subsidy(nHeight) == 9600000000
    ensures 210000 <= nHeight < 227499 ==> Subsidy(nHeight) == 4800000000
    ensures nHeight >= 227499 ==> Subsidy(nHeight) == 0
  {
    assert Pow(2, 1) == 2 * Pow(2, 0);
  }

  function TotalSubsidy(nHeight: nat): int {
    if nHeight == 0 then 0 else TotalSubsidy(nHeight - 1) + Subsidy(nHeight)
  }

  lemma {:induction false} TotalSubsidyFirstEra(nHeight: nat)
    requires nHeight < 210000
    ensures TotalSubsidy(nHeight) == nHeight * 9600000000
  {
    if nHeight > 0 {
      SubsidyValues(nHeight);
      TotalSubsidyFirstEra(nHeight - 1);
    }
  }

  lemma {:induction false} TotalSubsidySecondEra(nHeight: nat)
    requires 209999 <= nHeight < 227499
    ensures TotalSubsidy(nHeight) == 209999 * 9600000000 + (nHeight - 209999) * 4800000000
    decreases nHeight
  {
    if nHeight == 209999 {
      TotalSubsidyFirstEra(nHeight);
    } else {
      SubsidyValues(nHeight);
      TotalSubsidySecondEra(nHeight - 1);
    }
  }

  lemma {:induction false} TotalSubsidyLate(nHeight: nat)
    requires nHeight >= 227498
    ensures TotalSubsidy(nHeight) == 20999856 * COIN
    decreases nHeight
  {
    if nHeight == 227498 {
      TotalSubsidySecondEra(nHeight);
    } else {
      TotalSubsidyLate(nHeight - 1);
    }
  }

  /** All subsidies together never exceed 20,999,856 coins. */
  lemma {:induction false} TotalSubsidyBound(nHeight: nat)
    ensures 0 <= TotalSubsidy(nHeight) <= 20999856 * COIN < MAX_MONEY
  {
    if nHeight < 210000 {
      TotalSubsidyFirstEra(nHeight);
    } else if nHeight < 227499 {
      TotalSubsidySecondEra(nHeight);
    } else {
      TotalSubsidyLate(nHeight);
    }
  }

  // ----- the value of unspent outputs -----

  /** The value of the first n outputs whose slot in the index record is null. */
  function NullValue(vSpent: seq<CDiskTxPos>, vout: seq<CTxOut>, n: nat): int
    requires n <= |vout| && n <= |vSpent|
  {
    if n == 0 then 0 else
    NullValue(vSpent, vout, n - 1) + if vSpent[n - 1].IsNull() then vout[n - 1].nValue else 0
  }

  predicate Indexed(f: TxHash, idx: Index, l: seq<Entry>) {
    forall k :: 0 <= k < |l| ==> HashOf(f, l[k]) in idx && |idx[HashOf(f, l[k])].vSpent| == |l[k].tx.vout|
  }

  /** The value of the unspent indexed outputs of the first n transactions of a ledger. */
  function UnspentTo(f: TxHash, idx: Index, l: seq<Entry>, n: nat): int
    requires Indexed(f, idx, l) && n <= |l|
  {
    if n == 0 then 0 else
    UnspentTo(f, idx, l, n - 1) + NullValue(idx[HashOf(f, l[n - 1])].vSpent, l[n - 1].tx.vout, |l[n - 1].tx.vout|)
  }

  /** The total value of the unspent indexed outputs of a ledger. */
  function UnspentValue(f: TxHash, idx: Index, l: seq<Entry>): int
    requires Indexed(f, idx, l)
  {
    UnspentTo(f, idx, l, |l|)
  }

  lemma {:induction false} NullValueSpend(vSpent: seq<CDiskTxPos>, vout: seq<CTxOut>, n: nat, k: nat, pos: CDiskTxPos)
    requires n <= |vout| == |vSpent| && k < |vout| && vSpent[k].IsNull() && !pos.IsNull()
    ensures NullValue(vSpent[k := pos], vout, n) == NullValue(vSpent, vout, n) - if k < n then vout[k].nValue else 0
  {
    if n > 0 {
      NullValueSpend(vSpent, vout, n - 1, k, pos);
    }
  }

  lemma {:induction false} NullValueFresh(pos: CDiskTxPos, vout: seq<CTxOut>, n: nat)
    requires n <= |vout|
    ensures NullValue(NewTxIndex(pos, |vout|).vSpent, vout, n) == ValueOf(vout[..n])
  {
    if n > 0 {
      NullValueFresh(pos, vout, n - 1);
      assert vout[..n][..n - 1] == vout[..n - 1];
    }
  }

  lemma {:induction false} NullValueRange(vSpent: seq<CDiskTxPos>, vout: seq<CTxOut>, n: nat)
    requires n <= |vout| && n <= |vSpent| && forall k :: 0 <= k < |vout| ==> vout[k].nValue >= 0
    ensures 0 <= NullValue(vSpent, vout, n)
  {
    if n > 0 {
      NullValueRange(vSpent, vout, n - 1);
    }
  }

  /** Records of other transactions do not matter. */
  lemma {:induction false} UnspentFrame(f: TxHash, idx: Index, l: seq<Entry>, idx': Index, l': seq<Entry>, n: nat)
    requires Indexed(f, idx, l) && Indexed(f, idx', l') && n <= |l| && n <= |l'|
    requires forall k :: 0 <= k < n ==> l'[k] == l[k] && idx'[HashOf(f, l[k])].vSpent == idx[HashOf(f, l[k])].vSpent
    ensures UnspentTo(f, idx', l', n) == UnspentTo(f, idx, l, n)
  {
    if n > 0 {
      UnspentFrame(f, idx, l, idx', l', n - 1);
    }
  }

  /** Filling one null slot takes exactly that output's value away. */
  lemma {:induction false} UnspentSpend(f: TxHash, idx: Index, idx': Index, l: seq<Entry>, k: nat, n: nat, pos: CDiskTxPos, m: nat)
    requires Indexed(f, idx, l) && DistinctTxids(f, l) && !pos.IsNull()
    requires k < m <= |l| && n < |l[k].tx.vout| && idx[HashOf(f, l[k])].vSpent[n].IsNull()
    requires var h := HashOf(f, l[k]); idx' == idx[h := idx[h].(vSpent := idx[h].vSpent[n := pos])]
    ensures Indexed(f, idx', l) && UnspentTo(f, idx', l, m) == UnspentTo(f, idx, l, m) - l[k].tx.vout[n].nValue
    decreases m
  {
    var h := HashOf(f, l[k]);
    if k < m - 1 {
      UnspentSpend(f, idx, idx', l, k, n, pos, m - 1);
      assert HashOf(f, l[m - 1]) != h;
    } else {
      forall j | 0 <= j < k ensures HashOf(f, l[j]) != h {
      }
      UnspentFrame(f, idx, l, idx', l, k);
      NullValueSpend(idx[h].vSpent, l[k].tx.vout, |l[k].tx.vout|, n, pos);
    }
  }

  /** The keys of the index are the ledger's hashes, and each record points to
      its own transaction. */
  ghost predicate Covers(f: TxHash, idx: Index, l: seq<Entry>) {
    && Indexed(f, idx, l)
    && (forall k :: 0 <= k < |l| ==> idx[HashOf(f, l[k])].pos == l[k].pos)
    && (forall h {:trigger IsKey(f, l, h)} :: h in idx ==> IsKey(f, l, h))
  }

  ghost predicate IsKey(f: TxHash, l: seq<Entry>, h: uint256) {
    exists k :: 0 <= k < |l| && HashOf(f, l[k]) == h
  }

  /** Reading the block file at a recorded position gives the transaction recorded. */
  ghost predicate FetchAgrees(c: Context, l: seq<Entry>) {
    forall k :: 0 <= k < |l| ==> c.fetch(HashOf(c.hashTx, l[k]), l[k].pos) == Some(l[k].tx)
  }

  lemma {:induction false} LedgerCovers(f: TxHash, l: seq<Entry>)
    requires ValidLedger(f, l)
    ensures Covers(f, LedgerIndex(f, l), l)
  {
    IndexMeaning(f, l);
    forall k | 0 <= k < |l|
      ensures HashOf(f, l[k]) in LedgerIndex(f, l)
    {
    }
  }

  lemma {:induction false} InputTakesItsValue(c: Context, idx: Index, l: seq<Entry>, tx: CTransaction, pos: CDiskTxPos, i: nat, nValueIn: int)
    requires i < |tx.vin| && !pos.IsNull() && ConnectInput(c, idx, tx, pos, i, nValueIn).Some?
    requires Covers(c.hashTx, idx, l) && DistinctTxids(c.hashTx, l) && FetchAgrees(c, l)
    ensures var r := ConnectInput(c, idx, tx, pos, i, nValueIn).value;
            && Covers(c.hashTx, r.0, l)
            && UnspentValue(c.hashTx, r.0, l) == UnspentValue(c.hashTx, idx, l) - (r.1 - nValueIn)
  {
    var p := tx.vin[i].prevout;
    assert IsKey(c.hashTx, l, p.hash);
    var k :| 0 <= k < |l| && HashOf(c.hashTx, l[k]) == p.hash;
    UnspentSpend(c.hashTx, idx, ConnectInput(c, idx, tx, pos, i, nValueIn).value.0, l, k, p.n, pos, |l|);
  }

  /** What the inputs bring in is what the unspent outputs lose. */
  lemma {:induction false} InputsTakeTheirValue(c: Context, idx: Index, l: seq<Entry>, tx: CTransaction, pos: CDiskTxPos, i: nat, nValueIn: int)
    requires i <= |tx.vin| && !pos.IsNull()
    requires Covers(c.hashTx, idx, l) && DistinctTxids(c.hashTx, l) && FetchAgrees(c, l)
    ensures var r := ConnectInputsFrom(c, idx, tx, pos, i, nValueIn);
            r.Some? ==> Covers(c.hashTx, r.value.0, l)
                        && UnspentValue(c.hashTx, r.value.0, l) == UnspentValue(c.hashTx, idx, l) - (r.value.1 - nValueIn)
    decreases |tx.vin| - i
  {
    if i < |tx.vin| {
      var step := ConnectInput(c, idx, tx, pos, i, nValueIn);
      if step.Some? {
        InputTakesItsValue(c, idx, l, tx, pos, i, nValueIn);
        InputsTakeTheirValue(c, step.value.0, l, tx, pos, i + 1, step.value.1);
      }
    }
  }

  lemma {:induction false} AddUnspent(f: TxHash, idx: Index, l: seq<Entry>, e: Entry)
    requires Indexed(f, idx, l) && forall k :: 0 <= k < |l| ==> HashOf(f, l[k]) != HashOf(f, e)
    ensures var idx' := idx[HashOf(f, e) := NewTxIndex(e.pos, |e.tx.vout|)];
            Indexed(f, idx', l + [e]) && UnspentValue(f, idx', l + [e]) == UnspentValue(f, idx, l) + ValueOf(e.tx.vout)
  {
    var idx' := idx[HashOf(f, e) := NewTxIndex(e.pos, |e.tx.vout|)];
    assert Indexed(f, idx', l + [e]);
    UnspentFrame(f, idx, l, idx', l + [e], |l|);
    NullValueFresh(e.pos, e.tx.vout, |e.tx.vout|);
    assert e.tx.vout[..|e.tx.vout|] == e.tx.vout;
  }

  /** The value a transaction creates out of nothing. */
  function Minted(tx: CTransaction): int {
    if tx.IsCoinBase() then ValueOf(tx.vout) else 0
  }

  lemma {:induction false} ConnectTxConserves(c: Context, l: seq<Entry>, e: Entry, nFees: int, nMinFee: int)
    requires ValidLedger(c.hashTx, l) && !e.pos.IsNull() && HashOf(c.hashTx, e) !in Placed(c.hashTx, l) && FetchAgrees(c, l)
    ensures var r := ConnectTx(c, LedgerIndex(c.hashTx, l), e.tx, e.pos, nFees, nMinFee);
            r.Connected? ==> Covers(c.hashTx, LedgerIndex(c.hashTx, l), l) && Covers(c.hashTx, r.idx, l + [e])
                             && UnspentValue(c.hashTx, r.idx, l + [e]) + r.nFees
                                == UnspentValue(c.hashTx, LedgerIndex(c.hashTx, l), l) + nFees + Minted(e.tx)
  {
    var idx := LedgerIndex(c.hashTx, l);
    var r := ConnectTx(c, idx, e.tx, e.pos, nFees, nMinFee);
    LedgerCovers(c.hashTx, l);
    if r.Connected? {
      ConnectTxOnLedger(c, l, e, nFees, nMinFee);
      LedgerCovers(c.hashTx, l + [e]);
      ValidHashesDistinct(c.hashTx, l);
      PlacedKeys(c.hashTx, l);
      var idx1 := idx;
      if !e.tx.IsCoinBase() {
        InputsTakeTheirValue(c, idx, l, e.tx, e.pos, 0, 0);
        idx1 := ConnectInputsFrom(c, idx, e.tx, e.pos, 0, 0).value.0;
      }
      AddUnspent(c.hashTx, idx1, l, e);
    }
  }

  function MintedBy(es: seq<Entry>): int {
    if es == [] then 0 else Minted(es[0].tx) + MintedBy(es[1..])
  }

  lemma {:induction false} FetchAgreesPrefix(c: Context, l: seq<Entry>, es: seq<Entry>)
    requires FetchAgrees(c, l + es)
    ensures FetchAgrees(c, l)
  {
    forall k | 0 <= k < |l| ensures (l + es)[k] == l[k] {}
  }

  lemma {:induction false} FirstConserves(c: Context, l: seq<Entry>, es: seq<Entry>, nFees: int)
    requires es != [] && ValidLedger(c.hashTx, l) && !es[0].pos.IsNull() && DistinctTxids(c.hashTx, l + es) && FetchAgrees(c, l + es)
    requires ConnectTx(c, LedgerIndex(c.hashTx, l), es[0].tx, es[0].pos, nFees, 0).Connected?
    ensures var f, r, l' := c.hashTx, ConnectTx(c, LedgerIndex(c.hashTx, l), es[0].tx, es[0].pos, nFees, 0), l + [es[0]];
            && l' + es[1..] == l + es && r.idx == LedgerIndex(f, l') && ValidLedger(f, l')
            && Indexed(f, LedgerIndex(f, l), l) && Indexed(f, LedgerIndex(f, l'), l')
            && UnspentValue(f, LedgerIndex(f, l'), l') + r.nFees == UnspentValue(f, LedgerIndex(f, l), l) + nFees + Minted(es[0].tx)
  {
    HeadIsFresh(c.hashTx, l, es);
    FetchAgreesPrefix(c, l, es);
    FirstOnLedger(c, l, es, nFees);
    ConnectTxConserves(c, l, es[0], nFees, 0);
  }

  lemma {:induction false} ConnectEntriesConserves(c: Context, l: seq<Entry>, es: seq<Entry>, nFees: int)
    requires ValidLedger(c.hashTx, l) && AllPlaced(es) && DistinctTxids(c.hashTx, l + es) && FetchAgrees(c, l + es)
    ensures Covers(c.hashTx, LedgerIndex(c.hashTx, l), l)
    ensures var r := ConnectEntries(c, LedgerIndex(c.hashTx, l), es, nFees);
            r.Some? ==> Covers(c.hashTx, r.value.0, l + es)
                        && UnspentValue(c.hashTx, r.value.0, l + es) + r.value.1
                           == UnspentValue(c.hashTx, LedgerIndex(c.hashTx, l), l) + nFees + MintedBy(es)
    decreases |es|
  {
    LedgerCovers(c.hashTx, l);
    if es == [] {
      assert l + es == l;
    } else {
      var r := ConnectTx(c, LedgerIndex(c.hashTx, l), es[0].tx, es[0].pos, nFees, 0);
      if r.Connected? {
        FirstConserves(c, l, es, nFees);
        ConnectEntriesConserves(c, l + [es[0]], es[1..], r.nFees);
      }
    }
  }

  lemma {:induction false} OnlyFirstMints(es: seq<Entry>)
    requires forall k :: 0 <= k < |es| ==> !es[k].tx.IsCoinBase()
    ensures MintedBy(es) == 0
  {
    if es != [] {
      OnlyFirstMints(es[1..]);
    }
  }
}
