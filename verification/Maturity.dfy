/** Coinbase maturity.  ConnectInputs looks back over the last blocks by file
    position; what that means on a chain is that no coinbase is spent by a block
    less than COINBASE_MATURITY above its own. */
module Maturity {
  import opened Basics
  import opened Serialize
  import opened TxIndex
  import opened Ledger
  import opened Supply
  import opened BlockIndex
  import opened Connect

  /** Transaction a of block p, an input of it, and the coinbase at b of block q. */
  ghost predicate SpendsCoinbaseAt(f: TxHash, p: CBlockIndex, a: nat, i: nat, q: CBlockIndex, b: nat) {
    && a < |p.block.vtx| && !p.block.vtx[a].IsCoinBase() && i < |p.block.vtx[a].vin|
    && b < |q.block.vtx| && q.block.vtx[b].IsCoinBase() && f(q.block.vtx[b]) == p.block.vtx[a].vin[i].prevout.hash
  }

  /** Some transaction of p spends a coinbase of q. */
  ghost predicate SpendsCoinbase(f: TxHash, p: CBlockIndex, q: CBlockIndex) {
    exists a: nat, i: nat, b: nat :: SpendsCoinbaseAt(f, p, a, i, q, b)
  }

  /** The last block of v spends no coinbase of a block less than COINBASE_MATURITY
      below it, itself included. */
  ghost predicate MatureTop(f: TxHash, v: seq<CBlockIndex>) {
    forall j {:trigger v[j]} :: 1 <= j < |v| && SpendsCoinbase(f, v[|v| - 1], v[j]) ==> |v| - 1 - j >= COINBASE_MATURITY
  }

  /** What the loop has found out about the transaction with this hash. */
  ghost predicate Ripe(c: Context, idx: Index, h: uint256) {
    h in idx &&
    var txPrev := c.fetch(h, idx[h].pos);
    txPrev.Some? && !(txPrev.value.IsCoinBase() && c.immature(idx[h].pos))
  }

  /** Spending changes no position, so every input of a connected transaction was ripe
      at the start. */
  lemma {:induction false} InputsRipe(c: Context, idx: Index, tx: CTransaction, pos: CDiskTxPos, i: nat, nValueIn: int, k: nat)
    requires i <= k < |tx.vin| && ConnectInputsFrom(c, idx, tx, pos, i, nValueIn).Some?
    ensures Ripe(c, idx, tx.vin[k].prevout.hash)
    decreases |tx.vin| - i
  {
    if i < k {
      var step := ConnectInput(c, idx, tx, pos, i, nValueIn).value;
      InputsRipe(c, step.0, tx, pos, i + 1, step.1, k);
    }
  }

  /** The entry of a connected block that an input names is not an immature coinbase. */
  lemma {:induction false} EntriesRipe(c: Context, l: seq<Entry>, es: seq<Entry>, nFees: int, k: nat, i: nat, m: nat)
    requires ValidLedger(c.hashTx, l) && AllPlaced(es) && DistinctTxids(c.hashTx, l + es) && FetchAgrees(c, l + es)
    requires ConnectEntries(c, LedgerIndex(c.hashTx, l), es, nFees).Some?
    requires k < |es| && !es[k].tx.IsCoinBase() && i < |es[k].tx.vin|
    requires m < |l + es| && HashOf(c.hashTx, (l + es)[m]) == es[k].tx.vin[i].prevout.hash
    ensures !((l + es)[m].tx.IsCoinBase() && c.immature((l + es)[m].pos))
    decreases k
  {
    var idx := LedgerIndex(c.hashTx, l);
    var r := ConnectTx(c, idx, es[0].tx, es[0].pos, nFees, 0);
    if k == 0 {
      var h := es[0].tx.vin[i].prevout.hash;
      InputsRipe(c, idx, es[0].tx, es[0].pos, 0, 0, i);
      RipeEntry(c, l, es, h, m);
    } else {
      FirstOnLedger(c, l, es, nFees);
      EntriesRipe(c, l + [es[0]], es[1..], r.nFees, k - 1, i, m);
    }
  }

  lemma {:induction false} SameEntry(f: TxHash, l: seq<Entry>, j: nat, m: nat)
    requires DistinctTxids(f, l) && j < |l| && m < |l| && HashOf(f, l[j]) == HashOf(f, l[m])
    ensures j == m
  {
  }

  lemma {:induction false} RipeEntry(c: Context, l: seq<Entry>, es: seq<Entry>, h: uint256, m: nat)
    requires ValidLedger(c.hashTx, l) && DistinctTxids(c.hashTx, l + es) && FetchAgrees(c, l + es)
    requires Ripe(c, LedgerIndex(c.hashTx, l), h) && m < |l + es| && HashOf(c.hashTx, (l + es)[m]) == h
    ensures !((l + es)[m].tx.IsCoinBase() && c.immature((l + es)[m].pos))
  {
    LedgerCovers(c.hashTx, l);
    assert IsKey(c.hashTx, l, h);
    var j :| 0 <= j < |l| && HashOf(c.hashTx, l[j]) == h;
    assert (l + es)[j] == l[j];
    SameEntry(c.hashTx, l + es, j, m);
  }

  /** A position that is not immature at p lies in no block of the last ones. */
  lemma {:induction false} NotImmature(p: CBlockIndex, pos: CDiskTxPos, j: nat)
    requires Linked(p) && !Immature(p, pos) && j <= p.nHeight && PositionOf(Path(p)[j], pos)
    ensures p.nHeight - j >= COINBASE_MATURITY
  {
  }
}
