/** A block made from a template connects: with the transactions at their places in
    the block file instead of in memory, ConnectBlock accepts them one after
    another for the same fees. */
module Mined {
  import opened Basics
  import opened Serialize
  import opened TxIndex
  import opened Ledger
  import opened Supply
  import opened Rules
  import opened BlockIndex
  import opened TxDb
  import opened Connect
  import opened Chain
  import opened ChainState
  import opened Template
  import opened Miner

  /** The records of h say the same in both: the same outputs, the same of them spent,
      the same transaction behind them, and no less mature. */
  ghost predicate Same(c: Context, c': Context, idx: Index, idx': Index, h: uint256) {
    h in idx ==>
      && h in idx' && |idx'[h].vSpent| == |idx[h].vSpent|
      && (forall n :: 0 <= n < |idx[h].vSpent| ==> idx'[h].vSpent[n].IsNull() == idx[h].vSpent[n].IsNull())
      && c'.fetch(h, idx'[h].pos) == c.fetch(h, idx[h].pos)
      && (c.fetch(h, idx[h].pos).Some? && c.fetch(h, idx[h].pos).value.IsCoinBase() && c'.immature(idx'[h].pos) ==> c.immature(idx[h].pos))
  }

  ghost predicate Similar(c: Context, c': Context, idx: Index, idx': Index) {
    forall h {:trigger Same(c, c', idx, idx', h)} :: Same(c, c', idx, idx', h)
  }

  /** Both contexts hash and verify alike. */
  ghost predicate Agree(c: Context, c': Context) {
    c'.hashTx == c.hashTx && c'.verifyScript == c.verifyScript
  }

  lemma {:induction false} InputSimilar(c: Context, c': Context, idx: Index, idx': Index, tx: CTransaction,
                                        pos: CDiskTxPos, pos': CDiskTxPos, i: nat, nValueIn: int)
    requires Agree(c, c') && Similar(c, c', idx, idx') && !pos.IsNull() && !pos'.IsNull() && i < |tx.vin|
    requires ConnectInput(c, idx, tx, pos, i, nValueIn).Some?
    ensures var r, r' := ConnectInput(c, idx, tx, pos, i, nValueIn), ConnectInput(c', idx', tx, pos', i, nValueIn);
            r'.Some? && r'.value.1 == r.value.1 && Similar(c, c', r.value.0, r'.value.0)
  {
    var p := tx.vin[i].prevout;
    assert Same(c, c', idx, idx', p.hash);
    var r, r' := ConnectInput(c, idx, tx, pos, i, nValueIn).value.0, ConnectInput(c', idx', tx, pos', i, nValueIn).value.0;
    forall h
      ensures Same(c, c', r, r', h)
    {
      assert Same(c, c', idx, idx', h);
    }
  }

  lemma {:induction false} InputsSimilar(c: Context, c': Context, idx: Index, idx': Index, tx: CTransaction,
                                         pos: CDiskTxPos, pos': CDiskTxPos, i: nat, nValueIn: int)
    requires Agree(c, c') && Similar(c, c', idx, idx') && !pos.IsNull() && !pos'.IsNull() && i <= |tx.vin|
    requires ConnectInputsFrom(c, idx, tx, pos, i, nValueIn).Some?
    ensures var r, r' := ConnectInputsFrom(c, idx, tx, pos, i, nValueIn), ConnectInputsFrom(c', idx', tx, pos', i, nValueIn);
            r'.Some? && r'.value.1 == r.value.1 && Similar(c, c', r.value.0, r'.value.0)
    decreases |tx.vin| - i
  {
    if i < |tx.vin| {
      InputSimilar(c, c', idx, idx', tx, pos, pos', i, nValueIn);
      var s, s' := ConnectInput(c, idx, tx, pos, i, nValueIn).value, ConnectInput(c', idx', tx, pos', i, nValueIn).value;
      InputsSimilar(c, c', s.0, s'.0, tx, pos, pos', i + 1, s.1);
    }
  }

  lemma {:induction false} AddSimilar(c: Context, c': Context, idx: Index, idx': Index, h: uint256, tx: CTransaction,
                                      pos: CDiskTxPos, pos': CDiskTxPos)
    requires Similar(c, c', idx, idx') && !tx.IsCoinBase()
    requires c.fetch(h, pos) == Some(tx) && c'.fetch(h, pos') == Some(tx)
    ensures Similar(c, c', idx[h := NewTxIndex(pos, |tx.vout|)], idx'[h := NewTxIndex(pos', |tx.vout|)])
  {
    var r, r' := idx[h := NewTxIndex(pos, |tx.vout|)], idx'[h := NewTxIndex(pos', |tx.vout|)];
    forall g
      ensures Same(c, c', r, r', g)
    {
      assert Same(c, c', idx, idx', g);
    }
  }

  /** The same transaction, once in memory and once on disk. */
  ghost predicate Moved(c: Context, c': Context, e: Entry, e': Entry) {
    && e'.tx == e.tx && !e.tx.IsCoinBase() && !e.pos.IsNull() && !e'.pos.IsNull()
    && c.fetch(c.hashTx(e.tx), e.pos) == Some(e.tx) && c'.fetch(c.hashTx(e.tx), e'.pos) == Some(e.tx)
  }

  ghost predicate AllMoved(c: Context, c': Context, es: seq<Entry>, es': seq<Entry>) {
    |es'| == |es| && forall k {:trigger Moved(c, c', es[k], es'[k])} :: 0 <= k < |es| ==> Moved(c, c', es[k], es'[k])
  }

  lemma {:induction false} TxSimilar(c: Context, c': Context, idx: Index, idx': Index, e: Entry, e': Entry, nFees: int)
    requires Agree(c, c') && Similar(c, c', idx, idx') && Moved(c, c', e, e')
    requires ConnectTx(c, idx, e.tx, e.pos, nFees, 0).Connected?
    ensures var r, r' := ConnectTx(c, idx, e.tx, e.pos, nFees, 0), ConnectTx(c', idx', e'.tx, e'.pos, nFees, 0);
            r'.Connected? && r'.nFees == r.nFees && Similar(c, c', r.idx, r'.idx)
  {
    InputsSimilar(c, c', idx, idx', e.tx, e.pos, e'.pos, 0, 0);
    var s, s' := ConnectInputsFrom(c, idx, e.tx, e.pos, 0, 0).value.0, ConnectInputsFrom(c', idx', e.tx, e'.pos, 0, 0).value.0;
    AddSimilar(c, c', s, s', c.hashTx(e.tx), e.tx, e.pos, e'.pos);
  }

  lemma {:induction false} EntriesSimilar(c: Context, c': Context, idx: Index, idx': Index, es: seq<Entry>, es': seq<Entry>, nFees: int)
    requires Agree(c, c') && Similar(c, c', idx, idx') && AllMoved(c, c', es, es')
    requires ConnectEntries(c, idx, es, nFees).Some?
    ensures var r, r' := ConnectEntries(c, idx, es, nFees), ConnectEntries(c', idx', es', nFees);
            r'.Some? && r'.value.1 == r.value.1
    decreases |es|
  {
    if es != [] {
      assert Moved(c, c', es[0], es'[0]);
      TxSimilar(c, c', idx, idx', es[0], es'[0], nFees);
      var r, r' := ConnectTx(c, idx, es[0].tx, es[0].pos, nFees, 0), ConnectTx(c', idx', es'[0].tx, es'[0].pos, nFees, 0);
      forall k | 0 <= k < |es[1..]|
        ensures Moved(c, c', es[1..][k], es'[1..][k])
      {
        assert Moved(c, c', es[k + 1], es'[k + 1]);
      }
      EntriesSimilar(c, c', r.idx, r'.idx, es[1..], es'[1..], r.nFees);
    }
  }

  // ----- the chain below reads the same from the grown files -----

  /** Every entry reads back from the files, and lies in a block of the path. */
  ghost predicate ReadsBack(files: Files, e: Entry) {
    e.pos != MemoryPos && ReadTx(files, e.pos) == Some(e.tx)
  }

  ghost predicate Within(path: seq<CBlockIndex>, pos: CDiskTxPos) {
    exists j :: 0 <= j < |path| && PositionOf(path[j], pos)
  }

  ghost predicate OnDisk(files: Files, path: seq<CBlockIndex>, l: seq<Entry>) {
    forall k {:trigger ReadsBack(files, l[k])} :: 0 <= k < |l| ==> ReadsBack(files, l[k]) && Within(path, l[k].pos)
  }

  lemma {:induction false} BlockOnDisk(files: Files, path: seq<CBlockIndex>, p: CBlockIndex)
    requires BlockStored(files, p) && path != [] && path[|path| - 1] == p
    ensures OnDisk(files, path, BlockEntries(p))
  {
    forall k | 0 <= k < |BlockEntries(p)|
      ensures ReadsBack(files, BlockEntries(p)[k]) && Within(path, BlockEntries(p)[k].pos)
    {
      StoredTxReads(files, p, k);
      assert PositionOf(path[|path| - 1], BlockEntries(p)[k].pos);
    }
  }

  lemma {:induction false} OnDiskMore(files: Files, front: seq<CBlockIndex>, path: seq<CBlockIndex>, l: seq<Entry>)
    requires front <= path && OnDisk(files, front, l)
    ensures OnDisk(files, path, l)
  {
    forall k | 0 <= k < |l|
      ensures ReadsBack(files, l[k]) && Within(path, l[k].pos)
    {
      assert ReadsBack(files, l[k]);
      var j :| 0 <= j < |front| && PositionOf(front[j], l[k].pos);
      assert PositionOf(path[j], l[k].pos);
    }
  }

  lemma {:induction false} OnDiskJoin(files: Files, path: seq<CBlockIndex>, l: seq<Entry>, es: seq<Entry>)
    requires OnDisk(files, path, l) && OnDisk(files, path, es)
    ensures OnDisk(files, path, l + es)
  {
    forall k | 0 <= k < |l + es|
      ensures ReadsBack(files, (l + es)[k]) && Within(path, (l + es)[k].pos)
    {
      if k < |l| {
        assert ReadsBack(files, l[k]);
      } else {
        assert ReadsBack(files, es[k - |l|]);
      }
    }
  }

  lemma {:induction false} LedgerOnDisk(files: Files, path: seq<CBlockIndex>)
    requires PathStored(files, path)
    ensures OnDisk(files, path, LedgerOf(path))
  {
    if |path| > 1 {
      var front, p := path[..|path| - 1], path[|path| - 1];
      assert forall k :: 0 <= k < |front| ==> front[k] == path[k];
      LedgerOnDisk(files, front);
      OnDiskMore(files, front, path, LedgerOf(front));
      assert BlockStored(files, p);
      BlockOnDisk(files, path, p);
      OnDiskJoin(files, path, LedgerOf(front), BlockEntries(p));
    }
  }

  /** Two blocks of the tree do not lie at the same place. */
  lemma {:induction false} DistinctPlaces(w: World, files: Files, m: Tree, p: CBlockIndex, q: CBlockIndex)
    requires TreeOk(m) && AllStored(w, files, m) && InTree(m, p) && InTree(m, q) && p != q
    ensures p.nFile != q.nFile || p.nBlockPos != q.nBlockPos
  {
    assert NodeStored(w, files, m, p.hashBlock) && NodeStored(w, files, m, q.hashBlock);
    StoredReads(files, p.nFile, p.nBlockPos, p.block);
    StoredReads(files, q.nFile, q.nBlockPos, q.block);
  }

  /** What is mature enough for the miner at the tip is mature enough one block higher. */
  lemma {:induction false} StillMature(w: World, files: Files, m: Tree, p: CBlockIndex, pos: CDiskTxPos)
    requires TreeOk(m) && AllStored(w, files, m) && InTree(m, p) && p.pprev != null
    requires Within(Path(p.pprev), pos) && Immature(p, pos)
    ensures Immature(p.pprev, pos)
  {
    var j :| 0 <= j < |Path(p.pprev)| && PositionOf(Path(p.pprev)[j], pos);
    ParentInTree(m, p);
    PathInTree(m, p.pprev, j);
    PathAt(p.pprev, j);
    DistinctPlaces(w, files, m, p, Path(p.pprev)[j]);
    var k: nat :| k <= p.nHeight && p.nHeight - k < COINBASE_MATURITY && PositionOf(Path(p)[k], pos);
    assert k < p.nHeight;
    assert PositionOf(Path(p.pprev)[k], pos);
  }

  /** The chain's own records say the same to the miner at the tip and to ConnectBlock
      at the new block. */
  lemma {:induction false} ChainSimilar(w: World, c: Context, c': Context, files: Files, files': Files,
                                        pool: Pool, pool': Pool, m: Tree, p: CBlockIndex)
    requires TreeOk(m) && AllStored(w, files', m) && InTree(m, p) && p.pprev != null && PathStored(files, Path(p.pprev))
    requires Fits(c, w, files, pool, p.pprev) && Fits(c', w, files', pool', p)
    requires ValidLedger(w.hashTx, BestLedger(p.pprev))
    ensures var idx := LedgerIndex(w.hashTx, BestLedger(p.pprev)); Similar(c, c', idx, idx)
  {
    var path, l := Path(p.pprev), BestLedger(p.pprev);
    var idx := LedgerIndex(w.hashTx, l);
    LedgerCovers(w.hashTx, l);
    ParentInTree(m, p);
    PathIsStored(w, files', m, p.pprev);
    LedgerOnDisk(files, path);
    LedgerOnDisk(files', path);
    forall h
      ensures Same(c, c', idx, idx, h)
    {
      if h in idx {
        assert IsKey(w.hashTx, l, h);
        var k :| 0 <= k < |l| && HashOf(w.hashTx, l[k]) == h;
        assert ReadsBack(files, l[k]) && ReadsBack(files', l[k]);
        EntrySame(w, c, c', files, files', pool, pool', m, p, idx, h, l[k]);
      }
    }
  }

  lemma {:induction false} EntrySame(w: World, c: Context, c': Context, files: Files, files': Files, pool: Pool, pool': Pool,
                                     m: Tree, p: CBlockIndex, idx: Index, h: uint256, e: Entry)
    requires TreeOk(m) && AllStored(w, files', m) && InTree(m, p) && p.pprev != null
    requires Fits(c, w, files, pool, p.pprev) && Fits(c', w, files', pool', p)
    requires h in idx && idx[h].pos == e.pos && ReadsBack(files, e) && ReadsBack(files', e) && Within(Path(p.pprev), e.pos)
    ensures Same(c, c', idx, idx, h)
  {
    if Immature(p, e.pos) {
      StillMature(w, files', m, p, e.pos);
    }
  }

  // ----- the mined block -----

  lemma {:induction false} CoinBaseFresh(w: World, m: Tree, p: CBlockIndex)
    requires AllTell(w.hashTx, m) && InTree(m, p) && p.pprev != null && p.block.vtx != []
    ensures w.hashTx(p.block.vtx[0]) !in LedgerIndex(w.hashTx, BestLedger(p.pprev))
  {
    assert HashesTell(w.hashTx, m[p.hashBlock]);
    PlacedKeys(w.hashTx, BestLedger(p.pprev));
  }

  lemma {:induction false} CoinBaseSimilar(c: Context, c': Context, idx: Index, h: uint256, t: CTxIndex)
    requires Similar(c, c', idx, idx) && h !in idx
    ensures Similar(c, c', idx, idx[h := t])
  {
    var idx' := idx[h := t];
    forall g
      ensures Same(c, c', idx, idx', g)
    {
      assert Same(c, c', idx, idx, g);
    }
  }

  /** The transactions of the block are those of the template. */
  ghost predicate CarriesTemplate(pool: Pool, included: seq<uint256>, vtx: seq<CTransaction>) {
    InPool(pool, included) && vtx != [] && vtx[1..] == TxsOf(pool, included)
  }

  lemma {:induction false} TemplateMoved(w: World, c: Context, c': Context, files: Files, files': Files, pool: Pool, pool': Pool,
                                         p: CBlockIndex, included: seq<uint256>, placed: map<uint256, Entry>)
    requires Linked(p) && p.pprev != null && Fits(c, w, files, pool, p.pprev) && Fits(c', w, files', pool', p)
    requires BlockStored(files', p) && BlockOk(w, p.block, p.nHeight)
    requires CarriesTemplate(pool, included, p.block.vtx) && PoolOk(w.hashTx, placed, pool)
    ensures AllMoved(c, c', EntriesOf(pool, included), BlockEntries(p)[1..])
  {
    var es, es' := EntriesOf(pool, included), BlockEntries(p)[1..];
    forall k | 0 <= k < |es|
      ensures Moved(c, c', es[k], es'[k])
    {
      CarriedAt(pool, included, p, k);
      assert k < |included| && es[k] == EntryOf(pool, included[k]) && es'[k] == BlockEntries(p)[k + 1];
      TxMoved(w, c, c', files, files', pool, pool', p, included[k], placed, k + 1);
    }
  }

  lemma {:induction false} CarriedAt(pool: Pool, included: seq<uint256>, p: CBlockIndex, k: nat)
    requires CarriesTemplate(pool, included, p.block.vtx) && k < |included|
    ensures included[k] in pool && k + 1 < |p.block.vtx| && p.block.vtx[k + 1] == pool[included[k]]
    ensures EntriesOf(pool, included)[k] == EntryOf(pool, included[k]) && BlockEntries(p)[1..][k] == BlockEntries(p)[k + 1]
  {
    assert p.block.vtx[1..][k] == p.block.vtx[k + 1];
  }

  lemma {:induction false} TxMoved(w: World, c: Context, c': Context, files: Files, files': Files, pool: Pool, pool': Pool,
                                   p: CBlockIndex, h: uint256, placed: map<uint256, Entry>, i: nat)
    requires Linked(p) && p.pprev != null && Fits(c, w, files, pool, p.pprev) && Fits(c', w, files', pool', p)
    requires BlockStored(files', p) && 0 < i < |p.block.vtx| && h in pool && p.block.vtx[i] == pool[h] && !pool[h].IsCoinBase()
    requires PoolOk(w.hashTx, placed, pool)
    ensures Moved(c, c', EntryOf(pool, h), BlockEntries(p)[i])
  {
    StoredTxReads(files', p, i);
    assert PoolTx(w.hashTx, placed, pool, h);
  }

  /** A block that carries a template on top of the chain it was made for, and whose
      coinbase claims no more than subsidy and fees, satisfies the rules, so it is accepted
      by ConnectBlock wherever in the block files it has been written. */
  lemma {:induction false} TemplateConnects(w: World, c: Context, files: Files, files': Files, pool: Pool,
                                            m: Tree, s: Store, p: CBlockIndex, included: seq<uint256>, nFees: int)
    requires TreeOk(m) && AllStored(w, files', m) && AllTell(w.hashTx, m) && InTree(m, p) && p.pprev != null
    requires SettledAt(w, m, s, p.pprev) && PathStored(files, Path(p.pprev)) && Fits(c, w, files, pool, p.pprev)
    requires PoolOk(w.hashTx, Placed(w.hashTx, BestLedger(p.pprev)), pool)
    requires CarriesTemplate(pool, included, p.block.vtx)
    requires Finished(c, BestLedger(p.pprev), EntriesOf(pool, included), nFees)
    requires BlockOk(w, p.block, p.nHeight) && ValueOf(p.block.vtx[0].vout) <= Subsidy(p.nHeight) + nFees
    ensures Approved(w, p)
  {
    var c' := ContextAt(w, files', pool, p);
    ContextFits(w, files', pool, p);
    TemplateAccepted(w, c, c', files, files', pool, m, s, p, included, nFees);
    ExactHere(w, c', files', m, p);
  }

  lemma {:induction false} TemplateAccepted(w: World, c: Context, c': Context, files: Files, files': Files, pool: Pool,
                                            m: Tree, s: Store, p: CBlockIndex, included: seq<uint256>, nFees: int)
    requires TreeOk(m) && AllStored(w, files', m) && AllTell(w.hashTx, m) && InTree(m, p) && p.pprev != null
    requires SettledAt(w, m, s, p.pprev) && PathStored(files, Path(p.pprev)) && Fits(c, w, files, pool, p.pprev)
    requires Fits(c', w, files', pool, p)
    requires PoolOk(w.hashTx, Placed(w.hashTx, BestLedger(p.pprev)), pool)
    requires CarriesTemplate(pool, included, p.block.vtx)
    requires Finished(c, BestLedger(p.pprev), EntriesOf(pool, included), nFees)
    requires BlockOk(w, p.block, p.nHeight) && ValueOf(p.block.vtx[0].vout) <= Subsidy(p.nHeight) + nFees
    ensures ConnectedIndex(w, c', LedgerIndex(w.hashTx, BestLedger(p.pprev)), p).Some?
  {
    var idx := LedgerIndex(w.hashTx, BestLedger(p.pprev));
    SoundLedger(w.hashTx, Path(p.pprev));
    ChainSimilar(w, c, c', files, files', pool, pool, m, p);
    CoinBaseFresh(w, m, p);
    FinishedConnects(c, BestLedger(p.pprev), EntriesOf(pool, included), nFees);
    assert NodeStored(w, files', m, p.hashBlock);
    TemplateMoved(w, c, c', files, files', pool, pool, p, included, Placed(w.hashTx, BestLedger(p.pprev)));
    TemplateEntries(w, c, c', idx, p, EntriesOf(pool, included), nFees);
  }

  lemma {:induction false} TemplateEntries(w: World, c: Context, c': Context, idx: Index, p: CBlockIndex, es: seq<Entry>, nFees: int)
    requires BlockOk(w, p.block, p.nHeight) && c'.hashTx(p.block.vtx[0]) !in idx
    requires Agree(c, c') && Similar(c, c', idx, idx) && AllMoved(c, c', es, BlockEntries(p)[1..])
    requires ConnectEntries(c, idx, es, 0).Some? && ConnectEntries(c, idx, es, 0).value.1 == nFees
    requires ValueOf(p.block.vtx[0].vout) <= Subsidy(p.nHeight) + nFees
    ensures ConnectedIndex(w, c', idx, p).Some?
  {
    var e := BlockEntries(p)[0];
    var t := NewTxIndex(e.pos, |e.tx.vout|);
    CoinBaseSimilar(c, c', idx, c'.hashTx(e.tx), t);
    EntriesSimilar(c, c', idx, idx[c'.hashTx(e.tx) := t], es, BlockEntries(p)[1..], 0);
  }
}
