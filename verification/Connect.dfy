/** CheckTransaction, ConnectInputs, DisconnectInputs, ConnectBlock and
    DisconnectBlock of src/main.cpp, each proved against the functions of
    TxIndex. */
module Connect {
  import opened Basics
  import opened Serialize
  import opened TxIndex
  import opened Supply
  import opened BlockIndex
  import opened TxDb

  const MAX_BLOCK_SIZE: nat := 1000000

  /** Deterministic functions the chain code calls but does not define: the two
      hashes, script evaluation, and the block checks that look only at the
      header, the size, the clock, the signature counts and the merkle root. */
  datatype World = World(
    hashTx: TxHash,
    hashBlock: CBlock -> uint256,
    verifyScript: (seq<byte>, seq<byte>, CTransaction, nat) -> bool,
    checkHeader: (CBlock, int) -> bool,
    checkDisk: CBlock -> bool)

  /** Block files by number. */
  type Files = map<nat, seq<byte>>

  // ----- reading from disk -----

  function ReadTx(files: Files, pos: CDiskTxPos): Option<CTransaction> {
    if pos.nFile !in files || pos.nTxPos > |files[pos.nFile]| then None else
    var r := ParseTx(files[pos.nFile][pos.nTxPos..]);
    if r.None? then None else Some(r.value.0)
  }

  function ReadBlock(files: Files, nFile: nat, nBlockPos: nat): Option<CBlock> {
    if nFile !in files || nBlockPos > |files[nFile]| then None else
    var r := ParseBlock(false, files[nFile][nBlockPos..]);
    if r.None? then None else Some(r.value.0)
  }

  function FetchTx(files: Files, mapTransactions: map<uint256, CTransaction>, h: uint256, pos: CDiskTxPos): Option<CTransaction> {
    if pos == MemoryPos then
      if h in mapTransactions then Some(mapTransactions[h]) else None
    else ReadTx(files, pos)
  }

  ghost function ContextAt(w: World, files: Files, mapTransactions: map<uint256, CTransaction>, p: CBlockIndex): Context
    requires Linked(p)
  {
    Context(w.hashTx, w.verifyScript, (h: uint256, pos: CDiskTxPos) => FetchTx(files, mapTransactions, h, pos),
            (pos: CDiskTxPos) => Linked(p) && Immature(p, pos))
  }

  /** c is what connecting at p reads. */
  ghost predicate Fits(c: Context, w: World, files: Files, mapTransactions: map<uint256, CTransaction>, p: CBlockIndex) {
    && Linked(p) && c.hashTx == w.hashTx && c.verifyScript == w.verifyScript
    && (forall h, pos :: c.fetch(h, pos) == FetchTx(files, mapTransactions, h, pos))
    && (forall pos :: c.immature(pos) == Immature(p, pos))
  }

  lemma {:induction false} ContextFits(w: World, files: Files, mapTransactions: map<uint256, CTransaction>, p: CBlockIndex)
    requires Linked(p)
    ensures Fits(ContextAt(w, files, mapTransactions, p), w, files, mapTransactions, p)
  {
  }

  // ----- context-free checks -----

  predicate TxOk(tx: CTransaction) {
    && tx.vin != [] && tx.vout != [] && SizeTx(tx) <= MAX_BLOCK_SIZE
    && OutputsInRange(tx.vout)
    && (if tx.IsCoinBase() then 2 <= |tx.vin[0].scriptSig| <= 100
        else forall i :: 0 <= i < |tx.vin| ==> !tx.vin[i].prevout.IsNull())
  }

  lemma {:induction false} ValueOfPrefix(vout: seq<CTxOut>, i: nat)
    requires i < |vout|
    ensures ValueOf(vout[..i + 1]) == ValueOf(vout[..i]) + vout[i].nValue
  {
    assert vout[..i + 1][..i] == vout[..i];
  }

  /** CheckTransaction's loop over the outputs.  With the running total it accepts exactly
      those that are each in range and whose total is. */
  method CheckOutputs(vout: seq<CTxOut>) returns (ok: bool)
    ensures ok <==> OutputsInRange(vout)
  {
    var nValueOut: int64 := 0;
    for i := 0 to |vout|
      invariant nValueOut == ValueOf(vout[..i]) && MoneyRange(nValueOut)
      invariant forall n :: 0 <= n < i ==> MoneyRange(vout[n].nValue)
    {
      if vout[i].nValue < 0 {
        return false;
      }
      if vout[i].nValue > MAX_MONEY {
        return false;
      }
      ValueOfPrefix(vout, i);
      nValueOut := nValueOut + vout[i].nValue;
      if !MoneyRange(nValueOut) {
        if OutputsInRange(vout) {
          ValueMonotone(vout, i + 1);
        }
        return false;
      }
    }
    assert vout[..|vout|] == vout;
    return true;
  }

  method CheckTransaction(tx: CTransaction) returns (ok: bool)
    ensures ok <==> TxOk(tx)
  {
    if tx.vin == [] || tx.vout == [] {
      return false;
    }
    if SizeTx(tx) > MAX_BLOCK_SIZE {
      return false;
    }
    var inRange := CheckOutputs(tx.vout);
    if !inRange {
      return false;
    }
    if tx.IsCoinBase() {
      return 2 <= |tx.vin[0].scriptSig| <= 100;
    }
    for i := 0 to |tx.vin|
      invariant forall k :: 0 <= k < i ==> !tx.vin[k].prevout.IsNull()
    {
      if tx.vin[i].prevout.IsNull() {
        return false;
      }
    }
    return true;
  }

  /** GetValueOut does not throw, and does not overflow, on outputs in range. */
  method GetValueOut(tx: CTransaction) returns (nValueOut: int64)
    requires OutputsInRange(tx.vout)
    ensures nValueOut == ValueOf(tx.vout)
  {
    nValueOut := 0;
    for i := 0 to |tx.vout|
      invariant nValueOut == ValueOf(tx.vout[..i])
    {
      ValueOfPrefix(tx.vout, i);
      ValueMonotone(tx.vout, i);
      ValueMonotone(tx.vout, i + 1);
      nValueOut := nValueOut + tx.vout[i].nValue;
    }
    assert tx.vout[..|tx.vout|] == tx.vout;
  }

  predicate BlockOk(w: World, b: CBlock, nHeight: int) {
    && b.vtx != [] && SizeBlock(b, false) <= MAX_BLOCK_SIZE
    && w.checkHeader(b, nHeight)
    && b.vtx[0].IsCoinBase()
    && (forall i :: 1 <= i < |b.vtx| ==> !b.vtx[i].IsCoinBase())
    && (forall i :: 0 <= i < |b.vtx| ==> TxOk(b.vtx[i]))
  }

  /** What passes CheckTransaction, said of the bytes and the amounts. */
  predicate TxChecked(tx: CTransaction) {
    && |tx.vin| >= 1 && |tx.vout| >= 1 && |SerializeTx(tx)| <= 1000000
    && (forall n :: 0 <= n < |tx.vout| ==> 0 <= tx.vout[n].nValue <= 21000000 * COIN) && ValueOf(tx.vout) <= 21000000 * COIN
    && (if tx.vin[0].prevout == COutPoint(0, 0xffff_ffff) then |tx.vin| == 1 && 2 <= |tx.vin[0].scriptSig| <= 100
        else forall i :: 0 <= i < |tx.vin| ==> tx.vin[i].prevout != COutPoint(0, 0xffff_ffff))
  }

  /** Its one input names no output. */
  predicate IsFirst(tx: CTransaction) {
    |tx.vin| == 1 && tx.vin[0].prevout == COutPoint(0, 0xffff_ffff)
  }

  lemma {:induction false} TxOkMeans(tx: CTransaction)
    ensures TxOk(tx) <==> TxChecked(tx)
  {
    SizeTxExact(tx);
    if TxChecked(tx) {
      ValueMonotone(tx.vout, 0);
    }
  }

  /** What passes CheckBlock: it takes at most a million bytes, its first transaction and no
      other is a coinbase, and all pass CheckTransaction. */
  predicate BlockChecked(w: World, b: CBlock, nHeight: int) {
    && w.checkHeader(b, nHeight) && |SerializeBlock(b, false)| <= 1000000 && |b.vtx| >= 1
    && (forall i :: 0 <= i < |b.vtx| ==> (IsFirst(b.vtx[i]) <==> i == 0))
    && (forall i :: 0 <= i < |b.vtx| ==> TxChecked(b.vtx[i]))
  }

  lemma {:induction false} BlockOkMeans(w: World, b: CBlock, nHeight: int)
    ensures BlockOk(w, b, nHeight) <==> BlockChecked(w, b, nHeight)
  {
    SizeBlockExact(b, false);
    forall i | 0 <= i < |b.vtx|
      ensures TxOk(b.vtx[i]) <==> TxChecked(b.vtx[i])
    {
      TxOkMeans(b.vtx[i]);
    }
  }

  method CheckBlock(w: World, b: CBlock, nHeight: int) returns (ok: bool)
    ensures ok <==> BlockOk(w, b, nHeight)
  {
    if b.vtx == [] || SizeBlock(b, false) > MAX_BLOCK_SIZE || !w.checkHeader(b, nHeight) {
      return false;
    }
    if !b.vtx[0].IsCoinBase() {
      return false;
    }
    for i := 1 to |b.vtx|
      invariant forall k :: 1 <= k < i ==> !b.vtx[k].IsCoinBase()
    {
      if b.vtx[i].IsCoinBase() {
        return false;
      }
    }
    for i := 0 to |b.vtx|
      invariant forall k :: 0 <= k < i ==> TxOk(b.vtx[k])
    {
      var good := CheckTransaction(b.vtx[i]);
      if !good {
        return false;
      }
    }
    return true;
  }

  // ----- one transaction -----

  /** Previous transactions reachable through the index passed CheckTransaction. */
  ghost predicate FetchInRange(c: Context, idx: Index) {
    forall h {:trigger InRangeAt(c, idx, h)} :: h in idx ==> InRangeAt(c, idx, h)
  }

  ghost predicate InRangeAt(c: Context, idx: Index, h: uint256)
    requires h in idx
  {
    var t := c.fetch(h, idx[h].pos); t.Some? ==> OutputsInRange(t.value.vout)
  }

  lemma {:induction false} InputKeepsRange(c: Context, idx: Index, tx: CTransaction, pos: CDiskTxPos, i: nat, nValueIn: int)
    requires i < |tx.vin| && FetchInRange(c, idx)
    ensures var r := ConnectInput(c, idx, tx, pos, i, nValueIn); r.Some? ==> FetchInRange(c, r.value.0)
  {
    var r := ConnectInput(c, idx, tx, pos, i, nValueIn);
    if r.Some? {
      forall h | h in r.value.0
        ensures InRangeAt(c, r.value.0, h)
      {
        assert InRangeAt(c, idx, h);
      }
    }
  }

  /** What ConnectInputs consults: the miner sees its own proposed changes first. */
  function View(db: Index, mapTestPool: Index, fMiner: bool): Index {
    if fMiner then db + mapTestPool else db
  }

  method ReadView(txdb: CTxDB, mapTestPool: Index, fMiner: bool, hash: uint256) returns (txindex: Option<CTxIndex>)
    ensures var view := View(txdb.Current().tx, mapTestPool, fMiner);
            txindex == if hash in view then Some(view[hash]) else None
  {
    if fMiner && hash in mapTestPool {
      txindex := Some(mapTestPool[hash]);
    } else {
      txindex := txdb.ReadTxIndex(hash);
    }
  }

  method WriteView(txdb: CTxDB, mapTestPool: Index, fBlock: bool, hash: uint256, txindex: CTxIndex) returns (testPool: Index)
    modifies txdb
    ensures View(txdb.Current().tx, testPool, !fBlock) == View(old(txdb.Current().tx), mapTestPool, !fBlock)[hash := txindex]
    ensures !fBlock ==> unchanged(txdb)
    ensures fBlock ==> txdb.Wrote(old(txdb.Current()).(tx := txdb.Current().tx))
  {
    testPool := mapTestPool;
    if fBlock {
      txdb.UpdateTxIndex(hash, txindex);
    } else {
      testPool := testPool[hash := txindex];
    }
  }

  method ReadPrev(files: Files, mapTransactions: map<uint256, CTransaction>, hash: uint256, pos: CDiskTxPos)
    returns (txPrev: Option<CTransaction>)
    ensures txPrev == FetchTx(files, mapTransactions, hash, pos)
  {
    if pos == MemoryPos {
      txPrev := if hash in mapTransactions then Some(mapTransactions[hash]) else None;
    } else {
      txPrev := ReadTx(files, pos);
    }
  }

  method TestInput(w: World, ghost c: Context, txindex: CTxIndex, txPrev: CTransaction, tx: CTransaction, i: nat,
                   pindexBlock: CBlockIndex, nValueBefore: int64) returns (ok: bool, nValueIn: int64)
    requires Linked(pindexBlock) && i < |tx.vin| && MoneyRange(nValueBefore) && OutputsInRange(txPrev.vout)
    requires c.hashTx == w.hashTx && c.verifyScript == w.verifyScript
    requires c.immature(txindex.pos) == Immature(pindexBlock, txindex.pos)
    ensures ok <==> Spendable(c, txindex, txPrev, tx, i, nValueBefore)
    ensures ok ==> nValueIn == nValueBefore + txPrev.vout[tx.vin[i].prevout.n].nValue && MoneyRange(nValueIn)
  {
    nValueIn := nValueBefore;
    var prevout := tx.vin[i].prevout;
    if prevout.n >= |txPrev.vout| || prevout.n >= |txindex.vSpent| {
      return false, nValueIn;
    }

    if txPrev.IsCoinBase() {
      var immature := FindImmature(pindexBlock, txindex.pos);
      if immature {
        return false, nValueIn;
      }
    }

    // VerifySignature, whose index test the one above has passed.
    if prevout.hash != w.hashTx(txPrev)
       || !w.verifyScript(tx.vin[i].scriptSig, txPrev.vout[prevout.n].scriptPubKey, tx, i) {
      return false, nValueIn;
    }

    // Another transaction holds the slot already.
    if !txindex.vSpent[prevout.n].IsNull() {
      return false, nValueIn;
    }

    // OutputsInRange bounds what is added, so the sum stays within int64.
    nValueIn := nValueIn + txPrev.vout[prevout.n].nValue;
    return MoneyRange(txPrev.vout[prevout.n].nValue) && MoneyRange(nValueIn), nValueIn;
  }

  /** The body of ConnectInputs' loop: input i of tx. */
  method TakeInput(w: World, ghost c: Context, files: Files, mapTransactions: map<uint256, CTransaction>, txdb: CTxDB,
                   mapTestPool: Index, tx: CTransaction, i: nat, posThisTx: CDiskTxPos, pindexBlock: CBlockIndex,
                   nValueBefore: int64, fBlock: bool)
    returns (ok: bool, testPool: Index, nValueIn: int64)
    requires Fits(c, w, files, mapTransactions, pindexBlock) && i < |tx.vin| && MoneyRange(nValueBefore)
    requires FetchInRange(c, View(txdb.Current().tx, mapTestPool, !fBlock))
    modifies txdb
    ensures ok == ConnectInput(c,
                               View(old(txdb.Current().tx), mapTestPool, !fBlock), tx, posThisTx, i, nValueBefore).Some?
    ensures ok ==> Some((View(txdb.Current().tx, testPool, !fBlock), nValueIn as int)) ==
                   ConnectInput(c,
                                View(old(txdb.Current().tx), mapTestPool, !fBlock), tx, posThisTx, i, nValueBefore)
    ensures ok ==> MoneyRange(nValueIn)
    ensures !fBlock || !ok ==> unchanged(txdb)
    ensures fBlock && ok ==> txdb.Wrote(old(txdb.Current()).(tx := txdb.Current().tx))
  {
    testPool, nValueIn := mapTestPool, nValueBefore;
    var prevout := tx.vin[i].prevout;
    var found := ReadView(txdb, testPool, !fBlock, prevout.hash);
    if found.None? {
      return false, testPool, nValueIn;
    }
    var txindex := found.value;
    var txPrev := ReadPrev(files, mapTransactions, prevout.hash, txindex.pos);
    assert txPrev == c.fetch(prevout.hash, txindex.pos) && InRangeAt(c, View(txdb.Current().tx, testPool, !fBlock), prevout.hash);
    if txPrev.None? {
      return false, testPool, nValueIn;
    }
    ok, nValueIn := TestInput(w, c, txindex, txPrev.value, tx, i, pindexBlock, nValueBefore);
    if ok {
      // The slot is filled last, so that a refused input leaves the view as it was.
      testPool := WriteView(txdb, testPool, fBlock, prevout.hash, Spend(txindex, prevout.n, posThisTx));
    }
  }

  /** In block mode (fBlock set, fMiner clear) the result goes to the store, in
      miner mode (the other way round) to the test pool.  No sum of values
      overflows on the way, and nFees has the value the source leaves in it even
      on failure. */
  method ConnectInputs(w: World, ghost c: Context, files: Files, mapTransactions: map<uint256, CTransaction>, txdb: CTxDB,
                       mapTestPool: Index, tx: CTransaction, posThisTx: CDiskTxPos, pindexBlock: CBlockIndex,
                       nFees: int64, fBlock: bool, nMinFee: int64)
    returns (ok: bool, testPool: Index, fees: int64)
    requires Fits(c, w, files, mapTransactions, pindexBlock) && OutputsInRange(tx.vout) && MoneyRange(nFees)
    requires FetchInRange(c, View(txdb.Current().tx, mapTestPool, !fBlock))
    modifies txdb
    ensures var r := ConnectTx(c,
                               View(old(txdb.Current().tx), mapTestPool, !fBlock), tx, posThisTx, nFees, nMinFee);
            && ok == r.Connected? && fees == r.nFees
            && (ok ==> View(txdb.Current().tx, testPool, !fBlock) == r.idx && MoneyRange(fees))
    ensures !fBlock ==> unchanged(txdb)
    ensures fBlock ==> txdb.Wrote(old(txdb.Current()).(tx := txdb.Current().tx))
  {
    testPool, fees := mapTestPool, nFees;
    if !tx.IsCoinBase() {
      var nValueIn;
      ok, testPool, nValueIn := TakeInputs(w, c, files, mapTransactions, txdb, mapTestPool, tx, posThisTx, pindexBlock, fBlock);
      if !ok {
        return false, testPool, fees;
      }
      var nValueOut := GetValueOut(tx);
      if nValueIn < nValueOut {
        return false, testPool, fees;
      }
      var nTxFee: int64 := nValueIn - nValueOut;
      if nTxFee < nMinFee {
        return false, testPool, fees;
      }
      fees := fees + nTxFee;
      if !MoneyRange(fees) {
        return false, testPool, fees;
      }
    }
    testPool := WriteView(txdb, testPool, fBlock, w.hashTx(tx), NewTxIndex(posThisTx, |tx.vout|));
    return true, testPool, fees;
  }

  /** ConnectInputs' loop over the inputs. */
  method TakeInputs(w: World, ghost c: Context, files: Files, mapTransactions: map<uint256, CTransaction>, txdb: CTxDB,
                    mapTestPool: Index, tx: CTransaction, posThisTx: CDiskTxPos, pindexBlock: CBlockIndex, fBlock: bool)
    returns (ok: bool, testPool: Index, nValueIn: int64)
    requires Fits(c, w, files, mapTransactions, pindexBlock)
    requires FetchInRange(c, View(txdb.Current().tx, mapTestPool, !fBlock))
    modifies txdb
    ensures var r := ConnectInputsFrom(c,
                                       View(old(txdb.Current().tx), mapTestPool, !fBlock), tx, posThisTx, 0, 0);
            && ok == r.Some?
            && (ok ==> r.value == (View(txdb.Current().tx, testPool, !fBlock), nValueIn as int) && MoneyRange(nValueIn))
    ensures !fBlock ==> unchanged(txdb)
    ensures fBlock ==> txdb.Wrote(old(txdb.Current()).(tx := txdb.Current().tx))
  {
    ghost var view0 := View(txdb.Current().tx, mapTestPool, !fBlock);
    ghost var view := view0;
    testPool, nValueIn := mapTestPool, 0;
    var i := 0;
    while i < |tx.vin|
      invariant i <= |tx.vin| && MoneyRange(nValueIn)
      invariant ConnectInputsFrom(c, view0, tx, posThisTx, 0, 0)
             == ConnectInputsFrom(c, view, tx, posThisTx, i, nValueIn)
      invariant view == View(txdb.Current().tx, testPool, !fBlock) && FetchInRange(c, view)
      invariant !fBlock ==> unchanged(txdb)
      invariant fBlock ==> txdb.Wrote(old(txdb.Current()).(tx := txdb.Current().tx))
    {
      InputKeepsRange(c, view, tx, posThisTx, i, nValueIn);
      ok, testPool, nValueIn := TakeInput(w, c, files, mapTransactions, txdb, testPool, tx, i, posThisTx, pindexBlock,
                                          nValueIn, fBlock);
      if !ok {
        return false, testPool, nValueIn;
      }
      view, i := View(txdb.Current().tx, testPool, !fBlock), i + 1;
    }
    return true, testPool, nValueIn;
  }

  method DisconnectInputs(w: World, txdb: CTxDB, tx: CTransaction) returns (ok: bool)
    modifies txdb
    ensures var r := DisconnectTx(w.hashTx, old(txdb.Current()).tx, tx);
            && ok == r.Some?
            && (ok ==> txdb.Current().tx == r.value)
    ensures txdb.Wrote(old(txdb.Current()).(tx := txdb.Current().tx))
  {
    if !tx.IsCoinBase() {
      var i := 0;
      while i < |tx.vin|
        invariant i <= |tx.vin|
        invariant DisconnectInputsFrom(old(txdb.Current()).tx, tx, 0) == DisconnectInputsFrom(txdb.Current().tx, tx, i)
        invariant txdb.Wrote(old(txdb.Current()).(tx := txdb.Current().tx))
      {
        var prevout := tx.vin[i].prevout;
        var found := txdb.ReadTxIndex(prevout.hash);
        if found.None? {
          return false;
        }
        var txindex := found.value;
        if prevout.n >= |txindex.vSpent| {
          return false;
        }
        txindex := txindex.(vSpent := txindex.vSpent[prevout.n := NullPos]);
        txdb.UpdateTxIndex(prevout.hash, txindex);
        i := i + 1;
      }
    }
    txdb.EraseTxIndex(w.hashTx(tx));
    return true;
  }

  // ----- one block -----

  /** The transactions of an indexed block with the positions ConnectBlock gives
      them. */
  ghost function BlockEntries(p: CBlockIndex): (es: seq<Entry>)
    ensures |es| == |p.block.vtx|
    ensures forall i :: 0 <= i < |es| ==>
              es[i] == Entry(p.block.vtx[i], CDiskTxPos(p.nFile, p.nBlockPos, p.nBlockPos + TxStart(p.block, i)))
  {
    seq(|p.block.vtx|, i requires 0 <= i < |p.block.vtx| =>
      Entry(p.block.vtx[i], CDiskTxPos(p.nFile, p.nBlockPos, p.nBlockPos + TxStart(p.block, i))))
  }

  method GetBlockValue(nHeight: nat, nFees: int64) returns (r: int64)
    requires MoneyRange(nFees)
    ensures r == Subsidy(nHeight) + nFees
  {
    var nSubsidy: int64 := 96 * COIN;
    if nHeight >= 227499 {
      nSubsidy := 0;
    } else {
      nSubsidy := nSubsidy / Pow(2, nHeight / 210000);
    }
    return nSubsidy + nFees;
  }

  /** The index after p's block is connected, or None if the block is rejected. */
  ghost function ConnectedIndex(w: World, c: Context, idx: Index, p: CBlockIndex): Option<Index> {
    if !BlockOk(w, p.block, p.nHeight) then None else
    var r := ConnectEntries(c, idx, BlockEntries(p), 0);
    if r.None? || ValueOf(p.block.vtx[0].vout) > Subsidy(p.nHeight) + r.value.1 then None else Some(r.value.0)
  }

  ghost function LinkNext(hashNext: map<uint256, uint256>, p: CBlockIndex, next: uint256): map<uint256, uint256> {
    if p.pprev == null then hashNext else hashNext[p.pprev.hashBlock := next]
  }

  ghost function ConnectedStore(w: World, c: Context, s: Store, p: CBlockIndex): Option<Store> {
    var idx := ConnectedIndex(w, c, s.tx, p);
    if idx.None? then None else Some(s.(tx := idx.value, hashNext := LinkNext(s.hashNext, p, p.hashBlock)))
  }

  ghost function DisconnectedStore(w: World, s: Store, p: CBlockIndex): Option<Store> {
    var idx := DisconnectEntries(w.hashTx, s.tx, BlockEntries(p));
    if idx.None? then None else Some(s.(tx := idx.value, hashNext := LinkNext(s.hashNext, p, 0)))
  }

  /** FetchInRange survives connecting: the keys a block adds point to positions
      whose transaction, if it can be read, is in range. */
  ghost predicate EntriesInRange(c: Context, es: seq<Entry>) {
    forall k :: 0 <= k < |es| ==> EntryInRange(c, es[k])
  }

  ghost predicate EntryInRange(c: Context, e: Entry) {
    var t := c.fetch(HashOf(c.hashTx, e), e.pos); t.Some? ==> OutputsInRange(t.value.vout)
  }

  lemma {:induction false} FetchInRangeKept(c: Context, idx: Index, e: Entry, nFees: int, nMinFee: int)
    requires FetchInRange(c, idx) && EntryInRange(c, e)
    ensures var r := ConnectTx(c, idx, e.tx, e.pos, nFees, nMinFee); r.Connected? ==> FetchInRange(c, r.idx)
  {
    var r := ConnectTx(c, idx, e.tx, e.pos, nFees, nMinFee);
    if r.Connected? {
      if !e.tx.IsCoinBase() {
        ConnectInputsKeys(c, idx, e.tx, e.pos, 0, 0);
        ConnectInputsShape(c, idx, e.tx, e.pos, 0, 0);
      }
      forall h | h in r.idx
        ensures InRangeAt(c, r.idx, h)
      {
        assert h in idx ==> InRangeAt(c, idx, h);
      }
    }
  }

  method ConnectBlock(w: World, ghost c: Context, files: Files, mapTransactions: map<uint256, CTransaction>, txdb: CTxDB,
                      b: CBlock, pindex: CBlockIndex) returns (ok: bool)
    requires Fits(c, w, files, mapTransactions, pindex) && b == pindex.block
    requires FetchInRange(c, txdb.Current().tx) && EntriesInRange(c, BlockEntries(pindex))
    modifies txdb
    ensures var r := ConnectedStore(w, c, old(txdb.Current()), pindex);
            && ok == r.Some?
            && (ok ==> txdb.Wrote(r.value) && txdb.Current() == r.value)
    ensures txdb.Wrote(txdb.Current())
  {
    var good := CheckBlock(w, b, pindex.nHeight);
    if !good {
      return false;
    }
    CheckedInRange(w, b, pindex.nHeight);
    var nFees;
    ok, nFees := ConnectTxs(w, c, files, mapTransactions, txdb, b, pindex);
    if !ok {
      return false;
    }
    ok := CheckReward(b.vtx[0], pindex.nHeight, nFees);
    if ok {
      WriteNext(txdb, pindex, pindex.hashBlock);
    }
  }

  /** The coinbase takes no more than subsidy and fees. */
  method CheckReward(tx: CTransaction, nHeight: nat, nFees: int64) returns (ok: bool)
    requires OutputsInRange(tx.vout) && MoneyRange(nFees)
    ensures ok <==> ValueOf(tx.vout) <= Subsidy(nHeight) + nFees
  {
    var nValueOut := GetValueOut(tx);
    var nBlockValue := GetBlockValue(nHeight, nFees);
    return nValueOut <= nBlockValue;
  }

  /** Sets hashNext in the record of the block below, if there is one. */
  method WriteNext(txdb: CTxDB, pindex: CBlockIndex, next: uint256)
    modifies txdb
    ensures var s := old(txdb.Current()); txdb.Current() == s.(hashNext := LinkNext(s.hashNext, pindex, next))
    ensures txdb.Wrote(txdb.Current())
  {
    if pindex.pprev != null {
      txdb.WriteBlockIndex(pindex.pprev.hashBlock, next);
    } else {
      assert txdb.Wrote(txdb.Current());
    }
  }

  /** ConnectBlock's loop over the transactions.  Each gets the offset at which it starts
      in the stored block. */
  method ConnectTxs(w: World, ghost c: Context, files: Files, mapTransactions: map<uint256, CTransaction>, txdb: CTxDB,
                    b: CBlock, pindex: CBlockIndex) returns (ok: bool, nFees: int64)
    requires Fits(c, w, files, mapTransactions, pindex) && b == pindex.block && TxsInRange(b.vtx)
    requires FetchInRange(c, txdb.Current().tx) && EntriesInRange(c, BlockEntries(pindex))
    modifies txdb
    ensures var r := ConnectEntries(c, old(txdb.Current()).tx, BlockEntries(pindex), 0);
            && ok == r.Some?
            && (ok ==> r.value == (txdb.Current().tx, nFees as int) && MoneyRange(nFees))
    ensures txdb.Wrote(old(txdb.Current()).(tx := txdb.Current().tx))
  {
    ghost var es := BlockEntries(pindex);
    var nTxPos := pindex.nBlockPos + SizeBlock(b, true) + GetSizeOfCompactSize(|b.vtx|);
    nFees := 0;
    var i := 0;
    while i < |b.vtx|
      invariant i <= |b.vtx| && MoneyRange(nFees)
      invariant nTxPos == pindex.nBlockPos + TxStart(b, i)
      invariant ConnectEntries(c, old(txdb.Current()).tx, es, 0) == ConnectEntries(c, txdb.Current().tx, es[i..], nFees)
      invariant FetchInRange(c, txdb.Current().tx)
      invariant txdb.Wrote(old(txdb.Current()).(tx := txdb.Current().tx))
    {
      EntriesStep(c, txdb.Current().tx, es, i, nFees);
      TxReady(c, b, pindex, i, CDiskTxPos(pindex.nFile, pindex.nBlockPos, nTxPos));
      ok, nFees := ConnectNext(w, c, files, mapTransactions, txdb, b.vtx[i], CDiskTxPos(pindex.nFile, pindex.nBlockPos, nTxPos),
                               pindex, nFees);
      if !ok {
        return false, nFees;
      }
      TxStartStep(b, i);
      nTxPos := nTxPos + SizeTx(b.vtx[i]);
      i := i + 1;
    }
    assert es[i..] == [];
    ok := true;
  }

  ghost predicate TxsInRange(vtx: seq<CTransaction>) {
    forall k :: 0 <= k < |vtx| ==> OutputsInRange(vtx[k].vout)
  }

  lemma {:induction false} CheckedInRange(w: World, b: CBlock, nHeight: int)
    requires BlockOk(w, b, nHeight)
    ensures TxsInRange(b.vtx)
  {
  }

  lemma {:induction false} TxReady(c: Context, b: CBlock, pindex: CBlockIndex, i: nat, pos: CDiskTxPos)
    requires b == pindex.block && i < |b.vtx| && TxsInRange(b.vtx) && EntriesInRange(c, BlockEntries(pindex))
    requires pos == CDiskTxPos(pindex.nFile, pindex.nBlockPos, pindex.nBlockPos + TxStart(b, i))
    ensures BlockEntries(pindex)[i] == Entry(b.vtx[i], pos) && OutputsInRange(b.vtx[i].vout) && EntryInRange(c, Entry(b.vtx[i], pos))
  {
    assert EntryInRange(c, BlockEntries(pindex)[i]);
  }

  lemma {:induction false} EntriesStep(c: Context, idx: Index, es: seq<Entry>, i: nat, nFees: int)
    requires i < |es|
    ensures ConnectEntries(c, idx, es[i..], nFees) ==
            var r := ConnectTx(c, idx, es[i].tx, es[i].pos, nFees, 0);
            if r.Rejected? then None else ConnectEntries(c, r.idx, es[i + 1..], r.nFees)
  {
    assert es[i..][1..] == es[i + 1..];
  }

  /** One turn of that loop. */
  method ConnectNext(w: World, ghost c: Context, files: Files, mapTransactions: map<uint256, CTransaction>, txdb: CTxDB,
                     tx: CTransaction, posThisTx: CDiskTxPos, pindex: CBlockIndex, nFees: int64)
    returns (ok: bool, fees: int64)
    requires Fits(c, w, files, mapTransactions, pindex) && OutputsInRange(tx.vout) && MoneyRange(nFees)
    requires FetchInRange(c, txdb.Current().tx) && EntryInRange(c, Entry(tx, posThisTx))
    modifies txdb
    ensures var r := ConnectTx(c, old(txdb.Current()).tx, tx, posThisTx, nFees, 0);
            ok == r.Connected? && fees == r.nFees && (ok ==> txdb.Current().tx == r.idx && MoneyRange(fees))
    ensures ok ==> FetchInRange(c, txdb.Current().tx)
    ensures txdb.Wrote(old(txdb.Current()).(tx := txdb.Current().tx))
  {
    FetchInRangeKept(c, txdb.Current().tx, Entry(tx, posThisTx), nFees, 0);
    var testPool;
    ok, testPool, fees := ConnectInputs(w, c, files, mapTransactions, txdb, map[], tx, posThisTx, pindex, nFees, true, 0);
  }

  lemma {:induction false} TxStartStep(b: CBlock, i: nat)
    requires i < |b.vtx|
    ensures TxStart(b, i + 1) == TxStart(b, i) + SizeTx(b.vtx[i])
  {
    assert b.vtx[..i + 1] == b.vtx[..i] + [b.vtx[i]];
    SizeAllAppend(SizeTx, b.vtx[..i], [b.vtx[i]]);
    assert SizeAll(SizeTx, [b.vtx[i]]) == SizeTx(b.vtx[i]) + SizeAll(SizeTx, [b.vtx[i]][1..]);
  }

  method DisconnectBlock(w: World, txdb: CTxDB, b: CBlock, pindex: CBlockIndex) returns (ok: bool)
    requires b == pindex.block
    modifies txdb
    ensures var r := DisconnectedStore(w, old(txdb.Current()), pindex);
            && ok == r.Some?
            && (ok ==> txdb.Wrote(r.value) && txdb.Current() == r.value)
    ensures txdb.Wrote(txdb.Current())
  {
    ok := DisconnectTxs(w, txdb, b.vtx, BlockEntries(pindex));
    if ok {
      WriteNext(txdb, pindex, 0);
    }
  }

  /** DisconnectBlock's loop, last transaction first. */
  method DisconnectTxs(w: World, txdb: CTxDB, vtx: seq<CTransaction>, ghost es: seq<Entry>) returns (ok: bool)
    requires |es| == |vtx| && forall k :: 0 <= k < |es| ==> es[k].tx == vtx[k]
    modifies txdb
    ensures var r := DisconnectEntries(w.hashTx, old(txdb.Current()).tx, es);
            && ok == r.Some?
            && (ok ==> txdb.Current().tx == r.value)
    ensures txdb.Wrote(old(txdb.Current()).(tx := txdb.Current().tx))
  {
    assert es[..|es|] == es;
    var i := |vtx|;
    while i > 0
      invariant 0 <= i <= |vtx|
      invariant DisconnectEntries(w.hashTx, old(txdb.Current()).tx, es) == DisconnectEntries(w.hashTx, txdb.Current().tx, es[..i])
      invariant txdb.Wrote(old(txdb.Current()).(tx := txdb.Current().tx))
    {
      i := i - 1;
      assert es[..i + 1][..i] == es[..i] && es[..i + 1][i] == es[i];
      var disconnected := DisconnectInputs(w, txdb, vtx[i]);
      if !disconnected {
        return false;
      }
    }
    return true;
  }
}
