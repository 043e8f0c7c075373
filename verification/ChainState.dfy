/** The globals of src/main.cpp that make up the chain, and the steps that
    change them.  Valid ties them together and every step keeps it, whether the
    step succeeds or is rolled back. */
module ChainState {
  import opened Basics
  import opened Serialize
  import opened TxIndex
  import opened Ledger
  import opened Supply
  import opened BlockIndex
  import opened TxDb
  import opened Connect
  import opened Maturity
  import opened Chain
  import opened Rules
  import Bignum

  type Tree = map<uint256, CBlockIndex>

  ghost predicate InTree(m: Tree, p: CBlockIndex) {
    p.hashBlock in m && m[p.hashBlock] == p && Linked(p)
  }

  /** The key is the block's hash, heights are consecutive below it, and its
      parent is indexed with no more work. */
  ghost predicate NodeOk(m: Tree, h: uint256)
    requires h in m
  {
    && m[h].hashBlock == h && Linked(m[h])
    && (m[h].pprev != null ==> InTree(m, m[h].pprev) && m[h].pprev.bnChainWork <= m[h].bnChainWork)
  }

  ghost predicate TreeOk(m: Tree) {
    forall h {:trigger NodeOk(m, h)} :: h in m ==> NodeOk(m, h)
  }

  lemma {:induction false} KeyInTree(m: Tree, h: uint256)
    requires TreeOk(m) && h in m
    ensures m[h].hashBlock == h && InTree(m, m[h])
  {
    assert NodeOk(m, h);
  }

  lemma {:induction false} ParentInTree(m: Tree, p: CBlockIndex)
    requires TreeOk(m) && InTree(m, p) && p.pprev != null
    ensures InTree(m, p.pprev) && p.pprev.bnChainWork <= p.bnChainWork
  {
    assert NodeOk(m, p.hashBlock);
  }

  ghost predicate NodeStored(w: World, files: Files, m: Tree, h: uint256)
    requires h in m
  {
    BlockStored(files, m[h]) && w.hashBlock(m[h].block) == h
  }

  /** A block file record: where a block was written. */
  datatype FileRecord = FileRecord(nFile: nat, nBlockPos: nat, b: CBlock)

  ghost predicate RecordStored(files: Files, r: FileRecord) {
    StoredAt(files, r.nFile, r.nBlockPos, r.b)
  }

  /** Every record is still readable. */
  ghost predicate RecordsStored(files: Files, written: set<FileRecord>) {
    forall r {:trigger RecordStored(files, r)} :: r in written ==> RecordStored(files, r)
  }

  /** Every indexed block is in the block files. */
  ghost predicate AllStored(w: World, files: Files, m: Tree) {
    forall h {:trigger NodeStored(w, files, m, h)} :: h in m ==> NodeStored(w, files, m, h)
  }

  /** On the path to p a hash stands for one transaction, and the coinbase of p has a
      new one.  Other transactions may be repeated. */
  ghost predicate HashesTell(f: TxHash, p: CBlockIndex) {
    && Linked(p) && NoCollisions(f, LedgerOf(Path(p)))
    && (p.pprev != null ==> NewCoinBase(f, LedgerOf(Path(p.pprev)), p.block))
  }

  /** The standing hypothesis on transaction hashes. */
  ghost predicate AllTell(f: TxHash, m: Tree) {
    forall h {:trigger HashesTell(f, m[h])} :: h in m ==> HashesTell(f, m[h])
  }

  ghost predicate WorkIs(p: CBlockIndex, n: nat) {
    n == GetBlockWork(p.block.nBits)
  }

  /** The recorded work is that of the block and of its parent together. */
  ghost predicate SumsUp(p: CBlockIndex) {
    forall n: nat {:trigger WorkIs(p, n)} :: WorkIs(p, n) ==> p.bnChainWork == (if p.pprev == null then 0 else p.pprev.bnChainWork) + n
  }

  ghost predicate AllSumUp(m: Tree) {
    forall h {:trigger SumsUp(m[h])} :: h in m ==> SumsUp(m[h])
  }

  /** The work of the blocks of a path together. */
  ghost function PathWork(path: seq<CBlockIndex>): nat {
    if path == [] then 0 else PathWork(path[..|path| - 1]) + GetBlockWork(path[|path| - 1].block.nBits)
  }

  lemma {:induction false} PathWorkAppend(path: seq<CBlockIndex>, p: CBlockIndex)
    ensures PathWork(path + [p]) == PathWork(path) + GetBlockWork(p.block.nBits)
  {
    assert (path + [p])[..|path|] == path;
  }

  lemma {:induction false} PathWorkStep(p: CBlockIndex)
    requires Linked(p)
    ensures PathWork(Path(p)) == (if p.pprev == null then 0 else PathWork(Path(p.pprev))) + GetBlockWork(p.block.nBits)
  {
    var below := if p.pprev == null then [] else Path(p.pprev);
    PathWorkAppend(below, p);
    assert Path(p) == below + [p];
  }

  lemma {:induction false} OwnWork(m: Tree, p: CBlockIndex)
    requires AllSumUp(m) && InTree(m, p)
    ensures p.bnChainWork == (if p.pprev == null then 0 else p.pprev.bnChainWork) + GetBlockWork(p.block.nBits)
  {
    assert SumsUp(m[p.hashBlock]) && WorkIs(p, GetBlockWork(p.block.nBits));
  }

  /** bnChainWork is the work of all blocks from the root on. */
  lemma {:induction false} ChainWork(m: Tree, p: CBlockIndex)
    requires TreeOk(m) && AllSumUp(m) && InTree(m, p)
    ensures p.bnChainWork == PathWork(Path(p))
    decreases p.nHeight
  {
    OwnWork(m, p);
    PathWorkStep(p);
    if p.pprev != null {
      ParentInTree(m, p);
      ChainWork(m, p.pprev);
    }
  }

  /** Of two blocks on the same parent the one with the larger target never has more work. */
  lemma {:induction false} EasierSibling(m: Tree, p: CBlockIndex, q: CBlockIndex)
    requires TreeOk(m) && AllSumUp(m) && InTree(m, p) && InTree(m, q) && p.pprev == q.pprev
    requires 0 < Bignum.SetCompact(p.block.nBits) <= Bignum.SetCompact(q.block.nBits)
    ensures q.bnChainWork <= p.bnChainWork
  {
    OwnWork(m, p);
    OwnWork(m, q);
    EasierIsLess(Bignum.SetCompact(p.block.nBits), Bignum.SetCompact(q.block.nBits));
  }

  lemma {:induction false} PathInTree(m: Tree, p: CBlockIndex, k: nat)
    requires TreeOk(m) && InTree(m, p) && k <= p.nHeight
    ensures InTree(m, Path(p)[k])
    decreases p.nHeight
  {
    if k < p.nHeight {
      ParentInTree(m, p);
      PathInTree(m, p.pprev, k);
    }
  }

  lemma {:induction false} PathIsStored(w: World, files: Files, m: Tree, p: CBlockIndex)
    requires TreeOk(m) && AllStored(w, files, m) && InTree(m, p)
    ensures PathStored(files, Path(p))
  {
    forall k | 0 <= k < |Path(p)|
      ensures BlockStored(files, Path(p)[k])
    {
      PathInTree(m, p, k);
      assert NodeStored(w, files, m, Path(p)[k].hashBlock);
    }
  }

  // ----- pnext and hashNext -----

  /** The block after p on the path to tip, or null. */
  ghost function NextOnPath(tip: CBlockIndex, p: CBlockIndex): CBlockIndex?
    requires Linked(tip)
  {
    if IsAncestor(p, tip) && p != tip then Path(tip)[p.nHeight + 1] else null
  }

  lemma {:induction false} NextStep(tip: CBlockIndex, p: CBlockIndex)
    requires Linked(tip) && tip.pprev != null
    ensures NextOnPath(tip, p) == if p == tip.pprev then tip else NextOnPath(tip.pprev, p)
  {
  }

  ghost function NextHash(p: CBlockIndex?): uint256 {
    if p == null then 0 else p.hashBlock
  }

  ghost predicate LinkIs(m: Tree, tip: CBlockIndex, h: uint256)
    requires Linked(tip) && h in m
    reads m.Values
  {
    m[h].pnext == NextOnPath(tip, m[h])
  }

  /** The pnext links form exactly the path from the root to tip. */
  ghost predicate LinksAt(m: Tree, tip: CBlockIndex)
    requires Linked(tip)
    reads m.Values
  {
    forall h {:trigger LinkIs(m, tip, h)} :: h in m ==> LinkIs(m, tip, h)
  }

  ghost predicate Recorded(f: TxHash, idx: Index, path: seq<CBlockIndex>, h: uint256) {
    var l := LedgerIndex(f, LedgerOf(path));
    (h in idx <==> h in l) && (h in idx ==> idx[h] == l[h])
  }

  /** The index says of every hash what the ledger of the path says. */
  ghost predicate IndexAt(f: TxHash, idx: Index, path: seq<CBlockIndex>) {
    forall h: uint256 {:trigger Recorded(f, idx, path, h)} :: Recorded(f, idx, path, h)
  }

  lemma {:induction false} IndexAtMeans(f: TxHash, idx: Index, path: seq<CBlockIndex>)
    ensures IndexAt(f, idx, path) <==> idx == LedgerIndex(f, LedgerOf(path))
  {
    if IndexAt(f, idx, path) {
      assert forall h: uint256 :: Recorded(f, idx, path, h);
      forall h: uint256
        ensures (h in idx <==> h in LedgerIndex(f, LedgerOf(path)))
        ensures h in idx ==> idx[h] == LedgerIndex(f, LedgerOf(path))[h]
      {
        assert Recorded(f, idx, path, h);
      }
    }
  }

  ghost predicate NextRecorded(m: Tree, hashNext: map<uint256, uint256>, tip: CBlockIndex, h: uint256)
    requires Linked(tip) && h in m
  {
    h in hashNext && hashNext[h] == NextHash(NextOnPath(tip, m[h]))
  }

  /** The stored hashNext fields form the same path. */
  ghost predicate HashNextAt(m: Tree, hashNext: map<uint256, uint256>, tip: CBlockIndex)
    requires Linked(tip)
  {
    forall h {:trigger NextRecorded(m, hashNext, tip, h)} :: h in m ==> NextRecorded(m, hashNext, tip, h)
  }

  /** Every block above the root satisfies the rules. */
  ghost predicate AllApproved(w: World, path: seq<CBlockIndex>) {
    forall k {:trigger Approved(w, path[k])} :: 1 <= k < |path| ==> Approved(w, path[k])
  }

  lemma {:induction false} ApprovedExtend(w: World, path: seq<CBlockIndex>, p: CBlockIndex)
    ensures AllApproved(w, path + [p]) ==> AllApproved(w, path)
    ensures AllApproved(w, path) && Approved(w, p) ==> AllApproved(w, path + [p])
  {
    var v := path + [p];
    if AllApproved(w, v) {
      forall k | 1 <= k < |path|
        ensures Approved(w, path[k])
      {
        assert Approved(w, v[k]);
      }
    }
    if AllApproved(w, path) && Approved(w, p) {
      forall k | 1 <= k < |v|
        ensures Approved(w, v[k])
      {
        assert k < |path| ==> Approved(w, path[k]);
      }
    }
  }

  /** The tip is in the tree, the path to it is sound and satisfies the rules, and the store
      is the one its ledger determines. */
  ghost predicate SettledAt(w: World, m: Tree, s: Store, tip: CBlockIndex) {
    && InTree(m, tip) && SoundPath(w.hashTx, Path(tip)) && AllApproved(w, Path(tip))
    && IndexAt(w.hashTx, s.tx, Path(tip)) && HashNextAt(m, s.hashNext, tip)
  }

  /** Moving the tip from p.pprev to p, or back, changes one link. */
  lemma {:induction false} LinkStep(m: Tree, hashNext: map<uint256, uint256>, from: CBlockIndex, to: CBlockIndex, p: CBlockIndex, next: uint256)
    requires TreeOk(m) && InTree(m, p) && p.pprev != null && Linked(from) && Linked(to)
    requires HashNextAt(m, hashNext, from)
    requires (from == p.pprev && to == p && next == p.hashBlock) || (from == p && to == p.pprev && next == 0)
    ensures HashNextAt(m, hashNext[p.pprev.hashBlock := next], to)
  {
    ParentInTree(m, p);
    forall h | h in m
      ensures NextRecorded(m, hashNext[p.pprev.hashBlock := next], to, h)
    {
      KeyInTree(m, h);
      NextStep(p, m[h]);
      assert NextRecorded(m, hashNext, from, h);
    }
  }

  lemma {:induction false} StoreBack(w: World, m: Tree, s: Store, p: CBlockIndex)
    requires TreeOk(m) && SettledAt(w, m, s, p) && p.pprev != null
    ensures DisconnectedStore(w, s, p).Some? && SettledAt(w, m, DisconnectedStore(w, s, p).value, p.pprev)
  {
    ParentInTree(m, p);
    ApprovedExtend(w, Path(p.pprev), p);
    IndexAtMeans(w.hashTx, s.tx, Path(p));
    DisconnectShrinks(w.hashTx, Path(p.pprev), p);
    IndexAtMeans(w.hashTx, DisconnectedStore(w, s, p).value.tx, Path(p.pprev));
    LinkStep(m, s.hashNext, p, p.pprev, p, 0);
  }

  /** c reads the given block files, and tells maturity by the path to p. */
  ghost predicate ReadsFrom(c: Context, w: World, files: Files, p: CBlockIndex) {
    && c.hashTx == w.hashTx && c.verifyScript == w.verifyScript && (forall h, pos :: pos != MemoryPos ==> c.fetch(h, pos) == ReadTx(files, pos))
    && Linked(p) && forall pos :: c.immature(pos) == Immature(p, pos)
  }

  lemma {:induction false} IndexForward(w: World, c: Context, files: Files, m: Tree, p: CBlockIndex)
    requires TreeOk(m) && AllStored(w, files, m) && AllTell(w.hashTx, m) && InTree(m, p) && p.pprev != null
    requires ReadsFrom(c, w, files, p) && SoundPath(w.hashTx, Path(p.pprev))
    ensures var r := ConnectedIndex(w, c, LedgerIndex(w.hashTx, LedgerOf(Path(p.pprev))), p);
            r.Some? ==> SoundPath(w.hashTx, Path(p)) && r.value == LedgerIndex(w.hashTx, LedgerOf(Path(p)))
  {
    PathIsStored(w, files, m, p);
    LedgerStored(c, files, Path(p));
    assert HashesTell(w.hashTx, m[p.hashBlock]);
    ConnectExtends(w, c, Path(p.pprev), p);
  }

  /** On a sound path ConnectBlock accepts exactly what the rules allow. */
  lemma {:induction false} ExactHere(w: World, c: Context, files: Files, m: Tree, p: CBlockIndex)
    requires TreeOk(m) && AllStored(w, files, m) && AllTell(w.hashTx, m) && InTree(m, p) && p.pprev != null
    requires ReadsFrom(c, w, files, p) && SoundPath(w.hashTx, Path(p.pprev))
    ensures ConnectedIndex(w, c, LedgerIndex(w.hashTx, LedgerOf(Path(p.pprev))), p).Some? <==> Approved(w, p)
  {
    PathIsStored(w, files, m, p);
    LedgerStored(c, files, Path(p));
    SoundLedger(w.hashTx, Path(p.pprev));
    assert HashesTell(w.hashTx, m[p.hashBlock]);
    ConnectExact(w, c, p);
  }

  lemma {:induction false} StoreForward(w: World, c: Context, files: Files, m: Tree, s: Store, p: CBlockIndex)
    requires TreeOk(m) && AllStored(w, files, m) && AllTell(w.hashTx, m) && InTree(m, p) && p.pprev != null
    requires ReadsFrom(c, w, files, p) && SettledAt(w, m, s, p.pprev)
    ensures var r := ConnectedStore(w, c, s, p); (r.Some? <==> Approved(w, p)) && (r.Some? ==> SettledAt(w, m, r.value, p))
  {
    IndexAtMeans(w.hashTx, s.tx, Path(p.pprev));
    IndexForward(w, c, files, m, p);
    ExactHere(w, c, files, m, p);
    var r := ConnectedStore(w, c, s, p);
    if r.Some? {
      ApprovedExtend(w, Path(p.pprev), p);
      IndexAtMeans(w.hashTx, r.value.tx, Path(p));
      LinkStep(m, s.hashNext, p.pprev, p, p, p.hashBlock);
    }
  }

  /** The requirements of ConnectBlock hold below any block of the tree. */
  lemma {:induction false} ReadyToConnect(w: World, c: Context, files: Files, m: Tree, s: Store, p: CBlockIndex)
    requires TreeOk(m) && AllStored(w, files, m) && InTree(m, p) && p.pprev != null
    requires ReadsFrom(c, w, files, p) && SettledAt(w, m, s, p.pprev)
    ensures FetchInRange(c, s.tx) && EntriesInRange(c, BlockEntries(p))
  {
    PathIsStored(w, files, m, p.pprev);
    LedgerStored(c, files, Path(p.pprev));
    assert NodeStored(w, files, m, p.hashBlock);
    BlockEntriesStored(c, files, p);
    SoundLedger(w.hashTx, Path(p.pprev));
    FetchInRangeOfLedger(c, LedgerOf(Path(p.pprev)));
    IndexAtMeans(w.hashTx, s.tx, Path(p.pprev));
  }

  /** Reading the block back from disk passes the checks. */
  ghost predicate Reloads(w: World, p: CBlockIndex) {
    w.checkDisk(p.block)
  }

  /** The best chain can be switched from tip to p, whose paths part above height h: all
      blocks down to there reload, and all blocks up from there reload and satisfy the
      rules. */
  ghost predicate SwitchableAt(w: World, tip: CBlockIndex, p: CBlockIndex, h: nat)
    requires Linked(tip) && Linked(p)
  {
    && h <= tip.nHeight && HighestCommon(Path(tip)[h], tip, p)
    && (forall k {:trigger Reloads(w, Path(tip)[k])} :: h < k <= tip.nHeight ==> Reloads(w, Path(tip)[k]))
    && (forall k {:trigger Approved(w, Path(p)[k])} :: h < k <= p.nHeight ==>
          Reloads(w, Path(p)[k]) && Approved(w, Path(p)[k]))
  }

  ghost predicate Switchable(w: World, tip: CBlockIndex, p: CBlockIndex)
    requires Linked(tip) && Linked(p)
  {
    exists h: nat :: SwitchableAt(w, tip, p, h)
  }

  /** A new block p can become the tip: it satisfies the rules when it hangs on the tip, and
      the chain can be switched to it when it does not.  This depends on the blocks alone,
      not on the state the node is in. */
  ghost predicate CanMove(w: World, tip: CBlockIndex, p: CBlockIndex) {
    Linked(tip) && Linked(p) &&
    if p.pprev == tip then Approved(w, p)
    else Switchable(w, tip, p)
  }

  lemma {:induction false} ForkHeight(tip: CBlockIndex, p: CBlockIndex, fork: CBlockIndex, h: nat)
    requires Linked(tip) && Linked(p) && HighestCommon(fork, tip, p)
    ensures fork.nHeight <= tip.nHeight && Path(tip)[fork.nHeight] == fork
    ensures h <= tip.nHeight && HighestCommon(Path(tip)[h], tip, p) ==> h == fork.nHeight
  {
    if h <= tip.nHeight {
      PathAt(tip, h);
      assert HighestCommon(Path(tip)[h], tip, p) ==> Meet(tip, p, h);
    }
    assert Meet(tip, p, fork.nHeight);
  }

  /** ConnectBlock may be called on a settled store.  It succeeds exactly if the block
      satisfies the rules, and then settles the store one block higher. */
  lemma {:induction false} ConnectSettles(w: World, files: Files, mapTransactions: map<uint256, CTransaction>,
                                          m: Tree, s: Store, p: CBlockIndex)
    requires TreeOk(m) && AllStored(w, files, m) && AllTell(w.hashTx, m)
    requires InTree(m, p) && p.pprev != null && SettledAt(w, m, s, p.pprev)
    ensures var c := ContextAt(w, files, mapTransactions, p);
            && Fits(c, w, files, mapTransactions, p)
            && FetchInRange(c, s.tx) && EntriesInRange(c, BlockEntries(p))
            && (ConnectedStore(w, c, s, p).Some? <==> Approved(w, p))
            && (ConnectedStore(w, c, s, p).Some? ==> SettledAt(w, m, ConnectedStore(w, c, s, p).value, p))
  {
    var c := ContextAt(w, files, mapTransactions, p);
    ContextFits(w, files, mapTransactions, p);
    ReadyToConnect(w, c, files, m, s, p);
    StoreForward(w, c, files, m, s, p);
  }

  /** A transaction that is there twice on the path to p, or twice in p, keeps p from
      connecting. */
  lemma {:induction false} RepeatDoesNotConnect(w: World, files: Files, mapTransactions: map<uint256, CTransaction>,
                                                m: Tree, s: Store, p: CBlockIndex, j: nat, k: nat)
    requires TreeOk(m) && AllStored(w, files, m) && AllTell(w.hashTx, m)
    requires InTree(m, p) && p.pprev != null && SettledAt(w, m, s, p.pprev)
    requires j < k < |LedgerOf(Path(p))| && LedgerOf(Path(p))[j].tx == LedgerOf(Path(p))[k].tx
    ensures !Approved(w, p)
  {
    var l := LedgerOf(Path(p));
    ConnectSettles(w, files, mapTransactions, m, s, p);
    assert HashOf(w.hashTx, l[j]) == HashOf(w.hashTx, l[k]);
    if Approved(w, p) {
      SoundLedger(w.hashTx, Path(p));
      ValidHashesDistinct(w.hashTx, l);
    }
  }

  /** Every entry of the ledger of a path that satisfies the rules is rightful. */
  lemma {:induction false} PathRightful(w: World, p: CBlockIndex)
    requires Linked(p) && AllApproved(w, Path(p)) && SoundPath(w.hashTx, Path(p))
    ensures AllRightful(w.hashTx, w.verifyScript, LedgerOf(Path(p)))
    decreases p.nHeight
  {
    if p.pprev == null {
      assert LedgerOf(Path(p)) == [];
    } else {
      SoundPrefix(w.hashTx, Path(p.pprev), p);
      ApprovedExtend(w, Path(p.pprev), p);
      PathRightful(w, p.pprev);
      assert Approved(w, Path(p)[p.nHeight]);
      BlockRightful(w, p);
    }
  }

  lemma {:induction false} BlockRightful(w: World, p: CBlockIndex)
    requires Approved(w, p) && SoundPath(w.hashTx, Path(p))
    requires AllRightful(w.hashTx, w.verifyScript, LedgerOf(Path(p.pprev)))
    ensures AllRightful(w.hashTx, w.verifyScript, LedgerOf(Path(p)))
  {
    var l := LedgerOf(Path(p.pprev));
    SoundLedger(w.hashTx, Path(p));
    LedgerExtend(Path(p.pprev), p);
    BlockInOrder(w, p, l);
    OrderRightful(w.hashTx, w.verifyScript, YoungAt(p), l, BlockEntries(p));
  }

  lemma {:induction false} BlockInOrder(w: World, p: CBlockIndex, l: seq<Entry>)
    requires Approved(w, p) && l == LedgerOf(Path(p.pprev))
    ensures InOrder(w.hashTx, w.verifyScript, YoungAt(p), l, BlockEntries(p), |BlockEntries(p)|)
  {
    assert BelowIs(p, l);
  }

  lemma {:induction false} SettledMature(f: TxHash, path: seq<CBlockIndex>)
    requires SoundPath(f, path)
    ensures forall j: nat, k: nat :: 1 <= j <= k < |path| && SpendsCoinbase(f, path[k], path[j]) ==> k - j >= COINBASE_MATURITY
  {
    forall j: nat, k: nat | 1 <= j <= k < |path| && SpendsCoinbase(f, path[k], path[j])
      ensures k - j >= COINBASE_MATURITY
    {
      SoundMature(f, path, k);
      TopMature(f, path[..k + 1], path[k], path[j], j);
    }
  }

  lemma {:induction false} SoundMature(f: TxHash, path: seq<CBlockIndex>, k: nat)
    requires SoundPath(f, path) && k < |path|
    ensures MatureTop(f, path[..k + 1])
  {
    assert SoundAt(f, path, k + 1);
  }

  lemma {:induction false} TopMature(f: TxHash, v: seq<CBlockIndex>, p: CBlockIndex, q: CBlockIndex, j: nat)
    requires MatureTop(f, v) && 1 <= j < |v| && v[|v| - 1] == p && v[j] == q && SpendsCoinbase(f, p, q)
    ensures |v| - 1 - j >= COINBASE_MATURITY
  {
  }

  ghost predicate CheckedAt(w: World, path: seq<CBlockIndex>, k: nat) {
    k < |path| && BlockChecked(w, path[k].block, k)
  }

  lemma {:induction false} ApprovedIsChecked(w: World, tip: CBlockIndex, k: nat)
    requires Linked(tip) && AllApproved(w, Path(tip)) && 1 <= k <= tip.nHeight
    ensures CheckedAt(w, Path(tip), k)
  {
    var p := Path(tip)[k];
    assert Approved(w, p);
    PathAt(tip, k);
    assert BelowIs(p, LedgerOf(Path(p.pprev)));
    BlockOkMeans(w, p.block, k);
  }

  /** idx holds exactly the transactions of l; a slot is non-null exactly when one transaction
      of l spends that output, and then holds its position. */
  ghost predicate SaysOf(f: TxHash, idx: Index, l: seq<Entry>) {
    && Covers(f, idx, l)
    && (forall k, n: uint32 :: 0 <= k < |l| && n < |l[k].tx.vout| ==>
          var slot := idx[HashOf(f, l[k])].vSpent[n];
          var p := COutPoint(HashOf(f, l[k]), n);
          && (!slot.IsNull() <==> exists k': nat, i: nat :: SpendsAt(l, k', i, p))
          && (forall k': nat, i: nat :: SpendsAt(l, k', i, p) ==> slot == l[k'].pos))
  }

  lemma {:induction false} LedgerSays(f: TxHash, l: seq<Entry>)
    requires ValidLedger(f, l)
    ensures SaysOf(f, LedgerIndex(f, l), l)
  {
    LedgerCovers(f, l);
    IndexMeaning(f, l);
  }

  /** The value of the unspent outputs is within the subsidies up to that height, so below the
      money limit. */
  ghost predicate WithinSubsidies(f: TxHash, idx: Index, l: seq<Entry>, nHeight: nat) {
    Indexed(f, idx, l) && UnspentValue(f, idx, l) <= TotalSubsidy(nHeight) <= 20999856 * COIN < MAX_MONEY
  }

  lemma {:induction false} PathMoney(f: TxHash, path: seq<CBlockIndex>, l: seq<Entry>)
    requires SoundPath(f, path) && path != [] && l == LedgerOf(path)
    ensures ValidLedger(f, l) && WithinSubsidies(f, LedgerIndex(f, l), l, |path| - 1)
  {
    SoundLedger(f, path);
    Bounded(f, LedgerIndex(f, l), l, |path| - 1);
  }

  lemma {:induction false} Bounded(f: TxHash, idx: Index, l: seq<Entry>, nHeight: nat)
    requires Indexed(f, idx, l) && UnspentValue(f, idx, l) <= TotalSubsidy(nHeight)
    ensures WithinSubsidies(f, idx, l, nHeight)
  {
    TotalSubsidyBound(nHeight);
  }

  /** A coinbase below p's block is too young for it exactly if it is fewer than
      COINBASE_MATURITY blocks down: a position in the files belongs to one block only. */
  lemma {:induction false} YoungExact(w: World, files: Files, m: Tree, p: CBlockIndex, j: nat, b: nat)
    requires TreeOk(m) && AllStored(w, files, m) && InTree(m, p) && j <= p.nHeight && b < |Path(p)[j].block.vtx|
    ensures YoungAt(p)(BlockEntries(Path(p)[j])[b].pos) <==> p.nHeight - j < COINBASE_MATURITY
  {
    var pos := BlockEntries(Path(p)[j])[b].pos;
    if Immature(p, pos) {
      var k: nat :| k <= p.nHeight && p.nHeight - k < COINBASE_MATURITY && PositionOf(Path(p)[k], pos);
      OnePlace(w, files, m, p, j, k);
    }
  }

  lemma {:induction false} OnePlace(w: World, files: Files, m: Tree, p: CBlockIndex, j: nat, k: nat)
    requires TreeOk(m) && AllStored(w, files, m) && InTree(m, p) && j <= p.nHeight && k <= p.nHeight
    requires Path(p)[j].nFile == Path(p)[k].nFile && Path(p)[j].nBlockPos == Path(p)[k].nBlockPos
    ensures j == k
  {
    var q, r := Path(p)[j], Path(p)[k];
    PathInTree(m, p, j);
    PathInTree(m, p, k);
    assert NodeStored(w, files, m, q.hashBlock) && NodeStored(w, files, m, r.hashBlock);
    StoredReads(files, q.nFile, q.nBlockPos, q.block);
    StoredReads(files, r.nFile, r.nBlockPos, r.block);
    PathAt(p, j);
    PathAt(p, k);
  }

  ghost predicate AllChecked(w: World, path: seq<CBlockIndex>) {
    forall k: nat {:trigger CheckedAt(w, path, k)} :: 1 <= k < |path| ==> CheckedAt(w, path, k)
  }

  lemma {:induction false} PathChecked(w: World, tip: CBlockIndex)
    requires Linked(tip) && AllApproved(w, Path(tip))
    ensures AllChecked(w, Path(tip))
  {
    forall k: nat | 1 <= k <= tip.nHeight
      ensures CheckedAt(w, Path(tip), k)
    {
      ApprovedIsChecked(w, tip, k);
    }
  }

  /** What a settled store says, without reference to how it was computed.  It
      holds exactly the transactions of the blocks above the root on the path to
      the tip; a slot is non-null exactly when one transaction on the path spends
      that output, and then holds its position; the value of the unspent outputs
      is within the subsidies for heights 1 to the tip, so below the money limit;
      no block spends a coinbase less than COINBASE_MATURITY below it; every input on the
      path satisfies the script of the output that the ledger says it names; no
      transaction but a coinbase takes out more than it brings in; every block satisfies
      the rules, and with them the checks of its own bytes. */
  lemma {:induction false} SettledMeaning(w: World, m: Tree, s: Store, tip: CBlockIndex)
    requires SettledAt(w, m, s, tip)
    ensures ValidLedger(w.hashTx, LedgerOf(Path(tip))) && SaysOf(w.hashTx, s.tx, LedgerOf(Path(tip)))
    ensures WithinSubsidies(w.hashTx, s.tx, LedgerOf(Path(tip)), tip.nHeight)
    ensures forall j: nat, k: nat :: 1 <= j <= k <= tip.nHeight && SpendsCoinbase(w.hashTx, Path(tip)[k], Path(tip)[j]) ==>
              k - j >= COINBASE_MATURITY
    ensures AllRightful(w.hashTx, w.verifyScript, LedgerOf(Path(tip)))
    ensures AllApproved(w, Path(tip)) && AllChecked(w, Path(tip))
  {
    SettledMature(w.hashTx, Path(tip));
    IndexAtMeans(w.hashTx, s.tx, Path(tip));
    PathMoney(w.hashTx, Path(tip), LedgerOf(Path(tip)));
    LedgerSays(w.hashTx, LedgerOf(Path(tip)));
    PathRightful(w, tip);
    PathChecked(w, tip);
  }

  // ----- one more block in the tree -----

  /** p is a new block hanging on the tree m. */
  ghost predicate Attachable(w: World, written: set<FileRecord>, m: Tree, p: CBlockIndex) {
    && p.hashBlock !in m && w.hashBlock(p.block) == p.hashBlock && FileRecord(p.nFile, p.nBlockPos, p.block) in written && SumsUp(p)
    && (p.pprev == null ==> p.nHeight == 0)
    && (p.pprev != null ==> InTree(m, p.pprev) && p.nHeight == p.pprev.nHeight + 1 && p.pprev.bnChainWork <= p.bnChainWork)
  }

  lemma {:induction false} AttachTree(w: World, files: Files, written: set<FileRecord>, m: Tree, p: CBlockIndex)
    requires TreeOk(m) && AllStored(w, files, m) && RecordsStored(files, written) && Attachable(w, written, m, p)
    ensures TreeOk(m[p.hashBlock := p]) && AllStored(w, files, m[p.hashBlock := p])
    ensures InTree(m[p.hashBlock := p], p)
  {
    var m' := m[p.hashBlock := p];
    forall h | h in m'
      ensures NodeOk(m', h) && NodeStored(w, files, m', h)
    {
      if h != p.hashBlock {
        assert NodeOk(m, h) && NodeStored(w, files, m, h);
      } else {
        assert RecordStored(files, FileRecord(p.nFile, p.nBlockPos, p.block));
      }
    }
  }

  /** Two transactions of b with the same hash are the same. */
  ghost predicate BlockTells(f: TxHash, b: CBlock) {
    forall i, j {:trigger f(b.vtx[i]), f(b.vtx[j])} ::
      0 <= i < j < |b.vtx| && f(b.vtx[i]) == f(b.vtx[j]) ==> b.vtx[i] == b.vtx[j]
  }

  /** A transaction of b with the hash of one of the ledger is that one, and not b's
      coinbase. */
  ghost predicate TellsAbove(f: TxHash, l: seq<Entry>, b: CBlock) {
    forall k, i {:trigger HashOf(f, l[k]), f(b.vtx[i])} ::
      0 <= k < |l| && 0 <= i < |b.vtx| && HashOf(f, l[k]) == f(b.vtx[i]) ==> l[k].tx == b.vtx[i] && i != 0
  }

  lemma {:induction false} AttachSums(m: Tree, p: CBlockIndex)
    requires AllSumUp(m) && SumsUp(p)
    ensures AllSumUp(m[p.hashBlock := p])
  {
    var m' := m[p.hashBlock := p];
    forall h | h in m'
      ensures SumsUp(m'[h])
    {
      assert h != p.hashBlock ==> SumsUp(m[h]);
    }
  }

  lemma {:induction false} AttachTells(f: TxHash, m: Tree, p: CBlockIndex)
    requires AllTell(f, m) && Linked(p) && (p.pprev != null ==> InTree(m, p.pprev))
    requires p.pprev != null ==> BlockTells(f, p.block) && TellsAbove(f, LedgerOf(Path(p.pprev)), p.block)
    ensures AllTell(f, m[p.hashBlock := p])
  {
    if p.pprev != null {
      assert HashesTell(f, m[p.pprev.hashBlock]);
      LedgerExtend(Path(p.pprev), p);
      CollisionFreeAppend(f, LedgerOf(Path(p.pprev)), p);
    }
    var m' := m[p.hashBlock := p];
    forall h | h in m'
      ensures HashesTell(f, m'[h])
    {
      assert h != p.hashBlock ==> HashesTell(f, m[h]);
    }
  }

  lemma {:induction false} CollisionFreeAppend(f: TxHash, l: seq<Entry>, p: CBlockIndex)
    requires NoCollisions(f, l) && BlockTells(f, p.block) && TellsAbove(f, l, p.block)
    ensures NoCollisions(f, l + BlockEntries(p)) && NewCoinBase(f, l, p.block)
  {
    var es := BlockEntries(p);
    forall i, j | 0 <= i < j < |l + es| && HashOf(f, (l + es)[i]) == HashOf(f, (l + es)[j])
      ensures (l + es)[i].tx == (l + es)[j].tx
    {
      if j < |l| {
        assert HashOf(f, l[i]) == HashOf(f, l[j]);
      } else if i < |l| {
        assert HashOf(f, l[i]) == f(p.block.vtx[j - |l|]);
      } else {
        assert f(p.block.vtx[i - |l|]) == f(p.block.vtx[j - |l|]);
      }
    }
    forall k | 0 <= k < |l| && p.block.vtx != []
      ensures HashOf(f, l[k]) != f(p.block.vtx[0])
    {
    }
  }

  lemma {:induction false} NotOnOldPath(m: Tree, tip: CBlockIndex, p: CBlockIndex)
    requires TreeOk(m) && InTree(m, tip) && p.hashBlock !in m
    ensures NextOnPath(tip, p) == null
  {
    if IsAncestor(p, tip) {
      PathInTree(m, tip, p.nHeight);
    }
  }

  /** A new leaf leaves a settled store settled. */
  lemma {:induction false} AttachSettled(w: World, m: Tree, s: Store, tip: CBlockIndex, p: CBlockIndex)
    requires TreeOk(m) && SettledAt(w, m, s, tip) && p.hashBlock !in m
    ensures SettledAt(w, m[p.hashBlock := p], s.(hashNext := s.hashNext[p.hashBlock := 0]), tip)
  {
    var m', next := m[p.hashBlock := p], s.hashNext[p.hashBlock := 0];
    NotOnOldPath(m, tip, p);
    forall h | h in m'
      ensures NextRecorded(m', next, tip, h)
    {
      if h != p.hashBlock {
        assert NextRecorded(m, s.hashNext, tip, h);
      }
    }
  }

  lemma {:induction false} AttachLinks(m: Tree, tip: CBlockIndex, p: CBlockIndex)
    requires TreeOk(m) && InTree(m, tip) && p.hashBlock !in m && p.pnext == null
    requires LinksAt(m, tip)
    ensures LinksAt(m[p.hashBlock := p], tip)
  {
    var m' := m[p.hashBlock := p];
    NotOnOldPath(m, tip, p);
    forall h | h in m'
      ensures LinkIs(m', tip, h)
    {
      if h != p.hashBlock {
        assert LinkIs(m, tip, h);
      }
    }
  }

  // ----- growing files -----

  lemma {:induction false} RecordsStay(files: Files, files': Files, written: set<FileRecord>)
    requires RecordsStored(files, written) && Extends(files, files')
    ensures RecordsStored(files', written)
  {
    forall r | r in written
      ensures RecordStored(files', r)
    {
      assert RecordStored(files, r);
      StoredStays(files, files', r.nFile, r.nBlockPos, r.b);
    }
  }

  lemma {:induction false} NodesStay(w: World, files: Files, files': Files, m: Tree)
    requires AllStored(w, files, m) && Extends(files, files')
    ensures AllStored(w, files', m)
  {
    forall h | h in m
      ensures NodeStored(w, files', m, h)
    {
      assert NodeStored(w, files, m, h);
      StoredStays(files, files', m[h].nFile, m[h].nBlockPos, m[h].block);
    }
  }

  lemma {:induction false} RecordAdded(files: Files, written: set<FileRecord>, r: FileRecord)
    requires RecordsStored(files, written) && RecordStored(files, r)
    ensures RecordsStored(files, written + {r})
  {
    forall q | q in written + {r}
      ensures RecordStored(files, q)
    {
      if q in written {
        assert RecordStored(files, q);
      }
    }
  }

  /** b appended to file nFile, after the bytes front that extend what was there. */
  lemma {:induction false} BlockAppended(w: World, files: Files, m: Tree, written: set<FileRecord>,
                                         nFile: nat, front: seq<byte>, b: CBlock)
    requires AllStored(w, files, m) && RecordsStored(files, written)
    requires nFile < UINT_MAX && 8 <= |front| < 0x7F00_0000 && (nFile in files ==> files[nFile] <= front)
    requires Canonical(b) && SizeBlock(b, false) <= MAX_BLOCK_SIZE && forall i :: 0 <= i < |b.vtx| ==> TxOk(b.vtx[i])
    ensures var files' := files[nFile := front + SerializeBlock(b, false)];
            && Extends(files, files') && AllStored(w, files', m)
            && RecordsStored(files', written + {FileRecord(nFile, |front|, b)})
            && ReadsAs(files', nFile, |front|, b)
  {
    var files' := files[nFile := front + SerializeBlock(b, false)];
    WrittenIsStored(files', nFile, front, b);
    StoredReads(files', nFile, |front|, b);
    assert RecordStored(files', FileRecord(nFile, |front|, b));
    NodesStay(w, files, files', m);
    RecordsStay(files, files', written);
    RecordAdded(files', written, FileRecord(nFile, |front|, b));
  }
}
