/** The globals of src/main.cpp that make up the chain, and the methods that
    change them.  Every method keeps Valid, whether it succeeds or is rolled
    back. */
module Globals {
  import opened Basics
  import opened Serialize
  import opened TxIndex
  import opened Ledger
  import opened Supply
  import opened BlockIndex
  import opened TxDb
  import opened Connect
  import opened Chain
  import opened ChainState
  import Bignum

  /** Walking v from its start and then fork: the k-th block. */
  function At(v: seq<CBlockIndex>, fork: CBlockIndex, k: nat): CBlockIndex {
    if k < |v| then v[k] else fork
  }

  /** v lists the blocks from tip down to, but not including, fork. */
  ghost predicate Descends(v: seq<CBlockIndex>, tip: CBlockIndex, fork: CBlockIndex) {
    At(v, fork, 0) == tip && forall k {:trigger At(v, fork, k)} :: 1 <= k <= |v| ==> v[k - 1].pprev == At(v, fork, k)
  }

  /** Walking v up from fork: the block below v[k]. */
  function Under(v: seq<CBlockIndex>, fork: CBlockIndex, k: nat): CBlockIndex
    requires k <= |v|
  {
    if k == 0 then fork else v[k - 1]
  }

  /** v lists the blocks above fork up to tip. */
  ghost predicate Climbs(v: seq<CBlockIndex>, fork: CBlockIndex, tip: CBlockIndex) {
    Under(v, fork, |v|) == tip && forall k {:trigger Under(v, fork, k)} :: 0 <= k < |v| ==> v[k].pprev == Under(v, fork, k)
  }

  function FileSize(files: Files, n: nat): nat {
    if n in files then |files[n]| else 0
  }

  /** What WriteToDisk leaves in the file before the block: what was there, the message
      start and the size. */
  ghost predicate FrontIs(files: Files, nFile: nat, pchMessageStart: seq<byte>, b: CBlock, front: seq<byte>) {
    front == (if nFile in files then files[nFile] else []) + pchMessageStart + LE(SizeBlock(b, false), 4)
  }

  ghost predicate Appended(files: Files, files': Files, nFile: nat, nBlockPos: nat, pchMessageStart: seq<byte>, b: CBlock) {
    forall front {:trigger FrontIs(files, nFile, pchMessageStart, b, front)} :: FrontIs(files, nFile, pchMessageStart, b, front) ==>
      nBlockPos == |front| && files' == files[nFile := front + SerializeBlock(b, false)]
  }

  lemma {:induction false} ReversedClimbs(v: seq<CBlockIndex>, u: seq<CBlockIndex>, tip: CBlockIndex, fork: CBlockIndex)
    requires Descends(v, tip, fork)
    requires |u| == |v| && forall k :: 0 <= k < |v| ==> u[k] == v[|v| - 1 - k]
    ensures Climbs(u, fork, tip)
  {
    forall k | 0 <= k < |u|
      ensures u[k].pprev == Under(u, fork, k)
    {
      assert u[k] == v[|v| - 1 - k] && u[k].pprev == At(v, fork, |v| - k);
    }
  }

  ghost predicate AllInTree(m: Tree, v: seq<CBlockIndex>) {
    forall k {:trigger InTree(m, v[k])} :: 0 <= k < |v| ==> InTree(m, v[k])
  }

  ghost predicate AllReload(w: World, v: seq<CBlockIndex>) {
    forall k {:trigger Reloads(w, v[k])} :: 0 <= k < |v| ==> Reloads(w, v[k])
  }

  /** g holds of the first n items of v. */
  ghost predicate HoldTo<T>(g: T -> bool, v: seq<T>, n: nat) {
    n <= |v| && forall k :: 0 <= k < n ==> g(v[k])
  }

  ghost predicate AllHold<T>(g: T -> bool, v: seq<T>) {
    HoldTo(g, v, |v|)
  }

  lemma {:induction false} HoldStep<T>(g: T -> bool, v: seq<T>, i: nat)
    requires i < |v| && HoldTo(g, v, i) && g(v[i])
    ensures HoldTo(g, v, i + 1)
  {
  }

  /** The block reloads and satisfies the rules. */
  ghost function Good(w: World): CBlockIndex -> bool {
    (p: CBlockIndex) => Reloads(w, p) && Approved(w, p)
  }

  ghost predicate AllGood(w: World, v: seq<CBlockIndex>) {
    AllHold(Good(w), v)
  }

  lemma {:induction false} NoFork(w: World, tip: CBlockIndex, p: CBlockIndex)
    requires Linked(tip) && Linked(p) && forall k: nat :: !Meet(tip, p, k)
    ensures !Switchable(w, tip, p)
  {
    forall h: nat
      ensures !SwitchableAt(w, tip, p, h)
    {
      if h <= tip.nHeight {
        PathAt(tip, h);
        assert !Meet(tip, p, h);
      }
    }
  }

  /** The two lists Reorganize makes are the two branches above the fork. */
  lemma {:induction false} ListsAreBranches(w: World, tip: CBlockIndex, p: CBlockIndex, fork: CBlockIndex, down: seq<CBlockIndex>, up: seq<CBlockIndex>)
    requires Linked(tip) && Linked(p) && HighestCommon(fork, tip, p)
    requires |down| == tip.nHeight - fork.nHeight && forall k :: 0 <= k < |down| ==> down[k] == Path(tip)[tip.nHeight - k]
    requires |up| == p.nHeight - fork.nHeight && forall k :: 0 <= k < |up| ==> up[k] == Path(p)[fork.nHeight + 1 + k]
    ensures AllReload(w, down) && AllGood(w, up)
       <==> Switchable(w, tip, p)
  {
    if AllReload(w, down) && AllGood(w, up) {
      forall k | fork.nHeight < k <= tip.nHeight
        ensures Reloads(w, Path(tip)[k])
      {
        assert Reloads(w, down[tip.nHeight - k]);
      }
      forall k | fork.nHeight < k <= p.nHeight
        ensures Reloads(w, Path(p)[k]) && Approved(w, Path(p)[k])
      {
        assert Good(w)(up[k - fork.nHeight - 1]);
      }
      ForkHeight(tip, p, fork, fork.nHeight);
      assert SwitchableAt(w, tip, p, fork.nHeight);
    }
    if Switchable(w, tip, p) {
      var h: nat :| SwitchableAt(w, tip, p, h);
      ForkHeight(tip, p, fork, h);
      forall k | 0 <= k < |down|
        ensures Reloads(w, down[k])
      {
        assert Reloads(w, Path(tip)[tip.nHeight - k]);
      }
      forall k | 0 <= k < |up|
        ensures Good(w)(up[k])
      {
        assert Approved(w, Path(p)[fork.nHeight + 1 + k]);
      }
    }
  }

  lemma {:induction false} LinksStep(from: CBlockIndex, to: CBlockIndex, p: CBlockIndex, q: CBlockIndex)
    requires Linked(p) && p.pprev != null
    requires (from == p.pprev && to == p) || (from == p && to == p.pprev)
    ensures q != p.pprev ==> NextOnPath(to, q) == NextOnPath(from, q)
    ensures q == p.pprev ==> NextOnPath(to, q) == if to == p then p else null
  {
    NextStep(p, q);
  }

  lemma {:induction false} BestHashIrrelevant(w: World, m: Tree, s: Store, p: CBlockIndex, hash: uint256)
    requires SettledAt(w, m, s, p)
    ensures SettledAt(w, m, s.(hashBestChain := hash), p)
  {
  }

  lemma {:induction false} SameRoot(a: CBlockIndex, p: CBlockIndex, q: CBlockIndex)
    requires Linked(p) && Linked(q) && CommonAncestor(a, p, q)
    ensures Path(p)[0] == Path(q)[0]
  {
    PathAt(p, a.nHeight);
    PathAt(q, a.nHeight);
    assert Path(p)[..a.nHeight + 1][0] == Path(q)[..a.nHeight + 1][0];
  }

  lemma {:induction false} FirstSettles(w: World, m: Tree, s: Store, p: CBlockIndex)
    requires TreeOk(m) && p.pprev == null && InTree(m, p) && m == map[p.hashBlock := p]
    requires s.tx == map[] && p.hashBlock in s.hashNext && s.hashNext[p.hashBlock] == 0
    ensures Path(p) == [p] && SettledAt(w, m, s.(hashBestChain := p.hashBlock), p)
  {
    LedgerCovers(w.hashTx, []);
    IndexAtMeans(w.hashTx, s.tx, [p]);
    assert LedgerOf([p]) == [];
    forall k | 1 <= k <= 1
      ensures SoundAt(w.hashTx, [p], k)
    {
      assert LedgerOf([p][..k]) == [];
    }
  }

  class CMain {
    const w: World
    const hashGenesisBlock: uint256
    const txdb: CTxDB
    var files: Files
    ghost var written: set<FileRecord>  // every block WriteToDisk has written
    var nCurrentBlockFile: nat
    var mapTransactions: map<uint256, CTransaction>
    var mapBlockIndex: Tree
    var pindexGenesisBlock: CBlockIndex?
    var pindexBest: CBlockIndex?
    var hashBestChain: uint256
    var bnBestChainWork: nat
    var nBestHeight: int

    constructor (world: World, genesis: uint256)
      ensures Valid() && w == world && hashGenesisBlock == genesis
      ensures fresh(txdb) && mapBlockIndex == map[] && files == map[]
    {
      w, hashGenesisBlock := world, genesis;
      txdb := new CTxDB();
      files, written, nCurrentBlockFile, mapTransactions, mapBlockIndex := map[], {}, 1, map[], map[];
      pindexGenesisBlock, pindexBest, hashBestChain, bnBestChainWork, nBestHeight := null, null, 0, 0, -1;
    }

    /** The block tree is well formed and stored, hashes tell transactions apart along
        every path, and the work recorded adds up. */
    ghost predicate Tree()
      reads this
    {
      && TreeOk(mapBlockIndex) && AllStored(w, files, mapBlockIndex) && AllTell(w.hashTx, mapBlockIndex)
      && RecordsStored(files, written) && AllSumUp(mapBlockIndex)
    }

    /** The committed store holds exactly the transactions of the path to tip, and
        pnext links exactly that path. */
    ghost predicate StoreIs(tip: CBlockIndex)
      reads this, txdb, mapBlockIndex.Values
    {
      && SettledAt(w, mapBlockIndex, txdb.committed, tip) && LinksAt(mapBlockIndex, tip)
      && txdb.committed.hashBestChain == tip.hashBlock
    }

    /** tip is the best block, and the cached values are its own. */
    ghost predicate BestIs(tip: CBlockIndex)
      reads this, txdb, mapBlockIndex.Values
    {
      && StoreIs(tip)
      && hashBestChain == tip.hashBlock && bnBestChainWork == tip.bnChainWork && nBestHeight == tip.nHeight
      && pindexGenesisBlock == Path(tip)[0] && pindexGenesisBlock.hashBlock == hashGenesisBlock
    }

    ghost predicate Empty()
      reads this, txdb
    {
      && mapBlockIndex == map[] && pindexGenesisBlock == null && bnBestChainWork == 0
      && txdb.committed.tx == map[]
    }

    ghost predicate Valid()
      reads this, txdb, mapBlockIndex.Values
    {
      && Tree() && txdb.vTxn == []
      && (if pindexBest == null then Empty() else BestIs(pindexBest))
    }

    /** CBlockIndex::IsInMainChain */
    method IsInMainChain(p: CBlockIndex) returns (r: bool)
      requires pindexBest != null && Linked(pindexBest) && LinksAt(mapBlockIndex, pindexBest)
      requires InTree(mapBlockIndex, p)
      ensures r <==> IsAncestor(p, pindexBest)
    {
      assert LinkIs(mapBlockIndex, pindexBest, p.hashBlock);
      return p.pnext != null || p == pindexBest;
    }

    /** CBlock::ReadFromDisk: fails on an unreadable block, a bad header or a hash
        mismatch; otherwise it is the block that was indexed. */
    method ReadFromDisk(pindex: CBlockIndex) returns (b: Option<CBlock>)
      requires AllStored(w, files, mapBlockIndex) && InTree(mapBlockIndex, pindex)
      ensures b == if Reloads(w, pindex) then Some(pindex.block) else None
    {
      assert NodeStored(w, files, mapBlockIndex, pindex.hashBlock);
      StoredReads(files, pindex.nFile, pindex.nBlockPos, pindex.block);
      b := ReadBlock(files, pindex.nFile, pindex.nBlockPos);
      if b.None? || !w.checkDisk(b.value) || w.hashBlock(b.value) != pindex.hashBlock {
        return None;
      }
    }

    /** The blocks from tip down to the fork. */
    method Branch(tip: CBlockIndex, fork: CBlockIndex) returns (v: seq<CBlockIndex>)
      requires TreeOk(mapBlockIndex) && InTree(mapBlockIndex, tip) && IsAncestor(fork, tip)
      ensures Descends(v, tip, fork) && AllInTree(mapBlockIndex, v)
      ensures |v| == tip.nHeight - fork.nHeight && forall k :: 0 <= k < |v| ==> v[k] == Path(tip)[tip.nHeight - k]
    {
      v := [];
      var pindex: CBlockIndex := tip;
      while pindex != fork
        invariant InTree(mapBlockIndex, pindex) && IsAncestor(fork, pindex) && IsAncestor(pindex, tip)
        invariant |v| == tip.nHeight - pindex.nHeight && forall k :: 0 <= k < |v| ==> v[k] == Path(tip)[tip.nHeight - k]
        invariant AllInTree(mapBlockIndex, v)
        invariant At(v, pindex, 0) == tip
        invariant forall k {:trigger At(v, pindex, k)} :: 1 <= k <= |v| ==> v[k - 1].pprev == At(v, pindex, k)
        decreases pindex.nHeight
      {
        ghost var u := v;
        v := v + [pindex];
        assert forall k :: 0 <= k <= |u| ==> At(v, pindex.pprev, k) == At(u, pindex, k);
        AncestorStep(fork, pindex);
        ParentInTree(mapBlockIndex, pindex);
        AncestorTransitive(pindex.pprev, pindex, tip);
        pindex := pindex.pprev;
      }
    }

    /** A transaction is open and nothing below it has changed. */
    twostate predicate InTxn()
      reads txdb
    {
      |txdb.vTxn| == 1 && txdb.committed == old(txdb.committed)
    }

    method DisconnectOne(pindex: CBlockIndex) returns (ok: bool)
      requires Tree() && |txdb.vTxn| == 1
      requires SettledAt(w, mapBlockIndex, txdb.Current(), pindex) && pindex.pprev != null
      modifies txdb
      ensures InTxn() && ok == Reloads(w, pindex)
      ensures ok ==> SettledAt(w, mapBlockIndex, txdb.Current(), pindex.pprev)
    {
      var block := ReadFromDisk(pindex);
      if block.None? {
        return false;
      }
      ParentInTree(mapBlockIndex, pindex);
      StoreBack(w, mapBlockIndex, txdb.Current(), pindex);
      ok := DisconnectBlock(w, txdb, block.value, pindex);
    }

    /** Reorganize's loop over vDisconnect. */
    method DisconnectBranch(vDisconnect: seq<CBlockIndex>, ghost tip: CBlockIndex, ghost fork: CBlockIndex) returns (ok: bool)
      requires Tree() && |txdb.vTxn| == 1
      requires Descends(vDisconnect, tip, fork) && SettledAt(w, mapBlockIndex, txdb.Current(), tip)
      modifies txdb
      ensures InTxn() && ok == AllReload(w, vDisconnect)
      ensures ok ==> SettledAt(w, mapBlockIndex, txdb.Current(), fork)
    {
      var i := 0;
      while i < |vDisconnect|
        invariant i <= |vDisconnect| && InTxn()
        invariant forall k {:trigger Reloads(w, vDisconnect[k])} :: 0 <= k < i ==> Reloads(w, vDisconnect[k])
        invariant SettledAt(w, mapBlockIndex, txdb.Current(), At(vDisconnect, fork, i))
      {
        assert vDisconnect[i].pprev == At(vDisconnect, fork, i + 1);
        ok := DisconnectOne(vDisconnect[i]);
        if !ok {
          return false;
        }
        i := i + 1;
      }
      return true;
    }

    /** One turn of Reorganize's loop over vConnect.  It aborts the transaction
        itself when the block is rejected. */
    method ConnectNext(vConnect: seq<CBlockIndex>, i: nat, ghost fork: CBlockIndex, ghost tip: CBlockIndex,
                       ghost good: CBlockIndex -> bool) returns (ok: bool)
      requires Tree() && |txdb.vTxn| == 1 && good == Good(w)
      requires i < |vConnect| && Climbs(vConnect, fork, tip) && InTree(mapBlockIndex, vConnect[i])
      requires SettledAt(w, mapBlockIndex, txdb.Current(), Under(vConnect, fork, i))
      modifies txdb
      ensures txdb.committed == old(txdb.committed) && |txdb.vTxn| <= 1
      ensures ok == good(vConnect[i])
      ensures ok ==> |txdb.vTxn| == 1 && SettledAt(w, mapBlockIndex, txdb.Current(), Under(vConnect, fork, i + 1))
    {
      var pindex := vConnect[i];
      assert pindex.pprev == Under(vConnect, fork, i);
      var block := ReadFromDisk(pindex);
      if block.None? {
        return false;
      }
      ok := ConnectAbove(pindex, block.value);
      if !ok {
        // Reorganize aborts here, and its caller tries to once more without effect.
        var _ := txdb.TxnAbort();
      }
    }

    method ConnectAbove(pindex: CBlockIndex, b: CBlock) returns (ok: bool)
      requires Tree() && |txdb.vTxn| == 1
      requires InTree(mapBlockIndex, pindex) && pindex.pprev != null && b == pindex.block
      requires SettledAt(w, mapBlockIndex, txdb.Current(), pindex.pprev)
      modifies txdb
      ensures InTxn() && ok == Approved(w, pindex)
      ensures ok ==> SettledAt(w, mapBlockIndex, txdb.Current(), pindex)
    {
        ConnectSettles(w, files, mapTransactions, mapBlockIndex, txdb.Current(), pindex);
      ghost var c := ContextAt(w, files, mapTransactions, pindex);
      ok := ConnectBlock(w, c, files, mapTransactions, txdb, b, pindex);
    }

    /** Reorganize's loop over vConnect. */
    method ConnectBranch(vConnect: seq<CBlockIndex>, ghost fork: CBlockIndex, ghost tip: CBlockIndex, ghost good: CBlockIndex -> bool)
      returns (ok: bool, ghost bad: nat)
      requires Tree() && |txdb.vTxn| == 1 && good == Good(w)
      requires Climbs(vConnect, fork, tip) && AllInTree(mapBlockIndex, vConnect)
      requires SettledAt(w, mapBlockIndex, txdb.Current(), fork)
      modifies txdb
      ensures txdb.committed == old(txdb.committed) && |txdb.vTxn| <= 1
      ensures ok ==> AllHold(good, vConnect)
      ensures !ok ==> bad < |vConnect| && !good(vConnect[bad])
      ensures ok ==> |txdb.vTxn| == 1 && SettledAt(w, mapBlockIndex, txdb.Current(), tip)
    {
      var i := 0;
      while i < |vConnect|
        invariant i <= |vConnect| && InTxn()
        invariant HoldTo(good, vConnect, i)
        invariant SettledAt(w, mapBlockIndex, txdb.Current(), Under(vConnect, fork, i))
      {
        ok := ConnectNext(vConnect, i, fork, tip, good);
        if !ok {
          bad := i;
          return false, bad;
        }
        HoldStep(good, vConnect, i);
        i := i + 1;
      }
      return true, 0;
    }

    method UnlinkOne(pindex: CBlockIndex)
      requires TreeOk(mapBlockIndex) && InTree(mapBlockIndex, pindex) && LinksAt(mapBlockIndex, pindex)
      modifies mapBlockIndex.Values`pnext
      ensures pindex.pprev != null ==> LinksAt(mapBlockIndex, pindex.pprev)
    {
      if pindex.pprev != null {
        ParentInTree(mapBlockIndex, pindex);
        pindex.pprev.pnext := null;
        forall h | h in mapBlockIndex
          ensures LinkIs(mapBlockIndex, pindex.pprev, h)
        {
          KeyInTree(mapBlockIndex, h);
          assert old(LinkIs(mapBlockIndex, pindex, h));
          LinksStep(pindex, pindex.pprev, pindex, mapBlockIndex[h]);
        }
      }
    }

    method LinkOne(pindex: CBlockIndex)
      requires TreeOk(mapBlockIndex) && InTree(mapBlockIndex, pindex)
      requires pindex.pprev != null ==> LinksAt(mapBlockIndex, pindex.pprev)
      modifies mapBlockIndex.Values`pnext
      ensures pindex.pprev != null ==> LinksAt(mapBlockIndex, pindex)
    {
      if pindex.pprev != null {
        ParentInTree(mapBlockIndex, pindex);
        pindex.pprev.pnext := pindex;
        forall h | h in mapBlockIndex
          ensures LinkIs(mapBlockIndex, pindex, h)
        {
          KeyInTree(mapBlockIndex, h);
          assert old(LinkIs(mapBlockIndex, pindex.pprev, h));
          LinksStep(pindex.pprev, pindex, pindex, mapBlockIndex[h]);
        }
      }
    }

    /** Reorganize's loop that clears pnext along the old branch. */
    method UnlinkBranch(vDisconnect: seq<CBlockIndex>, ghost tip: CBlockIndex, ghost fork: CBlockIndex)
      requires TreeOk(mapBlockIndex) && Linked(tip) && LinksAt(mapBlockIndex, tip)
      requires Descends(vDisconnect, tip, fork) && AllInTree(mapBlockIndex, vDisconnect)
      modifies mapBlockIndex.Values`pnext
      ensures Linked(fork) && LinksAt(mapBlockIndex, fork)
    {
      for i := 0 to |vDisconnect|
        invariant Linked(At(vDisconnect, fork, i)) && LinksAt(mapBlockIndex, At(vDisconnect, fork, i))
      {
        UnlinkOne(vDisconnect[i]);
      }
    }

    /** Reorganize's loop that sets pnext along the new branch. */
    method LinkBranch(vConnect: seq<CBlockIndex>, ghost fork: CBlockIndex, ghost tip: CBlockIndex)
      requires TreeOk(mapBlockIndex) && Linked(fork) && LinksAt(mapBlockIndex, fork)
      requires Climbs(vConnect, fork, tip) && AllInTree(mapBlockIndex, vConnect)
      modifies mapBlockIndex.Values`pnext
      ensures Linked(tip) && LinksAt(mapBlockIndex, tip)
    {
      for i := 0 to |vConnect|
        invariant Linked(Under(vConnect, fork, i)) && LinksAt(mapBlockIndex, Under(vConnect, fork, i))
      {
        LinkOne(vConnect[i]);
      }
    }

    /** Nothing a step may have begun is visible: the committed store and every
        pnext link are as before. */
    twostate predicate RolledBack(m: Tree)
      reads txdb, m.Values
    {
      txdb.committed == old(txdb.committed) && LinksKept(m)
    }

    twostate predicate LinksKept(m: Tree)
      reads m.Values
    {
      forall h :: h in m ==> m[h].pnext == old(m[h].pnext)
    }

    /** Switches the store and the links to the branch ending in pindexNew, or
        leaves both as they were. */
    method Reorganize(pindexNew: CBlockIndex) returns (ok: bool)
      requires Tree() && pindexBest != null && InTree(mapBlockIndex, pindexNew)
      requires SettledAt(w, mapBlockIndex, txdb.committed, pindexBest) && LinksAt(mapBlockIndex, pindexBest)
      requires |txdb.vTxn| == 1 && txdb.Current() == txdb.committed
      modifies txdb, mapBlockIndex.Values`pnext
      ensures ok == Switchable(w, pindexBest, pindexNew)
      ensures !ok ==> RolledBack(mapBlockIndex) && |txdb.vTxn| <= 1
      ensures ok ==> txdb.vTxn == [] && StoreIs(pindexNew) && Path(pindexNew)[0] == Path(pindexBest)[0]
    {
      var pfork := FindFork(pindexBest, pindexNew);
      if pfork == null {
        NoFork(w, pindexBest, pindexNew);
        return false;
      }
      SameRoot(pfork, pindexBest, pindexNew);
      var vDisconnect, vConnect := ListBranches(pfork, pindexNew);

      ok := SwitchStore(vDisconnect, vConnect, pfork, pindexNew);
      if !ok {
        return false;
      }

      // The links follow the store, never the other way round: nothing can fail from here on.
      CommitSwitch(vDisconnect, vConnect, pfork, pindexNew);
    }

    /** The end of Reorganize. */
    method CommitSwitch(vDisconnect: seq<CBlockIndex>, vConnect: seq<CBlockIndex>, ghost pfork: CBlockIndex, pindexNew: CBlockIndex)
      requires TreeOk(mapBlockIndex) && pindexBest != null && |txdb.vTxn| == 1 && Linked(pindexBest)
      requires SettledAt(w, mapBlockIndex, txdb.Current(), pindexNew) && txdb.Current().hashBestChain == pindexNew.hashBlock
      requires LinksAt(mapBlockIndex, pindexBest)
      requires Descends(vDisconnect, pindexBest, pfork) && AllInTree(mapBlockIndex, vDisconnect)
      requires Climbs(vConnect, pfork, pindexNew) && AllInTree(mapBlockIndex, vConnect)
      modifies txdb, mapBlockIndex.Values`pnext
      ensures txdb.vTxn == [] && StoreIs(pindexNew)
    {
      var _ := txdb.TxnCommit();
      UnlinkBranch(vDisconnect, pindexBest, pfork);
      LinkBranch(vConnect, pfork, pindexNew);
    }

    /** List of what to disconnect, and of what to connect. */
    method ListBranches(pfork: CBlockIndex, pindexNew: CBlockIndex) returns (vDisconnect: seq<CBlockIndex>, vConnect: seq<CBlockIndex>)
      requires TreeOk(mapBlockIndex) && pindexBest != null && InTree(mapBlockIndex, pindexBest) && InTree(mapBlockIndex, pindexNew)
      requires HighestCommon(pfork, pindexBest, pindexNew)
      ensures Descends(vDisconnect, pindexBest, pfork) && AllInTree(mapBlockIndex, vDisconnect)
      ensures Climbs(vConnect, pfork, pindexNew) && AllInTree(mapBlockIndex, vConnect)
      ensures AllReload(w, vDisconnect) && AllGood(w, vConnect)
         <==> Switchable(w, pindexBest, pindexNew)
    {
      vDisconnect := Branch(pindexBest, pfork);
      var down := Branch(pindexNew, pfork);
      vConnect := seq(|down|, k requires 0 <= k < |down| => down[|down| - 1 - k]);
      ReversedClimbs(down, vConnect, pindexNew, pfork);
      ListsAreBranches(w, pindexBest, pindexNew, pfork, vDisconnect, vConnect);
    }

    /** The database half of Reorganize. */
    method SwitchStore(vDisconnect: seq<CBlockIndex>, vConnect: seq<CBlockIndex>, ghost pfork: CBlockIndex, pindexNew: CBlockIndex)
      returns (ok: bool)
      requires Tree() && pindexBest != null && |txdb.vTxn| == 1
      requires SettledAt(w, mapBlockIndex, txdb.Current(), pindexBest)
      requires Descends(vDisconnect, pindexBest, pfork)
      requires Climbs(vConnect, pfork, pindexNew) && AllInTree(mapBlockIndex, vConnect)
      modifies txdb
      ensures txdb.committed == old(txdb.committed) && |txdb.vTxn| <= 1
      ensures ok == (AllReload(w, vDisconnect) && AllGood(w, vConnect))
      ensures ok ==> |txdb.vTxn| == 1 && SettledAt(w, mapBlockIndex, txdb.Current(), pindexNew)
                     && txdb.Current().hashBestChain == pindexNew.hashBlock
    {
      ok := DisconnectBranch(vDisconnect, pindexBest, pfork);
      if !ok {
        return false;
      }
      ghost var bad;
      ok, bad := ConnectBranch(vConnect, pfork, pindexNew, Good(w));
      if !ok {
        return false;
      }
      ghost var s := txdb.Current();
      txdb.WriteHashBestChain(pindexNew.hashBlock);
      BestHashIrrelevant(w, mapBlockIndex, s, pindexNew, pindexNew.hashBlock);
    }

    /** b is the block that pindexNew was made from, and pindexNew hangs on its
        parent if that is indexed. */
    ghost predicate IndexedAs(b: CBlock, pindexNew: CBlockIndex)
      reads this
    {
      && InTree(mapBlockIndex, pindexNew) && b == pindexNew.block
      && (if b.hashPrevBlock in mapBlockIndex then pindexNew.pprev == mapBlockIndex[b.hashPrevBlock] else pindexNew.pprev == null)
    }

    /** pindexNew is the only block, and the store holds nothing yet. */
    ghost predicate FirstIs(pindexNew: CBlockIndex)
      reads this, txdb, pindexNew
    {
      && pindexGenesisBlock == null && pindexNew.hashBlock == hashGenesisBlock && pindexNew.pprev == null
      && mapBlockIndex == map[pindexNew.hashBlock := pindexNew]
      && pindexNew.pnext == null && txdb.committed.tx == map[]
      && pindexNew.hashBlock in txdb.committed.hashNext && txdb.committed.hashNext[pindexNew.hashBlock] == 0
    }

    /** Makes pindexNew the best block, or fails and leaves the chain as it was. */
    method SetBestChain(b: CBlock, pindexNew: CBlockIndex) returns (ok: bool)
      requires Tree() && txdb.vTxn == [] && IndexedAs(b, pindexNew)
      requires if pindexBest == null then FirstIs(pindexNew) else BestIs(pindexBest)
      modifies this`pindexGenesisBlock, this`pindexBest, this`hashBestChain, this`bnBestChainWork, this`nBestHeight
      modifies txdb, mapBlockIndex.Values`pnext
      ensures txdb.vTxn == []
      ensures ok == (old(pindexBest) == null || CanMove(w, old(pindexBest), pindexNew))
      ensures ok ==> pindexBest == pindexNew && BestIs(pindexNew)
      ensures !ok ==> old(pindexBest) != null && RolledBack(mapBlockIndex)
                      && unchanged(this`pindexGenesisBlock, this`pindexBest, this`hashBestChain, this`bnBestChainWork, this`nBestHeight)
    {
      txdb.TxnBegin();
      if pindexGenesisBlock == null && pindexNew.hashBlock == hashGenesisBlock {
        SetGenesis(pindexNew);
      } else {
        ok := MoveTip(b, pindexNew);
        if !ok {
          return false;
        }
      }
      Remember(pindexNew);
      return true;
    }

    /** SetBestChain's first branch. */
    method SetGenesis(pindexNew: CBlockIndex)
      requires TreeOk(mapBlockIndex) && InTree(mapBlockIndex, pindexNew) && FirstIs(pindexNew)
      requires |txdb.vTxn| == 1 && txdb.Current() == txdb.committed
      modifies this`pindexGenesisBlock, txdb
      ensures txdb.vTxn == [] && StoreIs(pindexNew) && pindexGenesisBlock == Path(pindexNew)[0]
    {
      FirstSettles(w, mapBlockIndex, txdb.Current(), pindexNew);
      txdb.WriteHashBestChain(pindexNew.hashBlock);
      var _ := txdb.TxnCommit();
      pindexGenesisBlock := pindexNew;
    }

    /** The end of SetBestChain: the store is already that of pindexNew, the cached values
        follow. */
    method Remember(pindexNew: CBlockIndex)
      requires StoreIs(pindexNew) && pindexGenesisBlock == Path(pindexNew)[0] && pindexGenesisBlock.hashBlock == hashGenesisBlock
      modifies this`pindexBest, this`hashBestChain, this`bnBestChainWork, this`nBestHeight
      ensures BestIs(pindexNew) && pindexBest == pindexNew
    {
      hashBestChain := pindexNew.hashBlock;
      pindexBest := pindexNew;
      nBestHeight := pindexNew.nHeight;
      bnBestChainWork := pindexNew.bnChainWork;
    }

    /** SetBestChain's choice between extending the best branch and reorganizing. */
    method MoveTip(b: CBlock, pindexNew: CBlockIndex) returns (ok: bool)
      requires Tree() && pindexBest != null && IndexedAs(b, pindexNew) && BestIs(pindexBest)
      requires |txdb.vTxn| == 1 && txdb.Current() == txdb.committed
      modifies txdb, mapBlockIndex.Values`pnext
      ensures txdb.vTxn == [] && ok == CanMove(w, pindexBest, pindexNew)
      ensures !ok ==> RolledBack(mapBlockIndex)
      ensures ok ==> StoreIs(pindexNew) && Path(pindexNew)[0] == Path(pindexBest)[0]
    {
      if b.hashPrevBlock in mapBlockIndex {
        KeyInTree(mapBlockIndex, b.hashPrevBlock);
      }
      if b.hashPrevBlock == hashBestChain {
        ok := ExtendBest(b, pindexNew);
      } else {
        ok := Reorganize(pindexNew);
        if !ok {
          var _ := txdb.TxnAbort();
        }
      }
    }

    /** SetBestChain's middle branch, up to the new pnext link. */
    method ExtendBest(b: CBlock, pindexNew: CBlockIndex) returns (ok: bool)
      requires Tree() && pindexBest != null && InTree(mapBlockIndex, pindexNew)
      requires b == pindexNew.block && pindexNew.pprev == pindexBest
      requires SettledAt(w, mapBlockIndex, txdb.committed, pindexBest) && LinksAt(mapBlockIndex, pindexBest)
      requires |txdb.vTxn| == 1 && txdb.Current() == txdb.committed
      modifies txdb, mapBlockIndex.Values`pnext
      ensures txdb.vTxn == [] && ok == Approved(w, pindexNew)
      ensures !ok ==> RolledBack(mapBlockIndex)
      ensures ok ==> StoreIs(pindexNew)
    {
      ok := ConnectAbove(pindexNew, b);
      if !ok {
        var _ := txdb.TxnAbort();
        return false;
      }
      BestHashIrrelevant(w, mapBlockIndex, txdb.Current(), pindexNew, pindexNew.hashBlock);
      txdb.WriteHashBestChain(pindexNew.hashBlock);
      var _ := txdb.TxnCommit();

      LinkOne(pindexNew);
    }

    /** No two different transactions of b and the path below it have the same hash, and
        the coinbase of b does not repeat one on the path.  The source relies on this
        without checking it.  Any other transaction may be there twice: then the block
        does not connect. */
    ghost predicate HashesTellOf(b: CBlock)
      reads this
    {
      b.hashPrevBlock in mapBlockIndex && Linked(mapBlockIndex[b.hashPrevBlock]) ==>
        BlockTells(w.hashTx, b) && TellsAbove(w.hashTx, LedgerOf(Path(mapBlockIndex[b.hashPrevBlock])), b)
    }

    /** The first block indexed is the genesis block, and its work counts. */
    ghost predicate StartsWithGenesis(b: CBlock)
      reads this
    {
      mapBlockIndex == map[] ==> w.hashBlock(b) == hashGenesisBlock && GetBlockWork(b.nBits) > 0
    }

    method NewIndex(nFile: nat, nBlockPos: nat, b: CBlock) returns (p: CBlockIndex)
      requires TreeOk(mapBlockIndex) && AllTell(w.hashTx, mapBlockIndex) && FileRecord(nFile, nBlockPos, b) in written && w.hashBlock(b) !in mapBlockIndex
      ensures fresh(p) && Attachable(w, written, mapBlockIndex, p) && Linked(p)
      ensures p.hashBlock == w.hashBlock(b) && p.block == b && p.pnext == null
      ensures HashesTellOf(b) ==> AllTell(w.hashTx, mapBlockIndex[p.hashBlock := p])
      ensures StartsWithGenesis(b) && mapBlockIndex == map[] ==> p.bnChainWork > 0
      ensures p.pprev == if b.hashPrevBlock in mapBlockIndex then mapBlockIndex[b.hashPrevBlock] else null
    {
      var pprev: CBlockIndex? := if b.hashPrevBlock in mapBlockIndex then mapBlockIndex[b.hashPrevBlock] else null;
      if pprev != null {
        KeyInTree(mapBlockIndex, b.hashPrevBlock);
      }
      p := new CBlockIndex(w.hashBlock(b), pprev, nFile, nBlockPos, b);
      if HashesTellOf(b) {
        AttachTells(w.hashTx, mapBlockIndex, p);
      }
    }

    /** AddToBlockIndex between making the node and a possible change of tip: the
        node enters the tree and the store. */
    method IndexBlock(pindexNew: CBlockIndex)
      requires Tree() && txdb.vTxn == [] && (pindexBest != null ==> BestIs(pindexBest))
      requires Attachable(w, written, mapBlockIndex, pindexNew) && Linked(pindexNew) && pindexNew.pnext == null
      requires AllTell(w.hashTx, mapBlockIndex[pindexNew.hashBlock := pindexNew])
      modifies this`mapBlockIndex, txdb
      ensures mapBlockIndex == old(mapBlockIndex)[pindexNew.hashBlock := pindexNew]
      ensures Tree() && InTree(mapBlockIndex, pindexNew) && txdb.vTxn == []
      ensures txdb.committed == old(txdb.committed).(hashNext := old(txdb.committed).hashNext[pindexNew.hashBlock := 0])
      ensures pindexBest != null ==> BestIs(pindexBest)
    {
      ghost var m := mapBlockIndex;
      AttachTree(w, files, written, m, pindexNew);
      AttachSums(m, pindexNew);
      if pindexBest != null {
        AttachSettled(w, m, txdb.committed, pindexBest, pindexNew);
        AttachLinks(m, pindexBest, pindexNew);
      }
      mapBlockIndex := mapBlockIndex[pindexNew.hashBlock := pindexNew];

      WriteNewIndex(pindexNew.hashBlock);
    }

    /** The record of a new block, in a database transaction of its own. */
    method WriteNewIndex(hash: uint256)
      requires txdb.vTxn == []
      modifies txdb
      ensures txdb.vTxn == []
      ensures txdb.committed == old(txdb.committed).(hashNext := old(txdb.committed).hashNext[hash := 0])
    {
      txdb.TxnBegin();
      txdb.WriteBlockIndex(hash, 0);
      var _ := txdb.TxnCommit();
    }

    /** What becomes of the new block p: it is the new tip exactly if it has strictly more
        work and the chain can move to it, and the call fails exactly if it has more
        work and the chain cannot. */
    twostate predicate Outcome(new p: CBlockIndex, ok: bool)
      reads this
    {
      var better := p.bnChainWork > old(bnBestChainWork);
      var movable := old(pindexBest) == null || CanMove(w, old(pindexBest), p);
      && Linked(p) && ok == (better ==> movable)
      && pindexBest == if better && movable then p else old(pindexBest)
    }

    /** The best work is that of all blocks up to the tip. */
    lemma {:induction false} BestWork()
      requires Valid() && pindexBest != null
      ensures bnBestChainWork == PathWork(Path(pindexBest))
    {
      ChainWork(mapBlockIndex, pindexBest);
    }

    /** So a block that hangs beside the tip, with a target no smaller, leaves it the tip. */
    twostate lemma {:induction false} SiblingStays(tip: CBlockIndex, new p: CBlockIndex, ok: bool)
      requires Tree() && InTree(mapBlockIndex, tip) && InTree(mapBlockIndex, p) && p.pprev == tip.pprev
      requires old(pindexBest) == tip && old(bnBestChainWork) == tip.bnChainWork && Outcome(p, ok)
      requires 0 < Bignum.SetCompact(tip.block.nBits) <= Bignum.SetCompact(p.block.nBits)
      ensures ok && pindexBest == tip
    {
      EasierSibling(mapBlockIndex, tip, p);
    }

    /** CBlock::AddToBlockIndex.  The tip changes only to the new block and only
        for strictly more work; if the new branch is rejected the block stays in
        the tree but the chain is as it was. */
    method AddToBlockIndex(nFile: nat, nBlockPos: nat, b: CBlock) returns (ok: bool)
      requires Valid() && FileRecord(nFile, nBlockPos, b) in written && HashesTellOf(b) && StartsWithGenesis(b)
      requires b.hashPrevBlock != w.hashBlock(b)
      modifies this, txdb, mapBlockIndex.Values`pnext
      ensures Valid() && files == old(files)
      ensures w.hashBlock(b) in old(mapBlockIndex) ==> !ok && mapBlockIndex == old(mapBlockIndex)
      ensures w.hashBlock(b) !in old(mapBlockIndex) ==>
                w.hashBlock(b) in mapBlockIndex
                && mapBlockIndex == old(mapBlockIndex)[w.hashBlock(b) := mapBlockIndex[w.hashBlock(b)]]
      ensures w.hashBlock(b) !in old(mapBlockIndex) ==>
                mapBlockIndex[w.hashBlock(b)].block == b && Outcome(mapBlockIndex[w.hashBlock(b)], ok)
      ensures pindexBest != old(pindexBest) ==>
                ok && pindexBest != null && pindexBest.hashBlock == w.hashBlock(b) && bnBestChainWork > old(bnBestChainWork)
      ensures pindexBest == old(pindexBest) ==>
                bnBestChainWork == old(bnBestChainWork) && txdb.committed.tx == old(txdb.committed.tx)
                && LinksKept(old(mapBlockIndex))
    {
      if w.hashBlock(b) in mapBlockIndex {
        return false;
      }
      var pindexNew;
      ok, pindexNew := AddNew(nFile, nBlockPos, b);
    }

    /** AddToBlockIndex for a block that is not indexed yet. */
    method AddNew(nFile: nat, nBlockPos: nat, b: CBlock) returns (ok: bool, pindexNew: CBlockIndex)
      requires Valid() && FileRecord(nFile, nBlockPos, b) in written && HashesTellOf(b) && StartsWithGenesis(b)
      requires b.hashPrevBlock != w.hashBlock(b) && w.hashBlock(b) !in mapBlockIndex
      modifies this, txdb, mapBlockIndex.Values`pnext
      ensures Valid() && files == old(files)
      ensures mapBlockIndex == old(mapBlockIndex)[w.hashBlock(b) := pindexNew]
      ensures pindexNew.hashBlock == w.hashBlock(b) && pindexNew.block == b && Outcome(pindexNew, ok)
      ensures pindexBest != old(pindexBest) ==> ok && bnBestChainWork > old(bnBestChainWork)
      ensures pindexBest == old(pindexBest) ==>
                bnBestChainWork == old(bnBestChainWork) && txdb.committed.tx == old(txdb.committed.tx)
                && LinksKept(old(mapBlockIndex))
    {
      pindexNew := Insert(nFile, nBlockPos, b);
      ok := CompareWork(b, pindexNew);
    }

    /** AddToBlockIndex up to a possible change of tip. */
    method Insert(nFile: nat, nBlockPos: nat, b: CBlock) returns (pindexNew: CBlockIndex)
      requires Valid() && FileRecord(nFile, nBlockPos, b) in written && HashesTellOf(b) && StartsWithGenesis(b)
      requires b.hashPrevBlock != w.hashBlock(b) && w.hashBlock(b) !in mapBlockIndex
      modifies this`mapBlockIndex, txdb
      ensures fresh(pindexNew) && Tree() && txdb.vTxn == [] && IndexedAs(b, pindexNew)
      ensures mapBlockIndex == old(mapBlockIndex)[w.hashBlock(b) := pindexNew]
      ensures txdb.committed.tx == old(txdb.committed.tx)
      ensures if pindexBest == null then FirstIs(pindexNew) && pindexNew.bnChainWork > bnBestChainWork else BestIs(pindexBest)
    {
      pindexNew := NewIndex(nFile, nBlockPos, b);
      IndexBlock(pindexNew);
    }

    /** The end of AddToBlockIndex: more work than the best block has asks for a change of
        tip. */
    method CompareWork(b: CBlock, pindexNew: CBlockIndex) returns (ok: bool)
      requires Tree() && txdb.vTxn == [] && IndexedAs(b, pindexNew)
      requires if pindexBest == null then FirstIs(pindexNew) && pindexNew.bnChainWork > bnBestChainWork else BestIs(pindexBest)
      modifies this`pindexGenesisBlock, this`pindexBest, this`hashBestChain, this`bnBestChainWork, this`nBestHeight
      modifies txdb, mapBlockIndex.Values`pnext
      ensures Valid() && Outcome(pindexNew, ok)
      ensures pindexBest != old(pindexBest) ==> ok && bnBestChainWork > old(bnBestChainWork)
      ensures pindexBest == old(pindexBest) ==> bnBestChainWork == old(bnBestChainWork) && RolledBack(mapBlockIndex)
    {
      if pindexNew.bnChainWork > bnBestChainWork {
        ok := SetBestChain(b, pindexNew);
      } else {
        ok := true;
      }
    }

    /** File numbers are far from the one that means a null position. */
    ghost predicate RoomOnDisk()
      reads this
    {
      nCurrentBlockFile < UINT_MAX && forall n :: n in files ==> n < UINT_MAX - 1
    }

    /** Picks the first file, from the current one on, that is small enough. */
    method AppendBlockFile() returns (nFile: nat)
      requires RoomOnDisk()
      modifies this`nCurrentBlockFile
      ensures old(nCurrentBlockFile) <= nFile == nCurrentBlockFile < UINT_MAX
      ensures FileSize(files, nFile) < 0x7F00_0000 - MAX_SIZE
      ensures forall n: nat :: old(nCurrentBlockFile) <= n < nFile ==> FileSize(files, n) >= 0x7F00_0000 - MAX_SIZE
    {
      while FileSize(files, nCurrentBlockFile) >= 0x7F00_0000 - MAX_SIZE
        invariant old(nCurrentBlockFile) <= nCurrentBlockFile < UINT_MAX
        invariant forall n: nat :: old(nCurrentBlockFile) <= n < nCurrentBlockFile ==> FileSize(files, n) >= 0x7F00_0000 - MAX_SIZE
        decreases set n | n in files && n >= nCurrentBlockFile
      {
        ghost var left := set n | n in files && n >= nCurrentBlockFile;
        assert nCurrentBlockFile in left;
        nCurrentBlockFile := nCurrentBlockFile + 1;
        assert nCurrentBlockFile - 1 !in set n | n in files && n >= nCurrentBlockFile;
      }
      return nCurrentBlockFile;
    }

    /** CBlock::WriteToDisk: the message start, the size, then the block. */
    method WriteToDisk(b: CBlock, pchMessageStart: seq<byte>) returns (nFile: nat, nBlockPos: nat)
      requires Tree() && RoomOnDisk() && |pchMessageStart| == 4
      requires Canonical(b) && SizeBlock(b, false) <= MAX_BLOCK_SIZE && forall i :: 0 <= i < |b.vtx| ==> TxOk(b.vtx[i])
      modifies this`nCurrentBlockFile, this`files, this`written
      ensures Tree() && Extends(old(files), files)
      ensures Appended(old(files), files, nFile, nBlockPos, pchMessageStart, b)
      ensures written == old(written) + {FileRecord(nFile, nBlockPos, b)}
      ensures ReadsAs(files, nFile, nBlockPos, b)
    {
      nFile := AppendBlockFile();
      var front := (if nFile in files then files[nFile] else []) + pchMessageStart + LE(SizeBlock(b, false), 4);
      nBlockPos := |front|;
      BlockAppended(w, files, mapBlockIndex, written, nFile, front, b);
      files := files[nFile := front + SerializeBlock(b, false)];
      written := written + {FileRecord(nFile, nBlockPos, b)};
    }

    /** Writing a block does not touch the chain. */
    method WriteHistory(b: CBlock, pchMessageStart: seq<byte>) returns (nFile: nat, nBlockPos: nat)
      requires Valid() && RoomOnDisk() && |pchMessageStart| == 4
      requires Canonical(b) && SizeBlock(b, false) <= MAX_BLOCK_SIZE && forall i :: 0 <= i < |b.vtx| ==> TxOk(b.vtx[i])
      modifies this`nCurrentBlockFile, this`files, this`written
      ensures Valid() && Extends(old(files), files) && FileRecord(nFile, nBlockPos, b) in written
    {
      nFile, nBlockPos := WriteToDisk(b, pchMessageStart);
      ChainUntouched();
    }

    /** The chain does not depend on the block files. */
    twostate lemma ChainUntouched()
      requires old(Valid()) && Tree() && unchanged(txdb) && unchanged(this`mapBlockIndex) && unchanged(mapBlockIndex.Values)
      requires unchanged(this`pindexGenesisBlock, this`pindexBest, this`hashBestChain, this`bnBestChainWork, this`nBestHeight)
      ensures Valid()
    {
    }

    /** CBlock::AcceptBlock for a block that CheckBlock has passed.  checksOk is
        the outcome of its contextual checks, which can only refuse more. */
    method AcceptBlock(b: CBlock, pchMessageStart: seq<byte>, checksOk: bool) returns (ok: bool)
      requires Valid() && RoomOnDisk() && |pchMessageStart| == 4
      requires Canonical(b) && SizeBlock(b, false) <= MAX_BLOCK_SIZE && forall i :: 0 <= i < |b.vtx| ==> TxOk(b.vtx[i])
      requires HashesTellOf(b) && b.hashPrevBlock != w.hashBlock(b)
      modifies this, txdb, mapBlockIndex.Values`pnext
      ensures Valid() && Extends(old(files), files)
      ensures w.hashBlock(b) in old(mapBlockIndex) || b.hashPrevBlock !in old(mapBlockIndex) || !checksOk ==>
                !ok && mapBlockIndex == old(mapBlockIndex) && files == old(files)
      ensures w.hashBlock(b) !in old(mapBlockIndex) && b.hashPrevBlock in old(mapBlockIndex) && checksOk ==>
                w.hashBlock(b) in mapBlockIndex && Outcome(mapBlockIndex[w.hashBlock(b)], ok)
      ensures pindexBest != old(pindexBest) ==>
                ok && pindexBest != null && pindexBest.hashBlock == w.hashBlock(b) && bnBestChainWork > old(bnBestChainWork)
      ensures pindexBest == old(pindexBest) ==>
                bnBestChainWork == old(bnBestChainWork) && txdb.committed.tx == old(txdb.committed.tx)
    {
      if w.hashBlock(b) in mapBlockIndex || b.hashPrevBlock !in mapBlockIndex || !checksOk {
        return false;
      }

      var nFile, nBlockPos := WriteHistory(b, pchMessageStart);
      ok := AddToBlockIndex(nFile, nBlockPos, b);
    }
  }
}
