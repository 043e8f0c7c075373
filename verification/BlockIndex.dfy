/** The block tree.  pprev, the height and the file position never change once a
    block has been indexed; pnext is rewritten by every change of tip. */
module BlockIndex {
  import opened Basics
  import opened Serialize
  import opened TxIndex
  import Bignum

  /** CBigNum(1) << 256 */
  const Two256: nat := 0x1_00000000_00000000_00000000_00000000_00000000_00000000_00000000_00000000

  function WorkBelow(bnTarget: int): nat {
    if bnTarget <= 0 then 0 else Two256 / (bnTarget + 1)
  }

  /** CBlockIndex::GetBlockWork: the expected number of hashes below the target. */
  function GetBlockWork(nBits: uint32): nat {
    WorkBelow(Bignum.SetCompact(nBits))
  }

  /** The whole part of 2^256 / (target + 1): one target in that many hashes is met. */
  lemma {:induction false} WorkExact(bnTarget: int)
    ensures bnTarget <= 0 ==> WorkBelow(bnTarget) == 0
    ensures bnTarget > 0 ==> var n := WorkBelow(bnTarget); n * (bnTarget + 1) <= Two256 < (n + 1) * (bnTarget + 1)
  {
  }

  /** The same of the work of a block, by the target that its bits stand for. */
  lemma {:induction false} BlockWorkExact(nBits: uint32)
    ensures var t, n := Bignum.SetCompact(nBits), GetBlockWork(nBits);
            if t <= 0 then n == 0 else n * (t + 1) <= Two256 < (n + 1) * (t + 1)
  {
    WorkExact(Bignum.SetCompact(nBits));
  }

  /** A larger target never means more work. */
  lemma {:induction false} EasierIsLess(t: int, u: int)
    requires 0 < t <= u
    ensures WorkBelow(u) <= WorkBelow(t)
  {
    var n, k := WorkBelow(t), WorkBelow(u);
    WorkExact(t);
    WorkExact(u);
    if k > n {
      MulBoth(n + 1, k, t + 1, u + 1);
    }
  }

  lemma {:induction false} MulBoth(a: nat, b: nat, c: nat, d: nat)
    requires a <= b && c <= d
    ensures a * c <= b * d
  {
    MulRight(a, b, c);
    MulRight(c, d, b);
  }

  lemma {:induction false} MulRight(a: nat, b: nat, c: nat)
    requires a <= b
    ensures a * c <= b * c && c * a <= c * b
  {
    assert (b - a) * c >= 0;
  }

  const COINBASE_MATURITY := 100

  class CBlockIndex {
    const hashBlock: uint256
    const pprev: CBlockIndex?
    const nHeight: nat
    const nFile: nat
    const nBlockPos: nat
    const bnChainWork: nat
    const nTime: uint32
    const nBits: uint32
    ghost const block: CBlock  // the block that was written at that position
    var pnext: CBlockIndex?

    constructor (hash: uint256, prev: CBlockIndex?, file: nat, pos: nat, b: CBlock)
      ensures hashBlock == hash && pprev == prev && nFile == file && nBlockPos == pos && block == b
      ensures nHeight == (if prev == null then 0 else prev.nHeight + 1)
      ensures bnChainWork == (if prev == null then 0 else prev.bnChainWork) + GetBlockWork(b.nBits)
      ensures nTime == b.nTime && nBits == b.nBits && pnext == null
    {
      hashBlock, pprev, nFile, nBlockPos, block := hash, prev, file, pos, b;
      nHeight := if prev == null then 0 else prev.nHeight + 1;
      bnChainWork := (if prev == null then 0 else prev.bnChainWork) + GetBlockWork(b.nBits);
      nTime, nBits, pnext := b.nTime, b.nBits, null;
    }
  }

  /** Heights are consecutive from this block down to a root. */
  ghost predicate Linked(p: CBlockIndex)
    decreases p.nHeight
  {
    if p.pprev == null then p.nHeight == 0 else p.nHeight == p.pprev.nHeight + 1 && Linked(p.pprev)
  }

  /** The blocks from the root to p, both included. */
  ghost function Path(p: CBlockIndex): (s: seq<CBlockIndex>)
    requires Linked(p)
    ensures |s| == p.nHeight + 1 && s[p.nHeight] == p
    decreases p.nHeight
  {
    if p.pprev == null then [p] else Path(p.pprev) + [p]
  }

  lemma {:induction false} PathAt(p: CBlockIndex, k: nat)
    requires Linked(p) && k <= p.nHeight
    ensures var a := Path(p)[k]; a.nHeight == k && Linked(a) && Path(a) == Path(p)[..k + 1]
    decreases p.nHeight
  {
    if k < p.nHeight {
      PathAt(p.pprev, k);
      assert Path(p)[..k + 1] == Path(p.pprev)[..k + 1];
    } else {
      assert Path(p)[..k + 1] == Path(p);
    }
  }

  /** a is p or one of its ancestors. */
  ghost predicate IsAncestor(a: CBlockIndex, p: CBlockIndex)
    requires Linked(p)
  {
    a.nHeight <= p.nHeight && Path(p)[a.nHeight] == a
  }

  lemma {:induction false} AncestorStep(a: CBlockIndex, p: CBlockIndex)
    requires Linked(p) && p.pprev != null
    ensures IsAncestor(a, p) <==> a == p || IsAncestor(a, p.pprev)
  {
  }

  lemma {:induction false} AncestorTransitive(a: CBlockIndex, b: CBlockIndex, p: CBlockIndex)
    requires Linked(p) && IsAncestor(b, p) && Linked(b) && IsAncestor(a, b)
    ensures IsAncestor(a, p)
  {
    PathAt(p, b.nHeight);
  }

  ghost predicate CommonAncestor(a: CBlockIndex, p: CBlockIndex, q: CBlockIndex)
    requires Linked(p) && Linked(q)
  {
    IsAncestor(a, p) && IsAncestor(a, q)
  }

  /** The paths to p and q agree at height k. */
  ghost predicate Meet(p: CBlockIndex, q: CBlockIndex, k: nat)
    requires Linked(p) && Linked(q)
  {
    k <= p.nHeight && k <= q.nHeight && Path(p)[k] == Path(q)[k]
  }

  /** a is a common ancestor and no common ancestor is higher. */
  ghost predicate HighestCommon(a: CBlockIndex, p: CBlockIndex, q: CBlockIndex)
    requires Linked(p) && Linked(q)
  {
    CommonAncestor(a, p, q) && forall k: nat :: Meet(p, q, k) ==> k <= a.nHeight
  }

  /** The two-pointer loop of Reorganize. It ends at the highest common ancestor,
      or reports failure when the two blocks have different roots. */
  method FindFork(pindexBest: CBlockIndex, pindexNew: CBlockIndex) returns (fork: CBlockIndex?)
    requires Linked(pindexBest) && Linked(pindexNew)
    ensures fork != null ==> HighestCommon(fork, pindexBest, pindexNew)
    ensures fork == null ==> forall k: nat :: !Meet(pindexBest, pindexNew, k)
  {
    var pfork: CBlockIndex, plonger: CBlockIndex := pindexBest, pindexNew;
    while pfork != plonger
      invariant Linked(pfork) && IsAncestor(pfork, pindexBest)
      invariant Linked(plonger) && IsAncestor(plonger, pindexNew)
      invariant forall k: nat :: Meet(pindexBest, pindexNew, k) ==> k <= pfork.nHeight && k <= plonger.nHeight
      decreases pfork.nHeight + plonger.nHeight
    {
      while plonger.nHeight > pfork.nHeight
        invariant Linked(plonger) && IsAncestor(plonger, pindexNew)
        invariant forall k: nat :: Meet(pindexBest, pindexNew, k) ==> k <= pfork.nHeight && k <= plonger.nHeight
        decreases plonger.nHeight
      {
        if plonger.pprev == null {
          return null;
        }
        AncestorTransitive(plonger.pprev, plonger, pindexNew);
        plonger := plonger.pprev;
      }
      if pfork == plonger {
        break;
      }
      if pfork.pprev == null {
        return null;
      }
      AncestorTransitive(pfork.pprev, pfork, pindexBest);
      pfork := pfork.pprev;
    }
    return pfork;
  }

  ghost predicate PositionOf(p: CBlockIndex, pos: CDiskTxPos) {
    p.nBlockPos == pos.nBlockPos && p.nFile == pos.nFile
  }

  /** Some block less than COINBASE_MATURITY below p, or p itself, is stored at
      the position. */
  ghost predicate Immature(p: CBlockIndex, pos: CDiskTxPos)
    requires Linked(p)
  {
    exists k: nat :: k <= p.nHeight && p.nHeight - k < COINBASE_MATURITY && PositionOf(Path(p)[k], pos)
  }

  /** The maturity loop of ConnectInputs. */
  method FindImmature(pindexBlock: CBlockIndex, pos: CDiskTxPos) returns (immature: bool)
    requires Linked(pindexBlock)
    ensures immature <==> Immature(pindexBlock, pos)
  {
    var pindex: CBlockIndex? := pindexBlock;
    ghost var h: int := pindexBlock.nHeight;
    while pindex != null && pindexBlock.nHeight - pindex.nHeight < COINBASE_MATURITY
      invariant -1 <= h <= pindexBlock.nHeight
      invariant pindex != null <==> h >= 0
      invariant pindex != null ==> Linked(pindex) && pindex.nHeight == h && IsAncestor(pindex, pindexBlock)
      invariant forall k: nat :: h < k <= pindexBlock.nHeight ==> !PositionOf(Path(pindexBlock)[k], pos)
      decreases h
    {
      if pindex.nBlockPos == pos.nBlockPos && pindex.nFile == pos.nFile {
        assert PositionOf(Path(pindexBlock)[pindex.nHeight], pos);
        return true;
      }
      if pindex.pprev != null {
        AncestorTransitive(pindex.pprev, pindex, pindexBlock);
      }
      pindex, h := pindex.pprev, h - 1;
    }
    return false;
  }
}
