/** CBlockLocator: exponentially spaced blocks back from a place in the chain, and
    the common block that another branch finds with them. */
module Locator {
  import opened Basics
  import opened BlockIndex
  import opened ChainState
  import opened Globals

  /** How far back the j-th entry is: one step at a time for the first eleven, then in
      doubling steps. */
  function Distance(j: nat): nat {
    if j <= 10 then j else 9 + Pow(2, j - 10)
  }

  /** The step taken after j entries. */
  function Step(j: nat): nat {
    if j <= 11 then 1 else Pow(2, j - 11)
  }

  lemma {:induction false} PowTwo(k: nat)
    ensures Pow(2, k + 1) == 2 * Pow(2, k) && Pow(2, k) >= 1
  {
  }

  /** Entry j and the next one are a step apart. */
  lemma {:induction false} DistanceStep(j: nat)
    ensures Distance(j + 1) == Distance(j) + if j < 10 then 1 else Pow(2, j - 10)
  {
    assert Pow(2, 0) == 1;
    if j >= 10 {
      PowTwo(j - 10);
    }
  }

  /** The first eleven are one apart, and from then on the gap doubles each time. */
  lemma {:induction false} DistanceDoubles(j: nat)
    ensures j <= 11 ==> Distance(j) == j
    ensures j >= 11 ==> Distance(j + 1) - Distance(j) == 2 * (Distance(j) - Distance(j - 1))
  {
    assert Pow(2, 0) == 1;
    PowTwo(0);
    if j >= 11 {
      DistanceStep(j);
      DistanceStep(j - 1);
      PowTwo(j - 11);
    }
  }

  lemma {:induction false} DistanceMono(j: nat, k: nat)
    requires j < k
    ensures Distance(j) < Distance(k)
    decreases k
  {
    if k > 0 {
      DistanceStep(k - 1);
      if k - 1 >= 10 {
        PowTwo(k - 11 + 0);
        PowTwo(k - 1 - 10);
      }
      if j < k - 1 {
        DistanceMono(j, k - 1);
      }
    }
  }

  /** No entry is more than twice as far back as any place beyond the entry before. */
  lemma {:induction false} AtMostTwice(j: nat, d: nat)
    requires d <= Distance(j) && (j > 0 ==> Distance(j - 1) < d)
    ensures Distance(j) <= 2 * d
  {
    assert Pow(2, 0) == 1;
    if j > 0 {
      DistanceStep(j - 1);
      if j > 10 {
        PowTwo(j - 11);
      }
    }
  }

  /** The entries that exist below height h: those at most h back. */
  ghost predicate Spaced(vHave: seq<uint256>, p: CBlockIndex, n: nat)
    requires Linked(p)
  {
    && n <= |vHave|
    && forall j {:trigger Distance(j)} :: 0 <= j < n ==>
         Distance(j) <= p.nHeight && vHave[j] == Path(p)[p.nHeight - Distance(j)].hashBlock
  }

  /** The locator of p: all entries that exist, then the genesis block. */
  ghost predicate IsLocator(vHave: seq<uint256>, p: CBlockIndex, genesis: uint256)
    requires Linked(p)
  {
    && |vHave| >= 2 && vHave[|vHave| - 1] == genesis
    && Spaced(vHave, p, |vHave| - 1) && Distance(|vHave| - 1) > p.nHeight
  }

  /** The inner loop of Set: null when it runs past the root. */
  method StepBack(pindexIn: CBlockIndex, nStep: nat) returns (pindex: CBlockIndex?)
    requires Linked(pindexIn)
    ensures pindex == null <==> nStep > pindexIn.nHeight
    ensures pindex != null ==> Linked(pindex) && pindex == Path(pindexIn)[pindexIn.nHeight - nStep] && pindex.nHeight == pindexIn.nHeight - nStep
  {
    pindex := pindexIn;
    var i := 0;
    while pindex != null && i < nStep
      invariant 0 <= i <= nStep
      invariant pindex != null ==> Linked(pindex) && pindex.nHeight == pindexIn.nHeight - i && IsAncestor(pindex, pindexIn)
      invariant pindex == null ==> i > pindexIn.nHeight
    {
      if pindex.pprev != null {
        AncestorTransitive(pindex.pprev, pindex, pindexIn);
      }
      pindex := pindex.pprev;
      i := i + 1;
    }
  }

  lemma {:induction false} PathDown(p: CBlockIndex, k: nat, n: nat)
    requires Linked(p) && n <= k <= p.nHeight
    ensures Linked(Path(p)[k]) && Path(p)[k].nHeight == k && Path(Path(p)[k])[k - n] == Path(p)[k - n]
  {
    PathAt(p, k);
  }

  /** pindex is where entry j is to be, or null when there is no such block. */
  ghost predicate AtEntry(p: CBlockIndex, pindex: CBlockIndex?, j: nat)
    requires Linked(p)
  {
    if pindex == null then Distance(j) > p.nHeight
    else Distance(j) <= p.nHeight && pindex == Path(p)[p.nHeight - Distance(j)] && Linked(pindex)
  }

  method StepToNext(p: CBlockIndex, pindexIn: CBlockIndex, ghost j: nat, nStep: nat) returns (pindex: CBlockIndex?)
    requires Linked(p) && AtEntry(p, pindexIn, j) && nStep == Step(j + 1)
    ensures AtEntry(p, pindex, j + 1)
  {
    DistanceStep(j);
    PathAt(p, p.nHeight - Distance(j));
    pindex := StepBack(pindexIn, nStep);
    if pindex != null {
      PathDown(p, p.nHeight - Distance(j), nStep);
    }
  }

  lemma {:induction false} SpacedAppend(vHave: seq<uint256>, p: CBlockIndex, pindex: CBlockIndex)
    requires Linked(p) && Spaced(vHave, p, |vHave|) && AtEntry(p, pindex, |vHave|)
    ensures Spaced(vHave + [pindex.hashBlock], p, |vHave| + 1)
  {
  }

  lemma {:induction false} SpacedMore(vHave: seq<uint256>, p: CBlockIndex, h: uint256)
    requires Linked(p) && Spaced(vHave, p, |vHave|)
    ensures Spaced(vHave + [h], p, |vHave|)
  {
  }

  /** CBlockLocator::Set */
  method Set(p: CBlockIndex, hashGenesisBlock: uint256) returns (vHave: seq<uint256>)
    requires Linked(p)
    ensures IsLocator(vHave, p, hashGenesisBlock)
  {
    vHave := [];
    var nStep := 1;
    var pindex: CBlockIndex? := p;
    while pindex != null
      invariant nStep == Step(|vHave| + 1)
      invariant Spaced(vHave, p, |vHave|) && AtEntry(p, pindex, |vHave|)
      decreases if pindex == null then 0 else 1 + p.nHeight - Distance(|vHave|)
    {
      SpacedAppend(vHave, p, pindex);
      DistanceMono(|vHave|, |vHave| + 1);
      ghost var j := |vHave|;
      vHave := vHave + [pindex.hashBlock];
      pindex := StepToNext(p, pindex, j, nStep);
      if |vHave| > 10 {
        nStep := nStep * 2;
      }
    }
    SpacedMore(vHave, p, hashGenesisBlock);
    vHave := vHave + [hashGenesisBlock];
  }

  /** A locator from height h has at most 13 + log2(h + 1) entries. */
  lemma {:induction false} LocatorSize(vHave: seq<uint256>, p: CBlockIndex, genesis: uint256)
    requires Linked(p) && IsLocator(vHave, p, genesis) && |vHave| >= 13
    ensures Pow(2, |vHave| - 13) <= p.nHeight + 1
  {
    var j := |vHave| - 2;
    assert Distance(j) <= p.nHeight;
    PowTwo(j - 11);
  }

  // ----- looking a locator up -----

  /** The hash is that of a block on the path to tip. */
  ghost predicate OnMainChain(m: Tree, tip: CBlockIndex, hash: uint256)
    requires Linked(tip)
  {
    hash in m && IsAncestor(m[hash], tip)
  }

  /** Entry j is the first one on the main chain. */
  ghost predicate FirstOnChain(m: Tree, tip: CBlockIndex, vHave: seq<uint256>, j: nat)
    requires Linked(tip)
  {
    && j < |vHave| && OnMainChain(m, tip, vHave[j])
    && forall i {:trigger OnMainChain(m, tip, vHave[i])} :: 0 <= i < j ==> !OnMainChain(m, tip, vHave[i])
  }

  ghost predicate NoneOnChain(m: Tree, tip: CBlockIndex, vHave: seq<uint256>)
    requires Linked(tip)
  {
    forall i {:trigger OnMainChain(m, tip, vHave[i])} :: 0 <= i < |vHave| ==> !OnMainChain(m, tip, vHave[i])
  }

  /** CBlockLocator::GetBlockIndex, for any locator: the first entry on the main chain,
      or the genesis block. */
  method GetBlockIndex(main: CMain, vHave: seq<uint256>) returns (r: CBlockIndex)
    requires main.Valid() && main.pindexBest != null
    ensures var m, tip := main.mapBlockIndex, main.pindexBest;
            || (NoneOnChain(m, tip, vHave) && r == main.pindexGenesisBlock)
            || exists j: nat :: FirstOnChain(m, tip, vHave, j) && r == m[vHave[j]]
  {
    for k := 0 to |vHave|
      invariant forall i {:trigger OnMainChain(main.mapBlockIndex, main.pindexBest, vHave[i])} ::
                  0 <= i < k ==> !OnMainChain(main.mapBlockIndex, main.pindexBest, vHave[i])
    {
      var hash := vHave[k];
      if hash in main.mapBlockIndex {
        var pindex := main.mapBlockIndex[hash];
        KeyInTree(main.mapBlockIndex, hash);
        var inMain := main.IsInMainChain(pindex);
        if inMain {
          assert FirstOnChain(main.mapBlockIndex, main.pindexBest, vHave, k);
          return pindex;
        }
      }
    }
    r := main.pindexGenesisBlock;
  }

  /** An entry at or below the fork is on the main chain. */
  lemma {:induction false} BelowForkIsCommon(m: Tree, p: CBlockIndex, tip: CBlockIndex, fork: CBlockIndex, k: nat)
    requires TreeOk(m) && InTree(m, p) && Linked(tip) && CommonAncestor(fork, p, tip) && k <= fork.nHeight
    ensures Path(p)[k].nHeight == k && OnMainChain(m, tip, Path(p)[k].hashBlock) && m[Path(p)[k].hashBlock] == Path(p)[k]
  {
    PathInTree(m, p, k);
    PathAt(p, k);
    PathAt(p, fork.nHeight);
    PathAt(tip, fork.nHeight);
    assert Path(p)[..fork.nHeight + 1][k] == Path(tip)[..fork.nHeight + 1][k];
  }

  /** The block found with p's locator is the genesis block or a common ancestor of p
      and the tip, at most twice as far back from p as the true fork. */
  lemma {:induction false} LocatorFindsFork(m: Tree, tip: CBlockIndex, p: CBlockIndex, genesis: uint256, vHave: seq<uint256>,
                                            j: nat, fork: CBlockIndex)
    requires TreeOk(m) && InTree(m, p) && InTree(m, tip) && IsLocator(vHave, p, genesis)
    requires FirstOnChain(m, tip, vHave, j) && HighestCommon(fork, p, tip)
    ensures var r := m[vHave[j]];
            r.hashBlock == genesis
            || (CommonAncestor(r, p, tip) && p.nHeight - r.nHeight <= 2 * (p.nHeight - fork.nHeight))
  {
    KeyInTree(m, vHave[j]);
    if j < |vHave| - 1 {
      var h, d := p.nHeight, p.nHeight - fork.nHeight;
      assert Distance(j) <= h;
      PathInTree(m, p, h - Distance(j));
      PathAt(p, h - Distance(j));
      if j > 0 {
        assert Distance(j - 1) <= h;
        assert !OnMainChain(m, tip, vHave[j - 1]);
        if Distance(j - 1) >= d {
          BelowForkIsCommon(m, p, tip, fork, h - Distance(j - 1));
        }
      }
      if Distance(j) > d {
        AtMostTwice(j, d);
      }
    }
  }

  /** Arithmetic on int: two's complement, where it does not trap. */
  function Wrap32(x: int): int32 {
    ToInt32(x % 0x1_0000_0000)
  }

  /** How many entries off the main chain fit an int. */
  const MaxForeign := 40

  lemma {:induction false} ForeignFits(k: nat)
    requires k <= MaxForeign
    ensures Distance(k) < 0x8000_0000 && 0 < Step(k + 1) < 0x8000_0000
    ensures k == MaxForeign ==> Distance(k + 1) >= 0x8000_0000
  {
    assert Pow(2, 0) == 1;
    assert Pow(2, 1) == 2 * Pow(2, 0);
    assert Pow(2, 2) == 2 * Pow(2, 1);
    assert Pow(2, 3) == 2 * Pow(2, 2);
    assert Pow(2, 4) == 2 * Pow(2, 3);
    assert Pow(2, 5) == 2 * Pow(2, 4);
    PowAdd(2, 5, 5);
    PowAdd(2, 10, 10);
    PowAdd(2, 20, 10);
    if k >= 10 {
      PowMono(2, k - 10, 30);
    }
  }

  /** CBlockLocator::GetDistanceBack.  Its step doubles by the distance covered, that
      of Set by the entries made; they agree, up to the 40 entries off the main chain after
      which the distance no longer fits an int. */
  method GetDistanceBack(main: CMain, vHave: seq<uint256>) returns (nDistance: int32)
    requires main.Valid() && main.pindexBest != null
    ensures var m, tip := main.mapBlockIndex, main.pindexBest;
            || (NoneOnChain(m, tip, vHave) && (|vHave| <= MaxForeign ==> nDistance == Distance(|vHave|)))
            || exists j: nat :: FirstOnChain(m, tip, vHave, j) && (j <= MaxForeign ==> nDistance == Distance(j))
  {
    nDistance := 0;
    var nStep: int32 := 1;
    for k := 0 to |vHave|
      invariant k <= MaxForeign ==> nDistance == Distance(k) && nStep == Step(k + 1)
      invariant forall i {:trigger OnMainChain(main.mapBlockIndex, main.pindexBest, vHave[i])} ::
                  0 <= i < k ==> !OnMainChain(main.mapBlockIndex, main.pindexBest, vHave[i])
    {
      var hash := vHave[k];
      if hash in main.mapBlockIndex {
        var pindex := main.mapBlockIndex[hash];
        KeyInTree(main.mapBlockIndex, hash);
        var inMain := main.IsInMainChain(pindex);
        if inMain {
          assert FirstOnChain(main.mapBlockIndex, main.pindexBest, vHave, k);
          return nDistance;
        }
      }
      nDistance, nStep := NextStep(k, nDistance, nStep);
    }
  }

  /** The end of that loop's body. */
  method NextStep(ghost k: nat, nDistanceIn: int32, nStepIn: int32) returns (nDistance: int32, nStep: int32)
    requires k <= MaxForeign ==> nDistanceIn == Distance(k) && nStepIn == Step(k + 1)
    ensures k + 1 <= MaxForeign ==> nDistance == Distance(k + 1) && nStep == Step(k + 2)
  {
    nDistance, nStep := Wrap32(nDistanceIn + nStepIn), nStepIn;
    if nDistance > 10 {
      nStep := Wrap32(nStep * 2);
    }
    if k + 1 <= MaxForeign {
      ForeignFits(k + 1);
      DoublesTogether(k);
    }
  }

  lemma {:induction false} DoublesTogether(k: nat)
    ensures Distance(k + 1) == Distance(k) + Step(k + 1)
    ensures Step(k + 2) == if Distance(k + 1) > 10 then 2 * Step(k + 1) else Step(k + 1)
  {
    assert Pow(2, 0) == 1;
    DistanceStep(k);
    if k >= 10 {
      PowTwo(k - 10);
    }
  }
}
