/** Merkle trees of blocks: the flat array of BuildMerkleTree, branches, and what
    a branch proves. */
module Merkle {
  import opened Basics

  /** Hash of two hashes. */
  type PairHash = (uint256, uint256) -> uint256

  type Pair = (uint256, uint256)

  /** No two of these pairs have the same hash.  Asked only of the pairs that a computation
      hashes: no hash function tells all pairs apart. */
  ghost predicate NoCollision(f: PairHash, pairs: set<Pair>) {
    forall p, q :: p in pairs && q in pairs && f(p.0, p.1) == f(q.0, q.1) ==> p == q
  }

  // ----- the tree -----

  /** The tree by its definition: 2^h places, of which the first |leaves| are taken.
      A subtree with nothing in it is replaced by a copy of its left neighbour. */
  function Tree(f: PairHash, h: nat, leaves: seq<uint256>): uint256
    requires leaves != []
  {
    if h == 0 then leaves[0] else
    var half := Pow(2, h - 1);
    if |leaves| <= half then
      var left := Tree(f, h - 1, leaves);
      f(left, left)
    else
      f(Tree(f, h - 1, leaves[..half]), Tree(f, h - 1, leaves[half..]))
  }

  /** How many levels there are above n leaves. */
  function Height(n: nat): (h: nat) {
    if n <= 1 then 0 else 1 + Height((n + 1) / 2)
  }

  /** hashMerkleRoot: 0 for a block without transactions. */
  function MerkleRoot(f: PairHash, leaves: seq<uint256>): uint256 {
    if leaves == [] then 0 else Tree(f, Height(|leaves|), leaves)
  }

  /** The level above: neighbours are hashed together, the last one with itself if
      it has none. */
  function Up(f: PairHash, level: seq<uint256>): (r: seq<uint256>)
    ensures |r| == (|level| + 1) / 2
  {
    if level == [] then [] else
    if |level| == 1 then [f(level[0], level[0])] else [f(level[0], level[1])] + Up(f, level[2..])
  }

  lemma {:induction false} UpAt(f: PairHash, level: seq<uint256>, k: nat)
    requires 2 * k < |level|
    ensures Up(f, level)[k] == f(level[2 * k], level[Min(2 * k + 1, |level| - 1)])
  {
    if k > 0 {
      UpAt(f, level[2..], k - 1);
    }
  }

  lemma {:induction false} PowTwoStep(h: nat)
    requires h > 0
    ensures Pow(2, h) == 2 * Pow(2, h - 1)
  {
  }

  lemma {:induction false} TreePair(f: PairHash, h: nat, v: seq<uint256>, w: seq<uint256>)
    requires h > 0 && |v| == Pow(2, h - 1) && w != []
    ensures Tree(f, h, v + w) == f(Tree(f, h - 1, v), Tree(f, h - 1, w))
  {
    SplitFront(v, w);
  }

  lemma {:induction false} TreeCopy(f: PairHash, h: nat, v: seq<uint256>)
    requires h > 0 && 0 < |v| <= Pow(2, h - 1)
    ensures Tree(f, h, v) == f(Tree(f, h - 1, v), Tree(f, h - 1, v))
  {
  }

  /** Going up one level takes one off the height. */
  lemma {:induction false} TreeUp(f: PairHash, h: nat, leaves: seq<uint256>)
    requires h > 0 && leaves != [] && |leaves| <= Pow(2, h)
    ensures Tree(f, h, leaves) == Tree(f, h - 1, Up(f, leaves))
    decreases h, 0
  {
    PowTwoStep(h);
    if h == 1 {
      assert Pow(2, 0) == 1;
    } else {
      PowTwoStep(h - 1);
      var half := Pow(2, h - 1);
      if |leaves| <= half {
        TreeUp(f, h - 1, leaves);
        TreeCopy(f, h, leaves);
        TreeCopy(f, h - 1, Up(f, leaves));
      } else {
        TreeUpPair(f, h, leaves[..half], leaves[half..]);
        assert leaves == leaves[..half] + leaves[half..];
      }
    }
  }

  lemma {:induction false} TreeUpPair(f: PairHash, h: nat, v: seq<uint256>, w: seq<uint256>)
    requires h > 1 && |v| == Pow(2, h - 1) == 2 * Pow(2, h - 2) && 0 < |w| <= Pow(2, h - 1)
    ensures Tree(f, h, v + w) == Tree(f, h - 1, Up(f, v + w))
    decreases h - 1, 1
  {
    TreeUp(f, h - 1, v);
    TreeUp(f, h - 1, w);
    UpSplit(f, v + w, Pow(2, h - 2));
    SplitFront(v, w);
    TreePair(f, h, v, w);
    TreePair(f, h - 1, Up(f, v), Up(f, w));
  }

  lemma {:induction false} UpSplit(f: PairHash, leaves: seq<uint256>, q: nat)
    requires 2 * q <= |leaves|
    ensures Up(f, leaves) == Up(f, leaves[..2 * q]) + Up(f, leaves[2 * q..])
  {
    if q == 0 {
      assert leaves[..0] == [] && leaves[0..] == leaves;
    } else {
      UpSplit(f, leaves[2..], q - 1);
      assert leaves[2..][..2 * (q - 1)] == leaves[..2 * q][2..];
      DropDrop(leaves, 2, 2 * (q - 1));
      Regroup([f(leaves[0], leaves[1])], Up(f, leaves[..2 * q][2..]), Up(f, leaves[2 * q..]));
    }
  }

  lemma {:induction false} HeightFits(n: nat)
    ensures n <= Pow(2, Height(n))
  {
    if n > 1 {
      HeightFits((n + 1) / 2);
      PowTwoStep(Height(n));
    }
  }

  /** The root of a block is the root of the level above its transactions. */
  lemma {:induction false} RootUp(f: PairHash, leaves: seq<uint256>)
    requires |leaves| > 1
    ensures MerkleRoot(f, leaves) == MerkleRoot(f, Up(f, leaves))
  {
    HeightFits(|leaves|);
    TreeUp(f, Height(|leaves|), leaves);
  }

  /** The left of a pair is hashed first, and an odd one with itself. */
  lemma {:induction false} RootOfFew(f: PairHash, a: uint256, b: uint256, c: uint256)
    ensures MerkleRoot(f, [a]) == a && MerkleRoot(f, [a, b]) == f(a, b)
    ensures MerkleRoot(f, [a, b, c]) == f(f(a, b), f(c, c))
  {
    RootUp(f, [a, b]);
    RootUp(f, [a, b, c]);
    RootUp(f, [f(a, b), f(c, c)]);
    assert [a, b][2..] == [] && [a, b, c][2..] == [c] && [f(a, b), f(c, c)][2..] == [];
    assert Up(f, [a, b]) == [f(a, b)] && Up(f, [a, b, c]) == [f(a, b), f(c, c)];
    assert Up(f, [f(a, b), f(c, c)]) == [f(f(a, b), f(c, c))];
  }

  // ----- branches -----

  /** The other one of a pair, or the item itself at the odd end. */
  function Sibling(i: nat, n: nat): nat
    requires i < n
  {
    Min(if i % 2 == 0 then i + 1 else i - 1, n - 1)
  }

  function Branch(f: PairHash, leaves: seq<uint256>, i: nat): seq<uint256>
    requires i < |leaves|
    decreases |leaves|
  {
    if |leaves| == 1 then [] else [leaves[Sibling(i, |leaves|)]] + Branch(f, Up(f, leaves), i / 2)
  }

  /** What CheckMerkleBranch computes for an index other than -1.  The index is a
      two's complement number, shifted arithmetically. */
  function Folded(f: PairHash, hash: uint256, branch: seq<uint256>, nIndex: int): uint256
    decreases |branch|
  {
    if branch == [] then hash
    else Folded(f, if nIndex % 2 == 1 then f(branch[0], hash) else f(hash, branch[0]), branch[1..], nIndex / 2)
  }

  /** CBlock::CheckMerkleBranch */
  method CheckMerkleBranch(f: PairHash, hashIn: uint256, vMerkleBranch: seq<uint256>, nIndexIn: int32) returns (hash: uint256)
    ensures hash == if nIndexIn == -1 then 0 else Folded(f, hashIn, vMerkleBranch, nIndexIn)
  {
    hash := hashIn;
    var nIndex: int := nIndexIn;
    if nIndex == -1 {
      return 0;
    }
    for k := 0 to |vMerkleBranch|
      invariant Folded(f, hashIn, vMerkleBranch, nIndexIn) == Folded(f, hash, vMerkleBranch[k..], nIndex)
    {
      var otherside := vMerkleBranch[k];
      assert vMerkleBranch[k..][1..] == vMerkleBranch[k + 1..];
      if nIndex % 2 == 1 {
        hash := f(otherside, hash);
      } else {
        hash := f(hash, otherside);
      }
      nIndex := nIndex / 2;
    }
  }

  /** Every transaction's branch leads to the root. */
  lemma {:induction false} BranchLeadsToRoot(f: PairHash, leaves: seq<uint256>, i: nat)
    requires i < |leaves|
    ensures Folded(f, leaves[i], Branch(f, leaves, i), i) == MerkleRoot(f, leaves)
    ensures |Branch(f, leaves, i)| == Height(|leaves|)
    decreases |leaves|
  {
    if |leaves| > 1 {
      var up, more := Up(f, leaves), Branch(f, Up(f, leaves), i / 2);
      RootUp(f, leaves);
      BranchLeadsToRoot(f, up, i / 2);
      PairedUp(f, leaves, i);
      FoldedCons(f, leaves[i], leaves[Sibling(i, |leaves|)], more, i);
    }
  }

  lemma {:induction false} FoldedCons(f: PairHash, hash: uint256, otherside: uint256, more: seq<uint256>, nIndex: int)
    ensures Folded(f, hash, [otherside] + more, nIndex)
         == Folded(f, if nIndex % 2 == 1 then f(otherside, hash) else f(hash, otherside), more, nIndex / 2)
  {
    assert ([otherside] + more)[1..] == more;
  }

  /** An item hashed with its sibling, on the right side, is the item above. */
  lemma {:induction false} PairedUp(f: PairHash, leaves: seq<uint256>, i: nat)
    requires i < |leaves|
    ensures var s := leaves[Sibling(i, |leaves|)];
            Up(f, leaves)[i / 2] == if i % 2 == 1 then f(s, leaves[i]) else f(leaves[i], s)
  {
    UpAt(f, leaves, i / 2);
  }

  function Join(f: PairHash, hash: uint256, otherside: uint256, nIndex: int): uint256 {
    if nIndex % 2 == 1 then f(otherside, hash) else f(hash, otherside)
  }

  /** The pairs that CheckMerkleBranch hashes. */
  function FoldedPairs(f: PairHash, hash: uint256, branch: seq<uint256>, nIndex: int): set<Pair>
    decreases |branch|
  {
    if branch == [] then {} else
    {if nIndex % 2 == 1 then (branch[0], hash) else (hash, branch[0])}
    + FoldedPairs(f, Join(f, hash, branch[0], nIndex), branch[1..], nIndex / 2)
  }

  /** Two branches of the same length and index with the same result are the same
      branch of the same hash. */
  lemma {:induction false} FoldedInjective(f: PairHash, a: uint256, v: seq<uint256>, b: uint256, w: seq<uint256>, nIndex: int, pairs: set<Pair>)
    requires NoCollision(f, pairs) && FoldedPairs(f, a, v, nIndex) <= pairs && FoldedPairs(f, b, w, nIndex) <= pairs
    requires |v| == |w| && Folded(f, a, v, nIndex) == Folded(f, b, w, nIndex)
    ensures a == b && v == w
    decreases |v|
  {
    if v != [] {
      FoldedInjective(f, Join(f, a, v[0], nIndex), v[1..], Join(f, b, w[0], nIndex), w[1..], nIndex / 2, pairs);
      var p: Pair := if nIndex % 2 == 1 then (v[0], a) else (a, v[0]);
      var q: Pair := if nIndex % 2 == 1 then (w[0], b) else (b, w[0]);
      assert p in pairs && q in pairs;
      assert v == [v[0]] + v[1..] && w == [w[0]] + w[1..];
    }
  }

  /** A branch of the tree's height that leads to the root proves exactly that the
      hash is the transaction at that index. */
  lemma {:induction false} BranchProves(f: PairHash, leaves: seq<uint256>, i: nat, hash: uint256, branch: seq<uint256>)
    requires i < |leaves| && |branch| == Height(|leaves|)
    requires NoCollision(f, FoldedPairs(f, hash, branch, i) + FoldedPairs(f, leaves[i], Branch(f, leaves, i), i))
    ensures Folded(f, hash, branch, i) == MerkleRoot(f, leaves) <==> hash == leaves[i] && branch == Branch(f, leaves, i)
  {
    BranchLeadsToRoot(f, leaves, i);
    if Folded(f, hash, branch, i) == MerkleRoot(f, leaves) {
      FoldedInjective(f, hash, branch, leaves[i], Branch(f, leaves, i), i,
                      FoldedPairs(f, hash, branch, i) + FoldedPairs(f, leaves[i], Branch(f, leaves, i), i));
    }
  }

  // ----- when two lists have the same root -----

  datatype Perfect = Leaf(hash: uint256) | Node(left: Perfect, right: Perfect)

  function PerfectRoot(f: PairHash, t: Perfect): uint256 {
    match t
    case Leaf(hash) => hash
    case Node(left, right) => f(PerfectRoot(f, left), PerfectRoot(f, right))
  }

  predicate OfHeight(t: Perfect, h: nat) {
    match t
    case Leaf(_) => h == 0
    case Node(left, right) => h > 0 && OfHeight(left, h - 1) && OfHeight(right, h - 1)
  }

  /** The pairs that are hashed in a tree. */
  function PairsOf(f: PairHash, t: Perfect): set<Pair> {
    match t
    case Leaf(_) => {}
    case Node(left, right) => PairsOf(f, left) + PairsOf(f, right) + {(PerfectRoot(f, left), PerfectRoot(f, right))}
  }

  lemma {:induction false} PerfectInjective(f: PairHash, s: Perfect, t: Perfect, h: nat, pairs: set<Pair>)
    requires NoCollision(f, pairs) && PairsOf(f, s) <= pairs && PairsOf(f, t) <= pairs
    requires OfHeight(s, h) && OfHeight(t, h)
    ensures PerfectRoot(f, s) == PerfectRoot(f, t) <==> s == t
  {
    if h > 0 {
      var p: Pair, q: Pair := (PerfectRoot(f, s.left), PerfectRoot(f, s.right)), (PerfectRoot(f, t.left), PerfectRoot(f, t.right));
      assert p in pairs && q in pairs;
      PerfectInjective(f, s.left, t.left, h - 1, pairs);
      PerfectInjective(f, s.right, t.right, h - 1, pairs);
    }
  }

  /** What of v is on the left of the root, and what on the right. */
  function LeftOf(v: seq<uint256>, half: nat): (r: seq<uint256>)
    requires v != [] && half > 0
    ensures r != []
  {
    if |v| <= half then v else v[..half]
  }

  function RightOf(v: seq<uint256>, half: nat): (r: seq<uint256>)
    requires v != [] && half > 0
    ensures r != []
  {
    if |v| <= half then v else v[half..]
  }

  /** The tree with all its 2^h leaves, copies of left neighbours filled in. */
  function Full(h: nat, v: seq<uint256>): (t: Perfect)
    requires v != []
    ensures OfHeight(t, h)
  {
    if h == 0 then Leaf(v[0]) else
    var half := Pow(2, h - 1);
    Node(Full(h - 1, LeftOf(v, half)), Full(h - 1, RightOf(v, half)))
  }

  lemma {:induction false} TreeIsFull(f: PairHash, h: nat, v: seq<uint256>)
    requires v != []
    ensures Tree(f, h, v) == PerfectRoot(f, Full(h, v))
  {
    if h > 0 {
      var half := Pow(2, h - 1);
      TreeIsFull(f, h - 1, LeftOf(v, half));
      TreeIsFull(f, h - 1, RightOf(v, half));
    }
  }

  /** Two trees with the same full tree have the same root, whatever the hash. */
  lemma {:induction false} FullDecides(f: PairHash, h: nat, v: seq<uint256>, w: seq<uint256>)
    requires v != [] && w != [] && Full(h, v) == Full(h, w)
    ensures Tree(f, h, v) == Tree(f, h, w)
  {
    TreeIsFull(f, h, v);
    TreeIsFull(f, h, w);
  }

  // What is in a full tree, leaf by leaf.

  function LeafAt(t: Perfect, h: nat, i: nat): uint256
    requires OfHeight(t, h)
  {
    if h == 0 then t.hash
    else if i < Pow(2, h - 1) then LeafAt(t.left, h - 1, i)
    else LeafAt(t.right, h - 1, i - Pow(2, h - 1))
  }

  /** Where in a list of n items leaf i of its full tree comes from. */
  function Origin(h: nat, n: nat, i: nat): (k: nat)
    requires n > 0
    ensures k < n
  {
    if h == 0 then 0 else
    var half := Pow(2, h - 1);
    if i < half then Origin(h - 1, Min(n, half), i)
    else if n <= half then Origin(h - 1, n, i - half)
    else half + Origin(h - 1, n - half, i - half)
  }

  lemma {:induction false} LeafStep(h: nat, v: seq<uint256>, half: nat, i: nat)
    requires v != [] && h > 0 && half == Pow(2, h - 1)
    ensures LeafAt(Full(h, v), h, i) ==
            if i < half then LeafAt(Full(h - 1, LeftOf(v, half)), h - 1, i)
            else LeafAt(Full(h - 1, RightOf(v, half)), h - 1, i - half)
  {
  }

  lemma {:induction false} FullAt(h: nat, v: seq<uint256>, i: nat)
    requires v != []
    ensures LeafAt(Full(h, v), h, i) == v[Origin(h, |v|, i)]
  {
    if h > 0 {
      var half := Pow(2, h - 1);
      LeafStep(h, v, half, i);
      if i < half {
        FullAt(h - 1, LeftOf(v, half), i);
        HalfAt(v, half, Origin(h - 1, Min(|v|, half), i));
      } else {
        FullAt(h - 1, RightOf(v, half), i - half);
        HalfAt(v, half, Origin(h - 1, if |v| <= half then |v| else |v| - half, i - half));
      }
    }
  }

  lemma {:induction false} HalfAt(v: seq<uint256>, half: nat, k: nat)
    requires v != [] && half > 0
    ensures |LeftOf(v, half)| == Min(|v|, half) && (k < Min(|v|, half) ==> LeftOf(v, half)[k] == v[k])
    ensures |RightOf(v, half)| == if |v| <= half then |v| else |v| - half
    ensures k < |RightOf(v, half)| ==> RightOf(v, half)[k] == v[if |v| <= half then k else half + k]
  {
  }

  /** What is in the list stays in its place. */
  lemma {:induction false} OriginOfOwn(h: nat, n: nat, i: nat)
    requires i < n <= Pow(2, h)
    ensures Origin(h, n, i) == i
  {
    if h == 0 {
      assert Pow(2, 0) == 1;
    } else {
      PowTwoStep(h);
      var half := Pow(2, h - 1);
      if i < half {
        OriginOfOwn(h - 1, Min(n, half), i);
      } else {
        OriginOfOwn(h - 1, n - half, i - half);
      }
    }
  }

  lemma {:induction false} FullInjective(h: nat, v: seq<uint256>, w: seq<uint256>)
    requires 0 < |v| == |w| <= Pow(2, h)
    ensures Full(h, v) == Full(h, w) <==> v == w
  {
    if Full(h, v) == Full(h, w) {
      forall i | 0 <= i < |v|
        ensures v[i] == w[i]
      {
        FullAt(h, v, i);
        FullAt(h, w, i);
        OriginOfOwn(h, |v|, i);
      }
    }
  }

  // Trees of different heights.

  /** The level d levels above the leaves. */
  function Above(f: PairHash, d: nat, v: seq<uint256>): (r: seq<uint256>)
    ensures v != [] ==> r != []
    decreases d
  {
    if d == 0 then v else Above(f, d - 1, Up(f, v))
  }

  lemma {:induction false} TreeAbove(f: PairHash, h: nat, d: nat, v: seq<uint256>)
    requires 0 < |v| <= Pow(2, h + d)
    ensures Tree(f, h + d, v) == Tree(f, h, Above(f, d, v))
    decreases d
  {
    if d > 0 {
      TreeUpFits(f, h + d, v);
      TreeAbove(f, h, d - 1, Up(f, v));
    }
  }

  lemma {:induction false} TreeUpFits(f: PairHash, k: nat, v: seq<uint256>)
    requires k > 0 && 0 < |v| <= Pow(2, k)
    ensures Tree(f, k, v) == Tree(f, k - 1, Up(f, v)) && |Up(f, v)| <= Pow(2, k - 1)
  {
    PowTwoStep(k);
    TreeUp(f, k, v);
  }

  /** The level of v's tree that is h levels below its root. */
  function Below(f: PairHash, h: nat, v: seq<uint256>): seq<uint256>
    requires h <= Height(|v|)
  {
    Above(f, Height(|v|) - h, v)
  }

  /** The top h levels of v's tree. */
  function Top(f: PairHash, h: nat, v: seq<uint256>): (t: Perfect)
    requires v != [] && h <= Height(|v|)
    ensures OfHeight(t, h)
  {
    Full(h, Below(f, h, v))
  }

  lemma {:induction false} RootIsTop(f: PairHash, h: nat, v: seq<uint256>)
    requires v != [] && h <= Height(|v|)
    ensures MerkleRoot(f, v) == PerfectRoot(f, Top(f, h, v))
  {
    RootIsTree(f, h, v);
    TreeIsFull(f, h, Below(f, h, v));
  }

  lemma {:induction false} RootIsTree(f: PairHash, h: nat, v: seq<uint256>)
    requires v != [] && h <= Height(|v|)
    ensures MerkleRoot(f, v) == Tree(f, h, Below(f, h, v))
  {
    HeightFits(|v|);
    TreeAbove(f, h, Height(|v|) - h, v);
  }

  lemma {:induction false} WholeTop(f: PairHash, v: seq<uint256>)
    requires v != []
    ensures Top(f, Height(|v|), v) == Full(Height(|v|), v)
  {
  }

  /** Two lists have the same root exactly if their trees have the same top, down to any
      level that both have: down to the leaves of the lower tree, say. */
  lemma {:induction false} SameRoot(f: PairHash, h: nat, v: seq<uint256>, w: seq<uint256>)
    requires v != [] && w != [] && h <= Height(|v|) && h <= Height(|w|)
    requires NoCollision(f, PairsOf(f, Top(f, h, v)) + PairsOf(f, Top(f, h, w)))
    ensures MerkleRoot(f, v) == MerkleRoot(f, w) <==> Top(f, h, v) == Top(f, h, w)
  {
    RootIsTop(f, h, v);
    RootIsTop(f, h, w);
    PerfectInjective(f, Top(f, h, v), Top(f, h, w), h, PairsOf(f, Top(f, h, v)) + PairsOf(f, Top(f, h, w)));
  }

  /** Lists whose trees have the same height have the same root exactly if these agree leaf
      by leaf, copies included. */
  lemma {:induction false} SameHeightRoot(f: PairHash, v: seq<uint256>, w: seq<uint256>)
    requires v != [] && w != [] && Height(|v|) == Height(|w|)
    requires NoCollision(f, PairsOf(f, Full(Height(|v|), v)) + PairsOf(f, Full(Height(|v|), w)))
    ensures MerkleRoot(f, v) == MerkleRoot(f, w) <==> Full(Height(|v|), v) == Full(Height(|v|), w)
  {
    WholeTop(f, v);
    WholeTop(f, w);
    SameRoot(f, Height(|v|), v, w);
  }

  /** Lists of the same length with the same root are the same. */
  lemma {:induction false} RootInjective(f: PairHash, v: seq<uint256>, w: seq<uint256>)
    requires |v| == |w|
    requires v != [] ==> NoCollision(f, PairsOf(f, Full(Height(|v|), v)) + PairsOf(f, Full(Height(|v|), w)))
    ensures MerkleRoot(f, v) == MerkleRoot(f, w) <==> v == w
  {
    if v != [] {
      SameHeightRoot(f, v, w);
      HeightFits(|v|);
      FullInjective(Height(|v|), v, w);
    }
  }

  // Lists of different lengths.

  /** The list with its last item twice. */
  function Repeated(v: seq<uint256>): seq<uint256>
    requires v != []
  {
    v + [v[|v| - 1]]
  }

  /** A last transaction without a partner may as well be there twice: the full tree is
      the same, and so is the root, whatever the hash. */
  lemma {:induction false} OddListRepeats(f: PairHash, v: seq<uint256>)
    requires |v| > 1 && |v| % 2 == 1
    ensures Height(|Repeated(v)|) == Height(|v|) && Full(Height(|v|), Repeated(v)) == Full(Height(|v|), v)
    ensures MerkleRoot(f, v) == MerkleRoot(f, Repeated(v))
  {
    HeightFits(|v|);
    HeightRepeats(|v|);
    FullRepeats(Height(|v|), v);
    FullDecides(f, Height(|v|), v, Repeated(v));
  }

  lemma {:induction false} HeightRepeats(n: nat)
    requires n > 1 && n % 2 == 1
    ensures Height(n + 1) == Height(n) > 0
  {
  }

  lemma {:induction false} FullRepeats(h: nat, v: seq<uint256>)
    requires |v| % 2 == 1 && |v| <= Pow(2, h) && h > 0
    ensures Full(h, Repeated(v)) == Full(h, v)
  {
    var w, half := Repeated(v), Pow(2, h - 1);
    PowTwoStep(h);
    if h == 1 {
      assert half == 1 && |v| == 1;
      assert LeftOf(w, 1) == v && RightOf(w, 1) == v;
    } else {
      PowTwoStep(h - 1);
      RepeatOnRight(v, half);
      if |v| <= half {
        FullRepeats(h - 1, v);
      } else {
        FullRepeats(h - 1, RightOf(v, half));
      }
    }
  }

  lemma {:induction false} RepeatOnRight(v: seq<uint256>, half: nat)
    requires |v| % 2 == 1 && half > 0 && half % 2 == 0
    ensures var w, r := Repeated(v), RightOf(v, half);
            if |v| <= half then LeftOf(w, half) == w == RightOf(w, half) && LeftOf(v, half) == v == r
            else |r| % 2 == 1 && |r| == |v| - half && LeftOf(w, half) == LeftOf(v, half) && RightOf(w, half) == Repeated(r)
  {
    if |v| > half {
      DropAppend(v, [v[|v| - 1]], half);
    }
  }

  /** The smallest case. */
  lemma {:induction false} OddEndRepeats(f: PairHash, a: uint256, b: uint256, c: uint256)
    ensures MerkleRoot(f, [a, b, c]) == MerkleRoot(f, [a, b, c, c])
  {
    OddListRepeats(f, [a, b, c]);
    assert Repeated([a, b, c]) == [a, b, c, c];
  }

  // ----- the flat array -----

  /** All levels, one after another, from the leaves up. */
  function Flat(f: PairHash, level: seq<uint256>): seq<uint256>
    decreases |level|
  {
    if |level| <= 1 then level else level + Flat(f, Up(f, level))
  }

  lemma {:induction false} FlatEndsInRoot(f: PairHash, level: seq<uint256>)
    requires level != []
    ensures var t := Flat(f, level); t != [] && t[|t| - 1] == MerkleRoot(f, level)
    decreases |level|
  {
    if |level| > 1 {
      RootUp(f, level);
      FlatEndsInRoot(f, Up(f, level));
    }
  }

  lemma {:induction false} LevelAt(tree: seq<uint256>, j: nat, level: seq<uint256>, rest: seq<uint256>, i: nat)
    requires j <= |tree| && tree[j..] == level + rest && i < |level|
    ensures j + |level| <= |tree| && tree[j + i] == level[i] && tree[j + |level|..] == rest
  {
    DropDrop(tree, j, |level|);
    SplitFront(level, rest);
    assert tree[j..][i] == level[i];
  }

  lemma {:induction false} PairAt(before: seq<uint256>, level: seq<uint256>, above: seq<uint256>, i: nat)
    requires i < |level|
    ensures |before| + i < |before + level + above| && (before + level + above)[|before| + i] == level[i]
  {
  }

  lemma {:induction false} UpStep(f: PairHash, level: seq<uint256>, i: nat)
    requires i < |level|
    ensures Up(f, level[i..]) == [f(level[i], level[Min(i + 1, |level| - 1)])] + if i + 2 < |level| then Up(f, level[i + 2..]) else []
  {
    if i + 2 <= |level| {
      DropDrop(level, i, 2);
    }
  }

  lemma {:induction false} BranchStep(f: PairHash, v: seq<uint256>, level: seq<uint256>, i: nat)
    requires i < |level| && |level| > 1
    ensures v + Branch(f, level, i) == v + [level[Sibling(i, |level|)]] + Branch(f, Up(f, level), i / 2)
  {
    Regroup(v, [level[Sibling(i, |level|)]], Branch(f, Up(f, level), i / 2));
  }

  /** A block's transaction hashes with the cached tree. */
  class CBlockTree {
    const vtx: seq<uint256>
    var vMerkleTree: seq<uint256>

    constructor (hashes: seq<uint256>)
      ensures vtx == hashes && vMerkleTree == []
    {
      vtx, vMerkleTree := hashes, [];
    }

    /** CBlock::BuildMerkleTree */
    method BuildMerkleTree(f: PairHash) returns (root: uint256)
      modifies this`vMerkleTree
      ensures vMerkleTree == Flat(f, vtx)
      ensures root == MerkleRoot(f, vtx)
    {
      vMerkleTree := vtx;
      ghost var level := vtx;  // the last level, at j
      ghost var before: seq<uint256> := [];
      var j := 0;
      var nSize := |vtx|;
      assert [] + level == level;
      while nSize > 1
        invariant nSize == |level| && j == |before| && vMerkleTree == before + level
        invariant Flat(f, vtx) == before + Flat(f, level)
        invariant vtx != [] ==> level != []
        decreases nSize
      {
        AppendLevel(f, j, nSize, before, level);
        Regroup(before, level, Flat(f, Up(f, level)));
        before, level := before + level, Up(f, level);
        j := j + nSize;
        nSize := (nSize + 1) / 2;
      }
      if vtx != [] {
        FlatEndsInRoot(f, vtx);
      }
      root := if vMerkleTree == [] then 0 else vMerkleTree[|vMerkleTree| - 1];
    }

    /** The inner loop: appends the level above the one at j. */
    method AppendLevel(f: PairHash, j: nat, nSize: nat, ghost before: seq<uint256>, ghost level: seq<uint256>)
      requires nSize == |level| && j == |before| && vMerkleTree == before + level
      modifies this`vMerkleTree
      ensures vMerkleTree == before + level + Up(f, level)
    {
      var i := 0;
      ghost var above: seq<uint256> := [];
      while i < nSize
        invariant 0 <= i <= nSize + 1
        invariant vMerkleTree == before + level + above
        invariant Up(f, level) == above + if i < nSize then Up(f, level[i..]) else []
        invariant i > nSize ==> above == Up(f, level)
      {
        var i2 := Min(i + 1, nSize - 1);
        PairAt(before, level, above, i);
        PairAt(before, level, above, i2);
        ghost var pair := [f(level[i], level[i2])];
        UpStep(f, level, i);
        Regroup(above, pair, if i + 2 < nSize then Up(f, level[i + 2..]) else []);
        Regroup(before + level, above, pair);
        vMerkleTree := vMerkleTree + [f(vMerkleTree[j + i], vMerkleTree[j + i2])];
        above := above + pair;
        i := i + 2;
      }
    }

    /** One step of GetMerkleBranch: the sibling in the level at j. */
    method TakeSibling(f: PairHash, j: nat, nSize: nat, nIndex: nat, ghost level: seq<uint256>) returns (otherside: uint256)
      requires nIndex < nSize == |level| && nSize > 1 && j <= |vMerkleTree| && vMerkleTree[j..] == Flat(f, level)
      ensures otherside == level[Sibling(nIndex, nSize)]
      ensures j + nSize <= |vMerkleTree| && vMerkleTree[j + nSize..] == Flat(f, Up(f, level))
    {
      var i := Min(if nIndex % 2 == 0 then nIndex + 1 else nIndex - 1, nSize - 1);
      LevelAt(vMerkleTree, j, level, Flat(f, Up(f, level)), i);
      otherside := vMerkleTree[j + i];
    }

    /** CBlock::GetMerkleBranch */
    method GetMerkleBranch(f: PairHash, nIndexIn: nat) returns (vMerkleBranch: seq<uint256>)
      requires nIndexIn < |vtx| && (vMerkleTree != [] ==> vMerkleTree == Flat(f, vtx))
      modifies this`vMerkleTree
      ensures vMerkleTree == Flat(f, vtx)
      ensures vMerkleBranch == Branch(f, vtx, nIndexIn)
    {
      if vMerkleTree == [] {
        var _ := BuildMerkleTree(f);
      }
      vMerkleBranch := [];
      var nIndex: nat := nIndexIn;
      ghost var level := vtx;
      var j := 0;
      var nSize := |vtx|;
      while nSize > 1
        invariant nSize == |level| && nIndex < nSize && j <= |vMerkleTree|
        invariant vMerkleTree == Flat(f, vtx) && vMerkleTree[j..] == Flat(f, level)
        invariant Branch(f, vtx, nIndexIn) == vMerkleBranch + Branch(f, level, nIndex)
        decreases nSize
      {
        var otherside := TakeSibling(f, j, nSize, nIndex, level);
        BranchStep(f, vMerkleBranch, level, nIndex);
        vMerkleBranch := vMerkleBranch + [otherside];
        level := Up(f, level);
        nIndex := nIndex / 2;
        j := j + nSize;
        nSize := (nSize + 1) / 2;
      }
    }
  }
}
