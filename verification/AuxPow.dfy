/** Merged mining: which aux proofs are accepted, and that one parent coinbase
    commits to one aux block only. */
module AuxPow {
  import opened Basics
  import opened ByteSearch
  import Serialize
  import opened Merkle

  const pchMergedMiningHeader: seq<byte> := [0xfa, 0xbe, 0x6d, 0x6d]
  const BLOCK_VERSION_CHAIN_START := 0x1_0000

  type CAuxPow = Serialize.CAuxPow

  function ChainID(nVersion: int32): int {
    TruncDiv(nVersion, BLOCK_VERSION_CHAIN_START)
  }

  /** A hash with its most significant byte first. */
  function BigEndian(n: uint256): (r: seq<byte>)
    ensures |r| == 32
  {
    Reverse(LE(n, 32))
  }

  lemma {:induction false} BigEndianInjective(m: uint256, n: uint256)
    requires BigEndian(m) == BigEndian(n)
    ensures m == n
  {
    var a, b := LE(m, 32), LE(n, 32);
    assert a == b by {
      forall k | 0 <= k < 32 ensures a[k] == b[k] {
        assert BigEndian(m)[31 - k] == a[k] && BigEndian(n)[31 - k] == b[k];
      }
    }
    Pow256Values();
    FromLEOfLE(m, 32);
    FromLEOfLE(n, 32);
  }

  /** Its byte k has the weight 256 to the 31 - k. */
  lemma {:induction false} BigEndianAt(n: uint256, k: nat)
    requires k < 32
    ensures BigEndian(n)[k] == n / Pow(256, 31 - k) % 256
  {
    LEAt(n, 32, 31 - k);
    assert BigEndian(n)[k] == LE(n, 32)[31 - k];
  }

  /** A version made of a chain and flags below BLOCK_VERSION_CHAIN_START is of that chain. */
  lemma {:induction false} ChainIDReads(id: nat, flags: nat)
    requires id < 0x8000 && flags < BLOCK_VERSION_CHAIN_START
    ensures ChainID(id * BLOCK_VERSION_CHAIN_START + flags) == id
  {
  }

  /** The result of CheckMerkleBranch. */
  function BranchRoot(f: PairHash, hash: uint256, branch: seq<uint256>, nIndex: int32): uint256 {
    if nIndex == -1 then 0 else Folded(f, hash, branch, nIndex)
  }

  /** Factor and summand of the random step. */
  const A := 1103515245
  const C := 12345

  /** The place a chain has among 2^k chains, for a given nonce. */
  function Slot(nNonce: nat, nChainID: int32, nSize: nat): nat
    requires nSize > 0
  {
    var r1 := (nNonce * A + C) % 0x1_0000_0000;
    var r2 := (r1 + OfInt32(nChainID)) % 0x1_0000_0000;
    (r2 * A + C) % 0x1_0000_0000 % nSize
  }

  /** The place is that of the polynomial, computed without any limit and reduced once:
      the steps of 32 bits on the way lose nothing, because the size is a power of two. */
  lemma {:induction false} SlotIsPolynomial(nNonce: nat, nChainID: int32, k: nat)
    requires k <= 30
    ensures Slot(nNonce, nChainID, Pow(2, k)) == (A * (A * nNonce + C + nChainID) + C) % Pow(2, k)
  {
    var M := 0x1_0000_0000;
    var size, x := Pow(2, k), A * (A * nNonce + C + nChainID) + C;
    var r1 := (nNonce * A + C) % M;
    var r2 := (r1 + OfInt32(nChainID)) % M;
    var t1, t2 := (nNonce * A + C) / M, (r1 + OfInt32(nChainID)) / M;
    var t0 := if nChainID >= 0 then 0 else 1;
    assert r2 == A * nNonce + C + nChainID + M * (t0 - t1 - t2);
    var y := r2 * A + C;
    assert y == x + M * (A * (t0 - t1 - t2));
    ModAdd(x, M, A * (t0 - t1 - t2));
    assert y % M == x % M;
    TwoToThe32(k);
    ModOfMod(x, size, Pow(2, 32 - k));
  }

  lemma {:induction false} TwoToThe32(k: nat)
    requires k <= 30
    ensures Pow(2, k) * Pow(2, 32 - k) == 0x1_0000_0000
  {
    PowAdd(2, k, 32 - k);
    PowTwoThirty();
    PowAdd(2, 30, 2);
    assert Pow(2, 1) == 2 * Pow(2, 0);
  }

  /** Two chains get the same place exactly if their IDs agree modulo the size. */
  lemma {:induction false} SlotsClash(nNonce: nat, a: int32, b: int32, k: nat)
    requires k <= 30
    ensures Slot(nNonce, a, Pow(2, k)) == Slot(nNonce, b, Pow(2, k)) <==> (a - b) % Pow(2, k) == 0
  {
    SlotIsPolynomial(nNonce, a, k);
    SlotIsPolynomial(nNonce, b, k);
    var m, z := Pow(2, k), A * (A * nNonce + C) + C;
    assert A * (A * nNonce + C + a) + C == z + A * a && A * (A * nNonce + C + b) + C == z + A * b;
    SameModulo(z + A * a, z + A * b, m);
    OddFactor(a - b, k);
    assert (z + A * a) - (z + A * b) == A * (a - b);
  }

  /** The factor of the random step is odd, so it has an inverse modulo every power of two. */
  lemma {:induction false} OddFactor(d: int, k: nat)
    requires k <= 30
    ensures A * d % Pow(2, k) == 0 <==> d % Pow(2, k) == 0
  {
    var m, p := Pow(2, k), Pow(2, 32 - k);
    TwoToThe32(k);
    if d % m == 0 {
      var q := d / m;
      assert A * d == m * (A * q);
      ModAdd(0, m, A * q);
    }
    if A * d % m == 0 {
      Inverse(d, m, p, A * d / m);
    }
  }

  lemma {:induction false} Inverse(d: int, m: nat, p: nat, q: int)
    requires m > 0 && m * p == 0x1_0000_0000 && A * d == m * q
    ensures d % m == 0
  {
    var inverse, over := 4005161829, 1029054899;
    var e := over * d;
    assert d == inverse * (A * d) - 0x1_0000_0000 * e;
    MulAssoc(m, q, inverse);
    MulAssoc(m, p, e);
    Distribute(m, q * inverse, p * e);
    ModAdd(0, m, q * inverse - p * e);
  }

  /** root lies at position pc of the coinbase script and nowhere earlier. */
  ghost predicate FirstAt(script: seq<byte>, pat: seq<byte>, pc: nat) {
    Occurs(script, pat, pc) && forall p: nat :: Occurs(script, pat, p) ==> pc <= p
  }

  ghost predicate Nowhere(script: seq<byte>, pat: seq<byte>) {
    forall p: nat :: !Occurs(script, pat, p)
  }

  ghost predicate Once(script: seq<byte>, pat: seq<byte>, pc: nat) {
    Occurs(script, pat, pc) && forall p: nat :: Occurs(script, pat, p) ==> p == pc
  }

  /** The root stands just after the only merged mining header; without any header it
      stands in the first 20 bytes. */
  ghost predicate WellPlaced(script: seq<byte>, pc: nat) {
    if !Nowhere(script, pchMergedMiningHeader)
    then pc >= 4 && Once(script, pchMergedMiningHeader, pc - 4)
    else pc <= 20
  }

  /** What an aux proof says about its own side: a block, and its place in the tree of
      merged chains. */
  datatype Claim = Claim(hashAuxBlock: uint256, vChainMerkleBranch: seq<uint256>, nChainIndex: int32)
  {
    function Root(f: PairHash): uint256 {
      BranchRoot(f, hashAuxBlock, vChainMerkleBranch, nChainIndex)
    }
  }

  function ClaimOf(ap: CAuxPow, hashAuxBlock: uint256): Claim {
    Claim(hashAuxBlock, ap.vChainMerkleBranch, ap.nChainIndex)
  }

  /** The tree size after the root at pc is 2^k, and a nonce follows. */
  ghost predicate SizeAt(script: seq<byte>, pc: nat, k: nat) {
    pc + 40 <= |script| && k <= 30 && FromLE(script[pc + 32..pc + 36]) == Pow(2, k)
  }

  function SlotAt(script: seq<byte>, pc: nat, nChainID: int32, k: nat): nat
    requires pc + 40 <= |script|
  {
    Slot(FromLE(script[pc + 36..pc + 40]), nChainID, Pow(2, k))
  }

  /** Tree size and nonce follow the root, and fix the index. */
  ghost predicate SlotFits(script: seq<byte>, pc: nat, x: Claim, nChainID: int32) {
    var k := |x.vChainMerkleBranch|;
    SizeAt(script, pc, k) && OfInt32(x.nChainIndex) == SlotAt(script, pc, nChainID, k)
  }

  /** The script commits at pc to what x claims. */
  ghost predicate Commits(f: PairHash, script: seq<byte>, pc: nat, x: Claim, nChainID: int32) {
    && FirstAt(script, BigEndian(x.Root(f)), pc)
    && WellPlaced(script, pc) && SlotFits(script, pc, x, nChainID)
  }

  /** What a pool puts behind its own bytes: the header, the root, the size and the nonce. */
  function CommitScript(front: seq<byte>, root: uint256, nSize: uint32, nNonce: uint32, back: seq<byte>): seq<byte> {
    front + pchMergedMiningHeader + BigEndian(root) + LE(nSize, 4) + LE(nNonce, 4) + back
  }

  lemma {:induction false} CommitScriptReads(front: seq<byte>, root: uint256, nSize: uint32, nNonce: uint32, back: seq<byte>, pc: nat)
    requires pc == |front| + |pchMergedMiningHeader|
    ensures var s := CommitScript(front, root, nSize, nNonce, back);
            && pc + 40 <= |s| && FromLE(s[pc + 32..pc + 36]) == nSize && FromLE(s[pc + 36..pc + 40]) == nNonce
  {
    var s := CommitScript(front, root, nSize, nNonce, back);
    Pow256Values();
    FromLEOfLE(nSize, 4);
    FromLEOfLE(nNonce, 4);
    assert s[pc + 32..pc + 36] == LE(nSize, 4) && s[pc + 36..pc + 40] == LE(nNonce, 4);
  }

  /** Where header and root are not also elsewhere in it, such a script commits to a claim
      with this root exactly if size and index are the right ones. */
  lemma {:induction false} MadeCommits(f: PairHash, front: seq<byte>, back: seq<byte>, nSize: uint32, nNonce: uint32, x: Claim, nChainID: int32)
    requires var s, pc := CommitScript(front, x.Root(f), nSize, nNonce, back), |front| + 4;
             Once(s, pchMergedMiningHeader, |front|) && FirstAt(s, BigEndian(x.Root(f)), pc)
    ensures var s, k := CommitScript(front, x.Root(f), nSize, nNonce, back), |x.vChainMerkleBranch|;
            Commits(f, s, |front| + 4, x, nChainID) <==> k <= 30 && nSize == Pow(2, k) && x.nChainIndex == Slot(nNonce, nChainID, nSize)
  {
    CommitScriptReads(front, x.Root(f), nSize, nNonce, back, |front| + 4);
    if |x.vChainMerkleBranch| <= 30 {
      SlotIsSmall(nNonce, nChainID, |x.vChainMerkleBranch|);
    }
  }

  lemma {:induction false} SlotIsSmall(nNonce: nat, nChainID: int32, k: nat)
    requires k <= 30
    ensures Slot(nNonce, nChainID, Pow(2, k)) < 0x8000_0000
  {
    PowMono(2, k, 30);
    PowTwoThirty();
    SlotBelow(nNonce, nChainID, Pow(2, k));
  }

  lemma {:induction false} SlotBelow(nNonce: nat, nChainID: int32, nSize: nat)
    requires nSize > 0
    ensures Slot(nNonce, nChainID, nSize) < nSize
  {
  }

  /** An aux proof of hashAuxBlock for chain nChainID is acceptable. */
  ghost predicate Accepted(f: PairHash, hashTx: Serialize.CTransaction -> uint256, fTestNet: bool,
                           ap: CAuxPow, hashAuxBlock: uint256, nChainID: int32)
    requires ap.tx.vin != []
  {
    && ap.nIndex == 0 && (fTestNet || ChainID(ap.parentBlock.nVersion) != nChainID)
    && Folded(f, hashTx(ap.tx), ap.vMerkleBranch, 0) == ap.parentBlock.hashMerkleRoot
    && exists pc: nat :: Commits(f, ap.tx.vin[0].scriptSig, pc, ClaimOf(ap, hashAuxBlock), nChainID)
  }

  // ----- the check -----

  lemma {:induction false} SearchIsFirst(s: seq<byte>, pat: seq<byte>)
    requires pat != []
    ensures Search(s, pat) < |s| ==> FirstAt(s, pat, Search(s, pat))
    ensures Search(s, pat) == |s| ==> Nowhere(s, pat)
  {
    SearchFinds(s, pat);
    forall p: nat | Occurs(s, pat, p)
      ensures Search(s, pat) <= p && Search(s, pat) < |s|
    {
      SearchFirst(s, pat, p);
    }
  }

  lemma {:induction false} OccursAfter(s: seq<byte>, pat: seq<byte>, k: nat, p: nat)
    requires k <= |s|
    ensures Occurs(s[k..], pat, p) <==> Occurs(s, pat, k + p)
  {
    if k + p <= |s| {
      DropDrop(s, k, p);
    }
  }

  /** The header rule, by three searches. */
  method CheckHeader(script: seq<byte>, pc: nat) returns (ok: bool)
    ensures ok <==> WellPlaced(script, pc)
  {
    var pcHead := Search(script, pchMergedMiningHeader);
    SearchIsFirst(script, pchMergedMiningHeader);
    if pcHead != |script| {
      // An occurrence after the first one starts one byte later at the earliest.
      var rest := script[pcHead + 1..];
      SearchIsFirst(rest, pchMergedMiningHeader);
      OnlyOnce(script, pcHead, rest);
      if Search(rest, pchMergedMiningHeader) != |rest| {
        return false;
      }
      return pcHead + 4 == pc;
    }
    return pc <= 20;
  }

  lemma {:induction false} OnlyOnce(script: seq<byte>, pcHead: nat, rest: seq<byte>)
    requires FirstAt(script, pchMergedMiningHeader, pcHead) && pcHead < |script| && rest == script[pcHead + 1..]
    ensures Once(script, pchMergedMiningHeader, pcHead) <==> Nowhere(rest, pchMergedMiningHeader)
  {
    if !Nowhere(rest, pchMergedMiningHeader) {
      var p: nat :| Occurs(rest, pchMergedMiningHeader, p);
      OccursAfter(script, pchMergedMiningHeader, pcHead + 1, p);
    } else {
      forall p: nat | Occurs(script, pchMergedMiningHeader, p)
        ensures p == pcHead
      {
        if p > pcHead {
          OccursAfter(script, pchMergedMiningHeader, pcHead + 1, p - (pcHead + 1));
        }
      }
    }
  }

  /** The size and nonce after the root at pc. */
  method CheckSlot(script: seq<byte>, pcRoot: nat, ap: CAuxPow, ghost hashAuxBlock: uint256, nChainID: int32) returns (ok: bool)
    requires pcRoot + 32 <= |script| && |ap.vChainMerkleBranch| <= 30
    ensures ok <==> SlotFits(script, pcRoot, ClaimOf(ap, hashAuxBlock), nChainID)
  {
    var pc := pcRoot + 32;
    if |script| - pc < 8 {
      return false;
    }
    var nSize := FromLE(script[pc..pc + 4]);
    if nSize != Pow(2, |ap.vChainMerkleBranch|) {
      return false;
    }
    var nNonce := FromLE(script[pc + 4..pc + 8]);
    return OfInt32(ap.nChainIndex) == Slot(nNonce, nChainID, nSize);
  }

  lemma {:induction false} FirstIsUnique(script: seq<byte>, pat: seq<byte>, p: nat, q: nat)
    requires FirstAt(script, pat, p) && FirstAt(script, pat, q)
    ensures p == q
  {
  }

  /** CAuxPow::Check, for a coinbase with an input. */
  method Check(f: PairHash, hashTx: Serialize.CTransaction -> uint256, fTestNet: bool,
               ap: CAuxPow, hashAuxBlock: uint256, nChainID: int32) returns (ok: bool)
    requires ap.tx.vin != []
    ensures ok <==> Accepted(f, hashTx, fTestNet, ap, hashAuxBlock, nChainID)
  {
    if ap.nIndex != 0 {
      return false;
    }
    if !fTestNet && ChainID(ap.parentBlock.nVersion) == nChainID {
      return false;
    }
    var script := ap.tx.vin[0].scriptSig;
    if |ap.vChainMerkleBranch| > 30 {
      return false;
    }

    // The index is below 2^30 in any proof that CheckSlot lets through, so the 0 that
    // stands for index -1 can only be computed for one that fails.
    var nRootHash := CheckMerkleBranch(f, hashAuxBlock, ap.vChainMerkleBranch, ap.nChainIndex);
    var vchRootHash := BigEndian(nRootHash);

    var merkleRoot := CheckMerkleBranch(f, hashTx(ap.tx), ap.vMerkleBranch, ap.nIndex);
    if merkleRoot != ap.parentBlock.hashMerkleRoot {
      return false;
    }

    var pc := Search(script, vchRootHash);
    SearchIsFirst(script, vchRootHash);
    if pc == |script| {
      return false;
    }
    ok := CheckHeader(script, pc);
    if ok {
      ok := CheckSlot(script, pc, ap, hashAuxBlock, nChainID);
    }
    if ok {
      assert Commits(f, script, pc, ClaimOf(ap, hashAuxBlock), nChainID);
    } else {
      forall p: nat | Commits(f, script, p, ClaimOf(ap, hashAuxBlock), nChainID)
        ensures false
      {
        FirstIsUnique(script, vchRootHash, p, pc);
      }
    }
  }

  // ----- the parent block -----

  /** An accepted proof is one of a transaction of the parent block: where hashing does not
      collide, of its first one, the coinbase; and, off the test network, the parent is not
      a block of this chain. */
  lemma {:induction false} CoinbaseOfParent(f: PairHash, hashTx: Serialize.CTransaction -> uint256, fTestNet: bool,
                                            ap: CAuxPow, hashAuxBlock: uint256, nChainID: int32, leaves: seq<uint256>)
    requires ap.tx.vin != [] && Accepted(f, hashTx, fTestNet, ap, hashAuxBlock, nChainID)
    requires leaves != [] && ap.parentBlock.hashMerkleRoot == MerkleRoot(f, leaves) && |ap.vMerkleBranch| == Height(|leaves|)
    requires NoCollision(f, FoldedPairs(f, hashTx(ap.tx), ap.vMerkleBranch, 0) + FoldedPairs(f, leaves[0], Branch(f, leaves, 0), 0))
    ensures hashTx(ap.tx) == leaves[0] && ap.vMerkleBranch == Branch(f, leaves, 0)
    ensures !fTestNet ==> ChainID(ap.parentBlock.nVersion) != nChainID
  {
    BranchProves(f, leaves, 0, hashTx(ap.tx), ap.vMerkleBranch);
  }

  /** The other way round, the coinbase of a parent block with its branch, a place for the
      root in its script, and another chain make an accepted proof. */
  lemma {:induction false} CoinbaseIsAccepted(f: PairHash, hashTx: Serialize.CTransaction -> uint256, fTestNet: bool,
                                              ap: CAuxPow, hashAuxBlock: uint256, nChainID: int32, leaves: seq<uint256>, pc: nat)
    requires ap.tx.vin != [] && leaves != [] && ap.nIndex == 0
    requires ap.parentBlock.hashMerkleRoot == MerkleRoot(f, leaves) && hashTx(ap.tx) == leaves[0] && ap.vMerkleBranch == Branch(f, leaves, 0)
    requires fTestNet || ChainID(ap.parentBlock.nVersion) != nChainID
    requires Commits(f, ap.tx.vin[0].scriptSig, pc, ClaimOf(ap, hashAuxBlock), nChainID)
    ensures Accepted(f, hashTx, fTestNet, ap, hashAuxBlock, nChainID)
  {
    BranchLeadsToRoot(f, leaves, 0);
  }

  // ----- one commitment -----

  /** The pairs hashed on the way from a claim to its root. */
  function ClaimPairs(f: PairHash, x: Claim): set<Pair> {
    FoldedPairs(f, x.hashAuxBlock, x.vChainMerkleBranch, x.nChainIndex)
  }

  lemma {:induction false} SamePlaceSameRoot(f: PairHash, script: seq<byte>, x: Claim, y: Claim, nChainID: int32, p: nat)
    requires Commits(f, script, p, x, nChainID) && Commits(f, script, p, y, nChainID)
    ensures x.Root(f) == y.Root(f)
    ensures |x.vChainMerkleBranch| == |y.vChainMerkleBranch| && x.nChainIndex == y.nChainIndex
  {
    assert BigEndian(x.Root(f)) == script[p..][..32] == BigEndian(y.Root(f));
    BigEndianInjective(x.Root(f), y.Root(f));
    PowTwoInjective(|x.vChainMerkleBranch|, |y.vChainMerkleBranch|);
    SlotBound(x, script, p, nChainID);
    SlotBound(y, script, p, nChainID);
  }

  /** Two commitments in one script are at the same place exactly if they are to the same
      block, at the same leaf with the same branch. */
  lemma {:induction false} PlaceIsClaim(f: PairHash, script: seq<byte>, x: Claim, y: Claim, nChainID: int32, p: nat, q: nat)
    requires Commits(f, script, p, x, nChainID) && Commits(f, script, q, y, nChainID)
    requires NoCollision(f, ClaimPairs(f, x) + ClaimPairs(f, y))
    ensures p == q <==> x == y
  {
    if p == q {
      SamePlaceSameRoot(f, script, x, y, nChainID, p);
      SlotBound(x, script, p, nChainID);
      FoldedInjective(f, x.hashAuxBlock, x.vChainMerkleBranch, y.hashAuxBlock, y.vChainMerkleBranch, x.nChainIndex,
                      ClaimPairs(f, x) + ClaimPairs(f, y));
    }
    if x == y {
      FirstIsUnique(script, BigEndian(x.Root(f)), p, q);
    }
  }

  /** With the merged mining header in it, a coinbase script has room for one commitment:
      one root, one tree size, one index, and, where hashing does not collide, one block. */
  lemma {:induction false} OneCommitment(f: PairHash, script: seq<byte>, x: Claim, y: Claim, nChainID: int32, p: nat, q: nat)
    requires Commits(f, script, p, x, nChainID) && Commits(f, script, q, y, nChainID)
    requires !Nowhere(script, pchMergedMiningHeader)
    ensures p == q && x.Root(f) == y.Root(f)
    ensures |x.vChainMerkleBranch| == |y.vChainMerkleBranch| && x.nChainIndex == y.nChainIndex
    ensures NoCollision(f, ClaimPairs(f, x) + ClaimPairs(f, y)) ==> x == y
  {
    assert p - 4 == q - 4;
    SamePlaceSameRoot(f, script, x, y, nChainID, p);
    if NoCollision(f, ClaimPairs(f, x) + ClaimPairs(f, y)) {
      PlaceIsClaim(f, script, x, y, nChainID, p, q);
    }
  }

  /** The index is below 2^30, so it is never the -1 that CheckMerkleBranch treats
      apart. */
  lemma {:induction false} SlotBound(x: Claim, script: seq<byte>, pc: nat, nChainID: int32)
    requires SlotFits(script, pc, x, nChainID)
    ensures 0 <= x.nChainIndex < Pow(2, |x.vChainMerkleBranch|) <= 0x4000_0000
  {
    PowMono(2, |x.vChainMerkleBranch|, 30);
    PowTwoThirty();
  }

  lemma {:induction false} PowTwoThirty()
    ensures Pow(2, 30) == 0x4000_0000
  {
    assert Pow(2, 1) == 2 * Pow(2, 0);
    assert Pow(2, 2) == 2 * Pow(2, 1);
    assert Pow(2, 3) == 2 * Pow(2, 2);
    assert Pow(2, 4) == 2 * Pow(2, 3);
    assert Pow(2, 5) == 2 * Pow(2, 4);
    PowAdd(2, 5, 5);
    PowAdd(2, 10, 5);
    PowAdd(2, 15, 15);
  }

  lemma {:induction false} PowTwoInjective(j: nat, k: nat)
    requires Pow(2, j) == Pow(2, k)
    ensures j == k
  {
    if j > 0 && k > 0 {
      PowTwoInjective(j - 1, k - 1);
    }
  }

  /** Two accepted proofs with the same coinbase script, containing the header, for the
      same chain are proofs of the same block. */
  lemma {:induction false} SameWorkOnce(f: PairHash, hashTx: Serialize.CTransaction -> uint256, fTestNet: bool,
                                        a: CAuxPow, h: uint256, b: CAuxPow, g: uint256, nChainID: int32)
    requires a.tx.vin != [] && b.tx.vin != [] && a.tx.vin[0].scriptSig == b.tx.vin[0].scriptSig
    requires Accepted(f, hashTx, fTestNet, a, h, nChainID) && Accepted(f, hashTx, fTestNet, b, g, nChainID)
    requires !Nowhere(a.tx.vin[0].scriptSig, pchMergedMiningHeader)
    requires NoCollision(f, ClaimPairs(f, ClaimOf(a, h)) + ClaimPairs(f, ClaimOf(b, g)))
    ensures h == g && a.vChainMerkleBranch == b.vChainMerkleBranch && a.nChainIndex == b.nChainIndex
  {
    var script := a.tx.vin[0].scriptSig;
    var p: nat :| Commits(f, script, p, ClaimOf(a, h), nChainID);
    var q: nat :| Commits(f, script, q, ClaimOf(b, g), nChainID);
    OneCommitment(f, script, ClaimOf(a, h), ClaimOf(b, g), nChainID, p, q);
  }

  // ----- which scripts have room for how many -----

  function FromBigEndian(s: seq<byte>): uint256
    requires |s| == 32
  {
    ReadsAsHash(Reverse(s));
    FromLE(Reverse(s))
  }

  lemma {:induction false} ReadsAsHash(s: seq<byte>)
    requires |s| == 32
    ensures FromLE(s) < 0x1_00000000_00000000_00000000_00000000_00000000_00000000_00000000_00000000
  {
    Pow256Values();
    FromLEBound(s);
  }

  lemma {:induction false} BigEndianBack(s: seq<byte>)
    requires |s| == 32
    ensures BigEndian(FromBigEndian(s)) == s
  {
    LEOfFromLE(Reverse(s));
  }

  /** The bytes at pc read as a root. */
  function RootAt(script: seq<byte>, pc: nat): uint256
    requires pc + 40 <= |script|
  {
    FromBigEndian(script[pc..pc + 32])
  }

  /** Some block, at leaf i of a tree of height k, has this root. */
  ghost predicate Reached(f: PairHash, root: uint256, k: nat, i: int) {
    exists x: Claim :: |x.vChainMerkleBranch| == k && x.nChainIndex == i && x.Root(f) == root
  }

  /** The bytes at pc are the first of their kind, a tree size and nonce follow, and the
      root they make is that of a tree of that size, seen from that leaf. */
  ghost predicate Room(f: PairHash, script: seq<byte>, pc: nat, nChainID: int32) {
    && pc + 40 <= |script| && FirstAt(script, script[pc..pc + 32], pc)
    && exists k: nat :: SizeAt(script, pc, k) && Reached(f, RootAt(script, pc), k, SlotAt(script, pc, nChainID, k))
  }

  ghost predicate Admits(f: PairHash, script: seq<byte>, pc: nat, nChainID: int32) {
    exists x: Claim :: Commits(f, script, pc, x, nChainID)
  }

  lemma {:induction false} BytesAreRoot(f: PairHash, script: seq<byte>, pc: nat, x: Claim)
    requires pc + 40 <= |script| && Occurs(script, BigEndian(x.Root(f)), pc)
    ensures script[pc..pc + 32] == BigEndian(x.Root(f)) && RootAt(script, pc) == x.Root(f)
  {
    assert script[pc..][..32] == script[pc..pc + 32];
    BigEndianBack(script[pc..pc + 32]);
    BigEndianInjective(x.Root(f), RootAt(script, pc));
  }

  /** There is a commitment at pc exactly if there is room for one and it is well placed. */
  lemma {:induction false} RoomExact(f: PairHash, script: seq<byte>, pc: nat, nChainID: int32)
    ensures Admits(f, script, pc, nChainID) <==> Room(f, script, pc, nChainID) && WellPlaced(script, pc)
  {
    if Admits(f, script, pc, nChainID) {
      var x: Claim :| Commits(f, script, pc, x, nChainID);
      BytesAreRoot(f, script, pc, x);
      SlotBound(x, script, pc, nChainID);
      assert SizeAt(script, pc, |x.vChainMerkleBranch|);
    }
    if Room(f, script, pc, nChainID) && WellPlaced(script, pc) {
      BigEndianBack(script[pc..pc + 32]);
      var k: nat :| SizeAt(script, pc, k) && Reached(f, RootAt(script, pc), k, SlotAt(script, pc, nChainID, k));
      var x: Claim :| |x.vChainMerkleBranch| == k && x.nChainIndex == SlotAt(script, pc, nChainID, k) && x.Root(f) == RootAt(script, pc);
      assert Commits(f, script, pc, x, nChainID);
    }
  }

  /** Where the size given is 1 any root is reached: it is the block's own hash. */
  lemma {:induction false} SizeOneReached(f: PairHash, script: seq<byte>, pc: nat, nChainID: int32)
    requires pc + 40 <= |script| && SizeAt(script, pc, 0)
    ensures Reached(f, RootAt(script, pc), 0, SlotAt(script, pc, nChainID, 0))
  {
    assert Pow(2, 0) == 1;
    assert Claim(RootAt(script, pc), [], 0).Root(f) == RootAt(script, pc);
  }

  /** A script commits at two places exactly if it has no header and there is room at two
      places in its first 20 bytes. */
  lemma {:induction false} TwoPlaces(f: PairHash, script: seq<byte>, nChainID: int32, p: nat, q: nat)
    requires p < q
    ensures Admits(f, script, p, nChainID) && Admits(f, script, q, nChainID) <==>
            && Nowhere(script, pchMergedMiningHeader) && q <= 20
            && Room(f, script, p, nChainID) && Room(f, script, q, nChainID)
  {
    RoomExact(f, script, p, nChainID);
    RoomExact(f, script, q, nChainID);
    OnePlaced(script, p, q);
  }

  lemma {:induction false} OnePlaced(script: seq<byte>, p: nat, q: nat)
    requires p < q
    ensures WellPlaced(script, p) && WellPlaced(script, q) <==> Nowhere(script, pchMergedMiningHeader) && q <= 20
  {
  }

  /** Two such roots overlap: the later one begins with at least 12 bytes that end the
      earlier one. */
  lemma {:induction false} RootsOverlap(f: PairHash, script: seq<byte>, x: Claim, y: Claim, nChainID: int32, p: nat, q: nat)
    requires Commits(f, script, p, x, nChainID) && Commits(f, script, q, y, nChainID) && p < q
    ensures q - p <= 20 && BigEndian(x.Root(f))[q - p..] == BigEndian(y.Root(f))[..32 - (q - p)]
  {
    OnePlaced(script, p, q);
    BytesAreRoot(f, script, p, x);
    BytesAreRoot(f, script, q, y);
    WindowsOverlap(script, p, q);
  }

  lemma {:induction false} WindowsOverlap(s: seq<byte>, p: nat, q: nat)
    requires p < q <= p + 32 && q + 32 <= |s|
    ensures s[p..p + 32][q - p..] == s[q..q + 32][..32 - (q - p)]
  {
  }

  // ----- without the header -----

  /** Zeros with a tree size of 1 at two places. */
  function TwoRoots(): (s: seq<byte>)
    ensures |s| == 60 && forall k :: 0 <= k < 60 ==> s[k] == if k == 32 || k == 52 then 1 else 0
  {
    seq(60, k => if k == 32 || k == 52 then 1 else 0)
  }

  lemma {:induction false} RootPlaces(p: nat)
    requires p == 0 || p == 20
    ensures FirstAt(TwoRoots(), TwoRoots()[p..p + 32], p)
    ensures Nowhere(TwoRoots(), pchMergedMiningHeader)
  {
    var s := TwoRoots();
    var pat := s[p..p + 32];
    assert s[p..][..32] == pat;
    forall q: nat | Occurs(s, pat, q)
      ensures p <= q
    {
      if p == 20 {
        assert s[q..][12] == s[q + 12] && pat[12] == s[32];
      }
    }
    forall q: nat
      ensures !Occurs(s, pchMergedMiningHeader, q)
    {
      if q < 60 {
        assert s[q..][0] == s[q];
      }
    }
  }

  lemma {:induction false} OneReads(s: seq<byte>)
    requires s == [1, 0, 0, 0]
    ensures FromLE(s) == 1
  {
    assert s[3..] == [0] && s[3..][1..] == [];
    assert s[2..][1..] == s[3..] && s[1..][1..] == s[2..];
    assert FromLE(s[3..]) == 0;
    assert FromLE(s[2..]) == 0;
    assert FromLE(s[1..]) == 0;
  }

  lemma {:induction false} TwoSizes(p: nat)
    requires p == 0 || p == 20
    ensures SizeAt(TwoRoots(), p, 0)
  {
    assert TwoRoots()[p + 32..p + 36] == [1, 0, 0, 0];
    OneReads(TwoRoots()[p + 32..p + 36]);
    assert Pow(2, 0) == 1;
  }

  lemma {:induction false} RootCommits(f: PairHash, s: seq<byte>, nChainID: int32, p: nat)
    requires s == TwoRoots() && (p == 0 || p == 20)
    ensures Commits(f, s, p, Claim(RootAt(s, p), [], 0), nChainID)
  {
    RootPlaces(p);
    TwoSizes(p);
    SizeOneCommits(f, s, p, nChainID);
  }

  lemma {:induction false} SizeOneCommits(f: PairHash, script: seq<byte>, pc: nat, nChainID: int32)
    requires pc + 40 <= |script| && FirstAt(script, script[pc..pc + 32], pc) && WellPlaced(script, pc) && SizeAt(script, pc, 0)
    ensures Commits(f, script, pc, Claim(RootAt(script, pc), [], 0), nChainID)
  {
    BigEndianBack(script[pc..pc + 32]);
    assert Pow(2, 0) == 1;
  }

  lemma {:induction false} ZeroBytes(s: seq<byte>, pc: nat, n: nat)
    requires pc + 40 <= |s| && n <= 32 && forall k :: pc <= k < pc + n ==> s[k] == 0
    ensures forall k :: 0 <= k < n ==> BigEndian(RootAt(s, pc))[k] == 0
  {
    forall k | 0 <= k < n
      ensures BigEndian(RootAt(s, pc))[k] == 0
    {
      RootByte(s, pc, k);
    }
  }

  lemma {:induction false} RootBytes(s: seq<byte>)
    requires s == TwoRoots()
    ensures forall k :: 0 <= k < 32 ==> BigEndian(RootAt(s, 0))[k] == 0
    ensures forall k :: 0 <= k < 12 ==> BigEndian(RootAt(s, 20))[k] == 0
    ensures RootAt(s, 0) != RootAt(s, 20)
  {
    ZeroBytes(s, 0, 32);
    ZeroBytes(s, 20, 12);
    RootByte(s, 20, 12);
    assert BigEndian(RootAt(s, 0))[12] == 0 && BigEndian(RootAt(s, 20))[12] == 1;
  }

  lemma {:induction false} RootByte(script: seq<byte>, pc: nat, k: nat)
    requires pc + 40 <= |script| && k < 32
    ensures BigEndian(RootAt(script, pc))[k] == script[pc + k]
  {
    BigEndianBack(script[pc..pc + 32]);
  }

  /** Such a script: one and the same proof is accepted for the hash 0 and for one with 12
      leading zero bytes. */
  lemma {:induction false} HeaderMatters(f: PairHash, hashTx: Serialize.CTransaction -> uint256, fTestNet: bool, ap: CAuxPow, nChainID: int32)
    returns (h: uint256, g: uint256)
    requires ap.tx.vin != [] && ap.tx.vin[0].scriptSig == TwoRoots()
    requires ap.vChainMerkleBranch == [] && ap.nChainIndex == 0
    requires ap.nIndex == 0 && ap.vMerkleBranch == [] && hashTx(ap.tx) == ap.parentBlock.hashMerkleRoot
    requires fTestNet || ChainID(ap.parentBlock.nVersion) != nChainID
    ensures (forall k :: 0 <= k < 32 ==> BigEndian(h)[k] == 0) && (forall k :: 0 <= k < 12 ==> BigEndian(g)[k] == 0) && h != g
    ensures Accepted(f, hashTx, fTestNet, ap, h, nChainID) && Accepted(f, hashTx, fTestNet, ap, g, nChainID)
  {
    var s := ap.tx.vin[0].scriptSig;
    h, g := RootAt(s, 0), RootAt(s, 20);
    RootBytes(s);
    RootCommits(f, s, nChainID, 0);
    RootCommits(f, s, nChainID, 20);
    CommitIsAccepted(f, hashTx, fTestNet, ap, h, nChainID, 0);
    CommitIsAccepted(f, hashTx, fTestNet, ap, g, nChainID, 20);
  }

  lemma {:induction false} CommitIsAccepted(f: PairHash, hashTx: Serialize.CTransaction -> uint256, fTestNet: bool,
                                            ap: CAuxPow, h: uint256, nChainID: int32, p: nat)
    requires ap.tx.vin != [] && Commits(f, ap.tx.vin[0].scriptSig, p, ClaimOf(ap, h), nChainID)
    requires ap.nIndex == 0 && ap.vMerkleBranch == [] && hashTx(ap.tx) == ap.parentBlock.hashMerkleRoot
    requires fTestNet || ChainID(ap.parentBlock.nVersion) != nChainID
    ensures Accepted(f, hashTx, fTestNet, ap, h, nChainID)
  {
  }
}
