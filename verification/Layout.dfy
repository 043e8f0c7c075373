/** Which bytes of the serialized form hold what.  Round trips hold of any order of the
    fields; other nodes depend on this one. */
module Layout {
  import opened Basics
  import opened Serialize

  /** The k bytes of s from position at on are n, least significant first. */
  predicate Holds(s: seq<byte>, at: nat, k: nat, n: nat) {
    at + k <= |s| && FromLE(s[at..at + k]) == n
  }

  lemma {:induction false} Field(a: seq<byte>, n: nat, k: nat, b: seq<byte>)
    requires n < Pow(256, k)
    ensures Holds(a + LE(n, k) + b, |a|, k, n)
  {
    assert (a + LE(n, k) + b)[|a|..|a| + k] == LE(n, k);
    FromLEOfLE(n, k);
  }

  lemma {:induction false} LastField(a: seq<byte>, n: nat, k: nat)
    requires n < Pow(256, k)
    ensures Holds(a + LE(n, k), |a|, k, n)
  {
    assert a + LE(n, k) == a + LE(n, k) + [];
    Field(a, n, k, []);
  }

  lemma {:induction false} Earlier(a: seq<byte>, b: seq<byte>, at: nat, k: nat, n: nat)
    requires Holds(a, at, k, n)
    ensures Holds(a + b, at, k, n)
  {
    assert (a + b)[at..at + k] == a[at..at + k];
  }

  /** The 80 bytes that are hashed. */
  lemma {:induction false} HeaderLayout(b: CBlock)
    ensures var s := SerializeHeader(b);
            && Holds(s, 0, 4, OfInt32(b.nVersion)) && Holds(s, 4, 32, b.hashPrevBlock) && Holds(s, 36, 32, b.hashMerkleRoot)
            && Holds(s, 68, 4, b.nTime) && Holds(s, 72, 4, b.nBits) && Holds(s, 76, 4, b.nNonce)
  {
    Pow256Values();
    var s1 := LE(OfInt32(b.nVersion), 4);
    var s2 := s1 + LE(b.hashPrevBlock, 32);
    var s3 := s2 + LE(b.hashMerkleRoot, 32);
    var s4 := s3 + LE(b.nTime, 4);
    var s5 := s4 + LE(b.nBits, 4);
    var s6 := s5 + LE(b.nNonce, 4);
    assert [] + s1 == s1;
    LastField([], OfInt32(b.nVersion), 4);
    LastField(s1, b.hashPrevBlock, 32);
    LastField(s2, b.hashMerkleRoot, 32);
    LastField(s3, b.nTime, 4);
    LastField(s4, b.nBits, 4);
    LastField(s5, b.nNonce, 4);
    Later(s1, LE(b.hashPrevBlock, 32), LE(b.hashMerkleRoot, 32), LE(b.nTime, 4), LE(b.nBits, 4), LE(b.nNonce, 4), 0, 4, OfInt32(b.nVersion));
    Later(s2, LE(b.hashMerkleRoot, 32), LE(b.nTime, 4), LE(b.nBits, 4), LE(b.nNonce, 4), [], 4, 32, b.hashPrevBlock);
    Later(s3, LE(b.nTime, 4), LE(b.nBits, 4), LE(b.nNonce, 4), [], [], 36, 32, b.hashMerkleRoot);
    Later(s4, LE(b.nBits, 4), LE(b.nNonce, 4), [], [], [], 68, 4, b.nTime);
    Earlier(s5, LE(b.nNonce, 4), 72, 4, b.nBits);
    assert s6 + [] == s6;
  }

  lemma {:induction false} Later(a: seq<byte>, b: seq<byte>, c: seq<byte>, d: seq<byte>, e: seq<byte>, f: seq<byte>, at: nat, k: nat, n: nat)
    requires Holds(a, at, k, n)
    ensures Holds(a + b + c + d + e + f, at, k, n)
  {
    Earlier(a, b, at, k, n);
    Earlier(a + b, c, at, k, n);
    Earlier(a + b + c, d, at, k, n);
    Earlier(a + b + c + d, e, at, k, n);
    Earlier(a + b + c + d + e, f, at, k, n);
  }

  /** A size below 253 is its own byte; a larger one follows a byte that says in how many. */
  lemma {:induction false} CompactSizeLayout(n: uint64)
    ensures var s := CompactSize(n);
            if n < 253 then s == [n]
            else if n <= 0xffff then |s| == 3 && s[0] == 253 && Holds(s, 1, 2, n)
            else if n <= 0xffff_ffff then |s| == 5 && s[0] == 254 && Holds(s, 1, 4, n)
            else |s| == 9 && s[0] == 255 && Holds(s, 1, 8, n)
  {
    Pow256Values();
    if n >= 253 {
      var tag := CompactSize(n)[0];
      var k := |CompactSize(n)| - 1;
      LastField([tag], n, k);
    }
  }

  lemma {:induction false} TxInLayout(i: CTxIn)
    ensures var s := SerializeTxIn(i);
            && Holds(s, 0, 32, i.prevout.hash) && Holds(s, 32, 4, i.prevout.n)
            && |s| == 40 + |SerializeBytes(i.scriptSig)| && s[36..|s| - 4] == SerializeBytes(i.scriptSig)
            && Holds(s, |s| - 4, 4, i.nSequence)
  {
    Pow256Values();
    var hash, n, script, last := LE(i.prevout.hash, 32), LE(i.prevout.n, 4), SerializeBytes(i.scriptSig), LE(i.nSequence, 4);
    assert [] + hash == hash;
    LastField([], i.prevout.hash, 32);
    LastField(hash, i.prevout.n, 4);
    Earlier(hash, n, 0, 32, i.prevout.hash);
    Earlier(hash + n, script, 0, 32, i.prevout.hash);
    Earlier(hash + n, script, 32, 4, i.prevout.n);
    Earlier(hash + n + script, last, 0, 32, i.prevout.hash);
    Earlier(hash + n + script, last, 32, 4, i.prevout.n);
    LastField(hash + n + script, i.nSequence, 4);
  }

  lemma {:induction false} TxOutLayout(o: CTxOut)
    ensures var s := SerializeTxOut(o); Holds(s, 0, 8, OfInt64(o.nValue)) && s[8..] == SerializeBytes(o.scriptPubKey)
  {
    Pow256Values();
    var value := LE(OfInt64(o.nValue), 8);
    assert [] + value == value;
    LastField([], OfInt64(o.nValue), 8);
    Earlier(value, SerializeBytes(o.scriptPubKey), 0, 8, OfInt64(o.nValue));
  }

  /** The version, the inputs, the outputs, the lock time. */
  lemma {:induction false} TxLayout(tx: CTransaction)
    ensures var s, ins, outs := SerializeTx(tx), SerializeVector(SerializeTxIn, tx.vin), SerializeVector(SerializeTxOut, tx.vout);
            && |s| == 8 + |ins| + |outs| && Holds(s, 0, 4, OfInt32(tx.nVersion)) && Holds(s, |s| - 4, 4, tx.nLockTime)
            && s[4..4 + |ins|] == ins && s[4 + |ins|..|s| - 4] == outs
  {
    Pow256Values();
    var v, ins, outs := LE(OfInt32(tx.nVersion), 4), SerializeVector(SerializeTxIn, tx.vin), SerializeVector(SerializeTxOut, tx.vout);
    assert [] + v == v;
    LastField([], OfInt32(tx.nVersion), 4);
    Earlier(v, ins, 0, 4, OfInt32(tx.nVersion));
    Earlier(v + ins, outs, 0, 4, OfInt32(tx.nVersion));
    Earlier(v + ins + outs, LE(tx.nLockTime, 4), 0, 4, OfInt32(tx.nVersion));
    LastField(v + ins + outs, tx.nLockTime, 4);
  }

  /** The header, an aux proof exactly if the second byte is odd, the transactions. */
  lemma {:induction false} BlockLayout(b: CBlock)
    requires Canonical(b)
    ensures var s := SerializeBlock(b, false);
            && |s| >= 80 && s[..80] == SerializeHeader(b) && (s[1] % 2 == 1 <==> b.auxpow.Some?)
            && s[80..] == (if b.auxpow.Some? then SerializeAuxPow(b.auxpow.value) else []) + SerializeVector(SerializeTx, b.vtx)
  {
    HeaderLayout(b);
    var s, h := SerializeBlock(b, false), SerializeHeader(b);
    SecondByte(OfInt32(b.nVersion), h);
    SameParity(b.nVersion);
    ThreeParts(s, h, if b.auxpow.Some? then SerializeAuxPow(b.auxpow.value) else [], SerializeVector(SerializeTx, b.vtx));
  }

  lemma {:induction false} SameParity(n: int32)
    ensures OfInt32(n) / 256 % 256 % 2 == n / 256 % 2
  {
    var k := if n >= 0 then 0 else 0x80_0000;
    assert OfInt32(n) / 256 == n / 256 + 2 * k;
    ModOfMod(OfInt32(n) / 256, 2, 128);
    ModAdd(n / 256, 2, k);
  }

  lemma {:induction false} SecondByte(n: nat, s: seq<byte>)
    requires Holds(s, 0, 4, n)
    ensures s[1] == n / 256 % 256
  {
    var v := s[0..4];
    assert v[1..][0] == s[1] && v[0] == s[0];
    assert FromLE(v) == n && FromLE(v) == v[0] + 256 * FromLE(v[1..]);
    assert FromLE(v[1..]) == s[1] + 256 * FromLE(v[1..][1..]);
  }

  lemma {:induction false} ThreeParts(s: seq<byte>, a: seq<byte>, b: seq<byte>, c: seq<byte>)
    requires s == a + b + c
    ensures |a| <= |s| && s[..|a|] == a && s[|a|..] == b + c && forall i :: 0 <= i < |a| ==> s[i] == a[i]
  {
  }

  lemma {:induction false} BranchLayout(v: seq<uint256>, index: int32)
    ensures var s := SerializeBranch(v, index);
            |s| >= 4 && s[..|s| - 4] == SerializeVector(SerializeHash, v) && Holds(s, |s| - 4, 4, OfInt32(index))
  {
    Pow256Values();
    LastField(SerializeVector(SerializeHash, v), OfInt32(index), 4);
  }

  lemma {:induction false} FiveParts(a: seq<byte>, b: seq<byte>, c: seq<byte>, d: seq<byte>, e: seq<byte>)
    ensures var s := a + b + c + d + e;
            && s[..|a|] == a && s[|a|..|a| + |b|] == b && s[|a| + |b|..|a| + |b| + |c|] == c
            && s[|a| + |b| + |c|..|a| + |b| + |c| + |d|] == d && s[|a| + |b| + |c| + |d|..] == e
  {
  }

  /** The parent's coinbase, the parent's hash, the two branches each with its index, the
      parent's header. */
  lemma {:induction false} AuxPowLayout(a: CAuxPow)
    ensures var s, n := SerializeAuxPow(a), |SerializeTx(a.tx)|;
            var v, w := SerializeBranch(a.vMerkleBranch, a.nIndex), SerializeBranch(a.vChainMerkleBranch, a.nChainIndex);
            && |s| == n + 32 + |v| + |w| + |SerializeBlock(a.parentBlock, true)|
            && s[..n] == SerializeTx(a.tx) && Holds(s, n, 32, a.hashBlock)
            && s[n + 32..n + 32 + |v|] == v && s[n + 32 + |v|..n + 32 + |v| + |w|] == w
            && s[n + 32 + |v| + |w|..] == SerializeBlock(a.parentBlock, true)
  {
    Pow256Values();
    FromLEOfLE(a.hashBlock, 32);
    FiveParts(SerializeTx(a.tx), LE(a.hashBlock, 32), SerializeBranch(a.vMerkleBranch, a.nIndex),
              SerializeBranch(a.vChainMerkleBranch, a.nChainIndex), SerializeBlock(a.parentBlock, true));
  }
}
