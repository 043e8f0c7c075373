/** Byte-stream form of transactions, aux proofs and blocks, after src/serialize.h
    and the IMPLEMENT_SERIALIZE bodies of src/main.h and src/auxpow.h.  Each type
    has the three forms the source's templates generate: the bytes written, the
    size computed without writing, and the reader. */
module Serialize {
  import opened Basics

  const MAX_SIZE: nat := 0x0200_0000

  datatype COutPoint = COutPoint(hash: uint256, n: uint32)
  {
    predicate IsNull() {
      hash == 0 && n == UINT_MAX
    }
  }

  datatype CTxIn = CTxIn(prevout: COutPoint, scriptSig: seq<byte>, nSequence: uint32)

  datatype CTxOut = CTxOut(nValue: int64, scriptPubKey: seq<byte>)

  datatype CTransaction = CTransaction(nVersion: int32, vin: seq<CTxIn>, vout: seq<CTxOut>, nLockTime: uint32)
  {
    predicate IsCoinBase() {
      |vin| == 1 && vin[0].prevout.IsNull()
    }
  }

  datatype CAuxPow = CAuxPow(tx: CTransaction, hashBlock: uint256, vMerkleBranch: seq<uint256>, nIndex: int32,
                             vChainMerkleBranch: seq<uint256>, nChainIndex: int32, parentBlock: CBlock)

  datatype CBlock = CBlock(nVersion: int32, hashPrevBlock: uint256, hashMerkleRoot: uint256, nTime: uint32,
                           nBits: uint32, nNonce: uint32, vtx: seq<CTransaction>, auxpow: Option<CAuxPow>)

  /** A reader takes the bytes ahead of it and returns a value with the bytes
      left, or None where the source throws. */
  type Parser<T> = seq<byte> -> Option<(T, seq<byte>)>

  /** nVersion & BLOCK_VERSION_AUXPOW on a two's complement word. */
  predicate AuxBit(nVersion: int32) {
    nVersion / 256 % 2 == 1
  }

  /** The aux proof is present exactly when the version announces it.  With the
      bit set and no proof the source dereferences a null pointer; the reader
      only ever produces blocks of this shape. */
  predicate Canonical(b: CBlock) {
    && (AuxBit(b.nVersion) <==> b.auxpow.Some?)
    && (b.auxpow.Some? ==> Canonical(b.auxpow.value.parentBlock) && b.auxpow.value.parentBlock.vtx == [])
  }

  // ----- compact size -----

  function GetSizeOfCompactSize(n: nat): nat {
    if n < 253 then 1 else if n <= 0xffff then 3 else if n <= 0xffff_ffff then 5 else 9
  }

  function CompactSize(n: nat): (s: seq<byte>)
    ensures |s| == GetSizeOfCompactSize(n)
  {
    if n < 253 then [n]
    else if n <= 0xffff then [253] + LE(n, 2)
    else if n <= 0xffff_ffff then [254] + LE(n, 4)
    else [255] + LE(n, 8)
  }

  function ReadUInt(k: nat, s: seq<byte>): (r: Option<(nat, seq<byte>)>)
    ensures r.Some? ==> |r.value.1| == |s| - k && r.value.0 < Pow(256, k)
  {
    if |s| < k then None else
    FromLEBound(s[..k]);
    Some((FromLE(s[..k]), s[k..]))
  }

  function TagWidth(tag: byte): nat {
    if tag < 253 then 0 else if tag == 253 then 2 else if tag == 254 then 4 else 8
  }

  function ReadCompactSize(s: seq<byte>): (r: Option<(nat, seq<byte>)>)
    ensures r.Some? ==> |r.value.1| < |s| && r.value.0 <= MAX_SIZE
  {
    if |s| < 1 then None else
    var body := ReadUInt(TagWidth(s[0]), s[1..]);
    if body.None? then None else
    var n := if s[0] < 253 then s[0] else body.value.0;
    if n > MAX_SIZE then None else Some((n, body.value.1))
  }

  lemma {:induction false} TaggedRoundTrip(tag: byte, n: nat, rest: seq<byte>)
    requires 253 <= tag && n < Pow(256, TagWidth(tag))
    ensures ReadCompactSize([tag] + LE(n, TagWidth(tag)) + rest) == if n <= MAX_SIZE then Some((n, rest)) else None
  {
    var s := [tag] + LE(n, TagWidth(tag)) + rest;
    assert s[1..] == LE(n, TagWidth(tag)) + rest;
    UIntRoundTrip(n, TagWidth(tag), rest);
  }

  /** Reading back a written compact size succeeds exactly up to MAX_SIZE. */
  lemma {:induction false} CompactSizeRoundTrip(n: uint64, rest: seq<byte>)
    ensures ReadCompactSize(CompactSize(n) + rest) == if n <= MAX_SIZE then Some((n, rest)) else None
  {
    if n < 253 {
      var s := CompactSize(n) + rest;
      assert s[1..] == rest && rest[0..] == rest;
    } else {
      var tag: byte := if n <= 0xffff then 253 else if n <= 0xffff_ffff then 254 else 255;
      assert n < Pow(256, TagWidth(tag)) by { Pow256Values(); }
      TaggedRoundTrip(tag, n, rest);
      assert CompactSize(n) == [tag] + LE(n, TagWidth(tag));
    }
  }

  lemma {:induction false} UIntRoundTrip(n: nat, k: nat, rest: seq<byte>)
    requires n < Pow(256, k)
    ensures ReadUInt(k, LE(n, k) + rest) == Some((n, rest))
  {
    var s := LE(n, k) + rest;
    assert s[..k] == LE(n, k) && s[k..] == rest;
    FromLEOfLE(n, k);
  }

  // ----- vectors -----

  function SerializeAll<T>(f: T -> seq<byte>, v: seq<T>): seq<byte> {
    if v == [] then [] else f(v[0]) + SerializeAll(f, v[1..])
  }

  function SerializeVector<T>(f: T -> seq<byte>, v: seq<T>): seq<byte> {
    CompactSize(|v|) + SerializeAll(f, v)
  }

  function SizeAll<T>(size: T -> nat, v: seq<T>): nat {
    if v == [] then 0 else size(v[0]) + SizeAll(size, v[1..])
  }

  ghost predicate Shrinks<T(!new)>(p: Parser<T>) {
    forall s :: p(s).Some? ==> |p(s).value.1| <= |s|
  }

  function ParseAll<T>(p: Parser<T>, n: nat, s: seq<byte>): Option<(seq<T>, seq<byte>)>
    decreases n
  {
    if n == 0 then Some(([], s)) else
    var head := p(s);
    if head.None? then None else
    var tail := ParseAll(p, n - 1, head.value.1);
    if tail.None? then None else Some(([head.value.0] + tail.value.0, tail.value.1))
  }

  function ParseVector<T>(p: Parser<T>, s: seq<byte>): Option<(seq<T>, seq<byte>)> {
    var size := ReadCompactSize(s);
    if size.None? then None else ParseAll(p, size.value.0, size.value.1)
  }

  lemma {:induction false} ParseAllShrinks<T(!new)>(p: Parser<T>, n: nat, s: seq<byte>)
    requires Shrinks(p)
    ensures ParseAll(p, n, s).Some? ==> |ParseAll(p, n, s).value.1| <= |s|
  {
    if n > 0 && p(s).Some? {
      ParseAllShrinks(p, n - 1, p(s).value.1);
    }
  }

  lemma {:induction false} ParseVectorShrinks<T(!new)>(p: Parser<T>)
    requires Shrinks(p)
    ensures forall s :: ParseVector(p, s).Some? ==> |ParseVector(p, s).value.1| <= |s|
  {
    forall s | ParseVector(p, s).Some?
      ensures |ParseVector(p, s).value.1| <= |s|
    {
      var size := ReadCompactSize(s).value;
      ParseAllShrinks(p, size.0, size.1);
    }
  }

  lemma {:induction false} SizeAllExact<T>(f: T -> seq<byte>, size: T -> nat, v: seq<T>)
    requires forall x :: x in v ==> |f(x)| == size(x)
    ensures |SerializeAll(f, v)| == SizeAll(size, v)
  {
    if v != [] {
      SizeAllExact(f, size, v[1..]);
    }
  }

  lemma {:induction false} SizeAllAppend<T>(size: T -> nat, v: seq<T>, w: seq<T>)
    ensures SizeAll(size, v + w) == SizeAll(size, v) + SizeAll(size, w)
  {
    if v == [] {
      assert v + w == w;
    } else {
      assert (v + w)[1..] == v[1..] + w;
      SizeAllAppend(size, v[1..], w);
    }
  }

  lemma {:induction false} SerializeAllAppend<T>(f: T -> seq<byte>, v: seq<T>, w: seq<T>)
    ensures SerializeAll(f, v + w) == SerializeAll(f, v) + SerializeAll(f, w)
  {
    if v == [] {
      assert v + w == w;
    } else {
      assert (v + w)[1..] == v[1..] + w;
      SerializeAllAppend(f, v[1..], w);
    }
  }

  /** When each element reads back exactly if ok holds of it, the whole vector
      reads back exactly if ok holds of all of them. */
  lemma {:induction false} AllVerdict<T(!new)>(f: T -> seq<byte>, p: Parser<T>, ok: T -> bool, v: seq<T>, rest: seq<byte>)
    requires forall x, r :: x in v ==> p(f(x) + r) == if ok(x) then Some((x, r)) else None
    ensures ParseAll(p, |v|, SerializeAll(f, v) + rest) ==
            if forall k :: 0 <= k < |v| ==> ok(v[k]) then Some((v, rest)) else None
  {
    if v == [] {
      assert SerializeAll(f, v) + rest == rest;
    } else {
      var tail := SerializeAll(f, v[1..]) + rest;
      assert SerializeAll(f, v) + rest == f(v[0]) + tail;
      assert v[0] in v;
      AllVerdict(f, p, ok, v[1..], rest);
      assert [v[0]] + v[1..] == v;
      assert (forall k :: 0 <= k < |v| ==> ok(v[k])) <==> ok(v[0]) && forall k :: 0 <= k < |v[1..]| ==> ok(v[1..][k]);
    }
  }

  lemma {:induction false} VectorVerdict<T(!new)>(f: T -> seq<byte>, p: Parser<T>, ok: T -> bool, v: seq<T>, rest: seq<byte>)
    requires |v| < 0x1_0000_0000_0000_0000
    requires forall x, r :: x in v ==> p(f(x) + r) == if ok(x) then Some((x, r)) else None
    ensures ParseVector(p, SerializeVector(f, v) + rest) ==
            if |v| <= MAX_SIZE && forall k :: 0 <= k < |v| ==> ok(v[k]) then Some((v, rest)) else None
  {
    var tail := SerializeAll(f, v) + rest;
    assert SerializeVector(f, v) + rest == CompactSize(|v|) + tail;
    CompactSizeRoundTrip(|v|, tail);
    AllVerdict(f, p, ok, v, rest);
  }

  // ----- scripts and other byte vectors -----

  function SerializeBytes(s: seq<byte>): seq<byte> {
    CompactSize(|s|) + s
  }

  function SizeBytes(s: seq<byte>): nat {
    GetSizeOfCompactSize(|s|) + |s|
  }

  function ParseBytes(s: seq<byte>): (r: Option<(seq<byte>, seq<byte>)>)
    ensures r.Some? ==> |r.value.1| <= |s|
  {
    var size := ReadCompactSize(s);
    if size.None? || |size.value.1| < size.value.0 then None else
    Some((size.value.1[..size.value.0], size.value.1[size.value.0..]))
  }

  lemma {:induction false} BytesRoundTrip(s: seq<byte>, rest: seq<byte>)
    requires |s| < 0x1_0000_0000_0000_0000
    ensures ParseBytes(SerializeBytes(s) + rest) == if |s| <= MAX_SIZE then Some((s, rest)) else None
  {
    assert SerializeBytes(s) + rest == CompactSize(|s|) + (s + rest);
    CompactSizeRoundTrip(|s|, s + rest);
    assert (s + rest)[..|s|] == s && (s + rest)[|s|..] == rest;
  }

  // ----- transactions -----

  function SerializeTxIn(i: CTxIn): seq<byte> {
    LE(i.prevout.hash, 32) + LE(i.prevout.n, 4) + SerializeBytes(i.scriptSig) + LE(i.nSequence, 4)
  }

  function SizeTxIn(i: CTxIn): nat {
    36 + SizeBytes(i.scriptSig) + 4
  }

  function ParseTxIn(s: seq<byte>): (r: Option<(CTxIn, seq<byte>)>)
    ensures r.Some? ==> |r.value.1| <= |s|
  {
    Pow256Values();
    var hash := ReadUInt(32, s);
    if hash.None? then None else
    var n := ReadUInt(4, hash.value.1);
    if n.None? then None else
    var script := ParseBytes(n.value.1);
    if script.None? then None else
    var seqn := ReadUInt(4, script.value.1);
    if seqn.None? then None else
    Some((CTxIn(COutPoint(hash.value.0, n.value.0), script.value.0, seqn.value.0), seqn.value.1))
  }

  lemma {:induction false} TxInRoundTrip(i: CTxIn, rest: seq<byte>)
    requires |i.scriptSig| < 0x1_0000_0000_0000_0000
    ensures ParseTxIn(SerializeTxIn(i) + rest) == if |i.scriptSig| <= MAX_SIZE then Some((i, rest)) else None
  {
    Pow256Values();
    var s3 := LE(i.nSequence, 4) + rest;
    var s2 := SerializeBytes(i.scriptSig) + s3;
    var s1 := LE(i.prevout.n, 4) + s2;
    assert SerializeTxIn(i) + rest == LE(i.prevout.hash, 32) + s1;
    UIntRoundTrip(i.prevout.hash, 32, s1);
    UIntRoundTrip(i.prevout.n, 4, s2);
    BytesRoundTrip(i.scriptSig, s3);
    UIntRoundTrip(i.nSequence, 4, rest);
  }

  function SerializeTxOut(o: CTxOut): seq<byte> {
    LE(OfInt64(o.nValue), 8) + SerializeBytes(o.scriptPubKey)
  }

  function SizeTxOut(o: CTxOut): nat {
    8 + SizeBytes(o.scriptPubKey)
  }

  function ParseTxOut(s: seq<byte>): (r: Option<(CTxOut, seq<byte>)>)
    ensures r.Some? ==> |r.value.1| <= |s|
  {
    Pow256Values();
    var value := ReadUInt(8, s);
    if value.None? then None else
    var script := ParseBytes(value.value.1);
    if script.None? then None else
    Some((CTxOut(ToInt64(value.value.0), script.value.0), script.value.1))
  }

  lemma {:induction false} TxOutRoundTrip(o: CTxOut, rest: seq<byte>)
    requires |o.scriptPubKey| < 0x1_0000_0000_0000_0000
    ensures ParseTxOut(SerializeTxOut(o) + rest) == if |o.scriptPubKey| <= MAX_SIZE then Some((o, rest)) else None
  {
    Pow256Values();
    var s1 := SerializeBytes(o.scriptPubKey) + rest;
    assert SerializeTxOut(o) + rest == LE(OfInt64(o.nValue), 8) + s1;
    UIntRoundTrip(OfInt64(o.nValue), 8, s1);
    BytesRoundTrip(o.scriptPubKey, rest);
  }

  function SerializeTx(tx: CTransaction): seq<byte> {
    LE(OfInt32(tx.nVersion), 4) + SerializeVector(SerializeTxIn, tx.vin)
    + SerializeVector(SerializeTxOut, tx.vout) + LE(tx.nLockTime, 4)
  }

  function SizeTx(tx: CTransaction): nat {
    4 + GetSizeOfCompactSize(|tx.vin|) + SizeAll(SizeTxIn, tx.vin)
    + GetSizeOfCompactSize(|tx.vout|) + SizeAll(SizeTxOut, tx.vout) + 4
  }

  function ParseTx(s: seq<byte>): (r: Option<(CTransaction, seq<byte>)>)
    ensures r.Some? ==> |r.value.1| <= |s|
  {
    Pow256Values();
    ParseVectorShrinks(ParseTxIn);
    ParseVectorShrinks(ParseTxOut);
    var version := ReadUInt(4, s);
    if version.None? then None else
    var vin := ParseVector(ParseTxIn, version.value.1);
    if vin.None? then None else
    var vout := ParseVector(ParseTxOut, vin.value.1);
    if vout.None? then None else
    var lock := ReadUInt(4, vout.value.1);
    if lock.None? then None else
    Some((CTransaction(ToInt32(version.value.0), vin.value.0, vout.value.0, lock.value.0), lock.value.1))
  }

  /** Every length field is one that ReadCompactSize accepts. */
  predicate ShortIns(vin: seq<CTxIn>, limit: nat) {
    |vin| <= limit && forall k :: 0 <= k < |vin| ==> |vin[k].scriptSig| <= limit
  }

  predicate ShortOuts(vout: seq<CTxOut>, limit: nat) {
    |vout| <= limit && forall k :: 0 <= k < |vout| ==> |vout[k].scriptPubKey| <= limit
  }

  predicate Readable(tx: CTransaction) {
    ShortIns(tx.vin, MAX_SIZE) && ShortOuts(tx.vout, MAX_SIZE)
  }

  /** The lengths a transaction in memory can have at all. */
  predicate Addressable(tx: CTransaction) {
    ShortIns(tx.vin, 0xffff_ffff_ffff_ffff) && ShortOuts(tx.vout, 0xffff_ffff_ffff_ffff)
  }

  lemma {:induction false} SizeTxExact(tx: CTransaction)
    ensures |SerializeTx(tx)| == SizeTx(tx)
  {
    SizeAllExact(SerializeTxIn, SizeTxIn, tx.vin);
    SizeAllExact(SerializeTxOut, SizeTxOut, tx.vout);
  }

  lemma {:induction false} VinRoundTrip(vin: seq<CTxIn>, rest: seq<byte>)
    requires ShortIns(vin, 0xffff_ffff_ffff_ffff)
    ensures ParseVector(ParseTxIn, SerializeVector(SerializeTxIn, vin) + rest) ==
            if ShortIns(vin, MAX_SIZE) then Some((vin, rest)) else None
  {
    var ok := (x: CTxIn) => |x.scriptSig| <= MAX_SIZE;
    forall x, r | x in vin
      ensures ParseTxIn(SerializeTxIn(x) + r) == if ok(x) then Some((x, r)) else None
    {
      TxInRoundTrip(x, r);
    }
    VectorVerdict(SerializeTxIn, ParseTxIn, ok, vin, rest);
    assert ShortIns(vin, MAX_SIZE) <==> |vin| <= MAX_SIZE && forall k :: 0 <= k < |vin| ==> ok(vin[k]);
  }

  lemma {:induction false} VoutRoundTrip(vout: seq<CTxOut>, rest: seq<byte>)
    requires ShortOuts(vout, 0xffff_ffff_ffff_ffff)
    ensures ParseVector(ParseTxOut, SerializeVector(SerializeTxOut, vout) + rest) ==
            if ShortOuts(vout, MAX_SIZE) then Some((vout, rest)) else None
  {
    var ok := (x: CTxOut) => |x.scriptPubKey| <= MAX_SIZE;
    forall x, r | x in vout
      ensures ParseTxOut(SerializeTxOut(x) + r) == if ok(x) then Some((x, r)) else None
    {
      TxOutRoundTrip(x, r);
    }
    VectorVerdict(SerializeTxOut, ParseTxOut, ok, vout, rest);
    assert ShortOuts(vout, MAX_SIZE) <==> |vout| <= MAX_SIZE && forall k :: 0 <= k < |vout| ==> ok(vout[k]);
  }

  lemma {:induction false} FourParts(a: seq<byte>, b: seq<byte>, c: seq<byte>, d: seq<byte>, rest: seq<byte>)
    ensures a + b + c + d + rest == a + (b + (c + (d + rest)))
  {
  }

  /** A written transaction reads back, whatever follows it, exactly when every
      length it holds is at most MAX_SIZE; otherwise the reader throws. */
  lemma {:induction false} TxRoundTrip(tx: CTransaction, rest: seq<byte>)
    requires Addressable(tx)
    ensures ParseTx(SerializeTx(tx) + rest) == if Readable(tx) then Some((tx, rest)) else None
  {
    var ins, outs := SerializeVector(SerializeTxIn, tx.vin), SerializeVector(SerializeTxOut, tx.vout);
    var version, lock := OfInt32(tx.nVersion), LE(tx.nLockTime, 4);
    assert ToInt32(version) == tx.nVersion;
    var s3 := lock + rest;
    var s2 := outs + s3;
    var s1 := ins + s2;
    FourParts(LE(version, 4), ins, outs, lock, rest);
    Word4(version, s1);
    Word4(tx.nLockTime, rest);
    VinRoundTrip(tx.vin, s2);
    VoutRoundTrip(tx.vout, s3);
  }

  // ----- blocks and aux proofs -----

  function SerializeHash(h: uint256): seq<byte> {
    LE(h, 32)
  }

  function SizeHash(h: uint256): nat {
    32
  }

  function ParseHash(s: seq<byte>): (r: Option<(uint256, seq<byte>)>)
    ensures r.Some? ==> |r.value.1| <= |s|
  {
    Pow256Values();
    var h := ReadUInt(32, s);
    if h.None? then None else Some((h.value.0, h.value.1))
  }

  /** A list of hashes followed by a slot number: how both branches are stored. */
  function SerializeBranch(v: seq<uint256>, index: int32): seq<byte> {
    SerializeVector(SerializeHash, v) + LE(OfInt32(index), 4)
  }

  function SerializeAuxPow(a: CAuxPow): seq<byte>
    decreases a
  {
    SerializeTx(a.tx) + LE(a.hashBlock, 32) + SerializeBranch(a.vMerkleBranch, a.nIndex)
    + SerializeBranch(a.vChainMerkleBranch, a.nChainIndex) + SerializeBlock(a.parentBlock, true)
  }

  function SerializeHeader(b: CBlock): (s: seq<byte>)
    ensures |s| == 80
  {
    LE(OfInt32(b.nVersion), 4) + LE(b.hashPrevBlock, 32) + LE(b.hashMerkleRoot, 32)
    + LE(b.nTime, 4) + LE(b.nBits, 4) + LE(b.nNonce, 4)
  }

  function SerializeBlock(b: CBlock, headerOnly: bool): seq<byte>
    decreases b
  {
    SerializeHeader(b)
    + (if AuxBit(b.nVersion) && b.auxpow.Some? then SerializeAuxPow(b.auxpow.value) else [])
    + (if headerOnly then [] else SerializeVector(SerializeTx, b.vtx))
  }

  function SizeAuxPow(a: CAuxPow): nat
    decreases a
  {
    SizeTx(a.tx) + 32 + GetSizeOfCompactSize(|a.vMerkleBranch|) + SizeAll(SizeHash, a.vMerkleBranch) + 4
    + GetSizeOfCompactSize(|a.vChainMerkleBranch|) + SizeAll(SizeHash, a.vChainMerkleBranch) + 4
    + SizeBlock(a.parentBlock, true)
  }

  function SizeBlock(b: CBlock, headerOnly: bool): nat
    decreases b
  {
    4 + 32 + 32 + 4 + 4 + 4
    + (if AuxBit(b.nVersion) && b.auxpow.Some? then SizeAuxPow(b.auxpow.value) else 0)
    + (if headerOnly then 0 else GetSizeOfCompactSize(|b.vtx|) + SizeAll(SizeTx, b.vtx))
  }

  function ParseBranch(s: seq<byte>): (r: Option<((seq<uint256>, int32), seq<byte>)>)
    ensures r.Some? ==> |r.value.1| < |s|
  {
    Pow256Values();
    ParseVectorShrinks(ParseHash);
    var v := ParseVector(ParseHash, s);
    if v.None? then None else
    var index := ReadUInt(4, v.value.1);
    if index.None? then None else Some(((v.value.0, ToInt32(index.value.0)), index.value.1))
  }

  function ParseAuxPow(s: seq<byte>): (r: Option<(CAuxPow, seq<byte>)>)
    ensures r.Some? ==> |r.value.1| <= |s|
    decreases |s|, 0
  {
    Pow256Values();
    var tx := ParseTx(s);
    if tx.None? then None else
    var hashBlock := ReadUInt(32, tx.value.1);
    if hashBlock.None? then None else
    var branch := ParseBranch(hashBlock.value.1);
    if branch.None? then None else
    var chain := ParseBranch(branch.value.1);
    if chain.None? then None else
    var parent := ParseBlock(true, chain.value.1);
    if parent.None? then None else
    Some((CAuxPow(tx.value.0, hashBlock.value.0, branch.value.0.0, branch.value.0.1, chain.value.0.0,
                  chain.value.0.1, parent.value.0), parent.value.1))
  }

  function ParseHeader(s: seq<byte>): (r: Option<(CBlock, seq<byte>)>)
    ensures r.Some? ==> |r.value.1| < |s| && r.value.0.auxpow.None? && r.value.0.vtx == []
  {
    Pow256Values();
    var version := ReadUInt(4, s);
    if version.None? then None else
    var prev := ReadUInt(32, version.value.1);
    if prev.None? then None else
    var root := ReadUInt(32, prev.value.1);
    if root.None? then None else
    var time := ReadUInt(4, root.value.1);
    if time.None? then None else
    var bits := ReadUInt(4, time.value.1);
    if bits.None? then None else
    var nonce := ReadUInt(4, bits.value.1);
    if nonce.None? then None else
    Some((CBlock(ToInt32(version.value.0), prev.value.0, root.value.0, time.value.0, bits.value.0, nonce.value.0, [], None),
          nonce.value.1))
  }

  function ParseBlock(headerOnly: bool, s: seq<byte>): (r: Option<(CBlock, seq<byte>)>)
    ensures r.Some? ==> |r.value.1| <= |s|
    decreases |s|, 1
  {
    var header := ParseHeader(s);
    if header.None? then None else
    var aux: Option<(Option<CAuxPow>, seq<byte>)> :=
      if AuxBit(header.value.0.nVersion) then
        var a := ParseAuxPow(header.value.1);
        if a.None? then None else Some((Some(a.value.0), a.value.1))
      else Some((None, header.value.1));
    if aux.None? then None else
    ParseBody(headerOnly, header.value.0.(auxpow := aux.value.0), aux.value.1)
  }

  /** The transactions of b, unless only the header is to be read. */
  function ParseBody(headerOnly: bool, b: CBlock, s: seq<byte>): (r: Option<(CBlock, seq<byte>)>)
    ensures r.Some? ==> |r.value.1| <= |s| && r.value.0 == b.(vtx := r.value.0.vtx)
  {
    if headerOnly then Some((b, s)) else
    ParseVectorShrinks(ParseTx);
    var vtx := ParseVector(ParseTx, s);
    if vtx.None? then None else Some((b.(vtx := vtx.value.0), vtx.value.1))
  }

  lemma {:induction false} SizeHashes(v: seq<uint256>)
    ensures |SerializeAll(SerializeHash, v)| == SizeAll(SizeHash, v)
  {
    SizeAllExact(SerializeHash, SizeHash, v);
  }

  lemma {:induction false} SizeAuxPowExact(a: CAuxPow)
    ensures |SerializeAuxPow(a)| == SizeAuxPow(a)
    decreases a
  {
    SizeTxExact(a.tx);
    SizeHashes(a.vMerkleBranch);
    SizeHashes(a.vChainMerkleBranch);
    SizeBlockExact(a.parentBlock, true);
  }

  /** GetSerializeSize is the number of bytes Serialize writes. */
  lemma {:induction false} SizeBlockExact(b: CBlock, headerOnly: bool)
    ensures |SerializeBlock(b, headerOnly)| == SizeBlock(b, headerOnly)
    decreases b
  {
    if AuxBit(b.nVersion) && b.auxpow.Some? {
      SizeAuxPowExact(b.auxpow.value);
    }
    SizeTxs(b.vtx);
  }

  /** Where ConnectBlock's running nTxPos stands, relative to the start of the
      block, when it reaches transaction i. */
  function TxStart(b: CBlock, i: nat): nat
    requires i <= |b.vtx|
  {
    SizeBlock(b, true) + GetSizeOfCompactSize(|b.vtx|) + SizeAll(SizeTx, b.vtx[..i])
  }

  lemma {:induction false} SplitAtTx(b: CBlock, i: nat) returns (front: seq<byte>)
    requires i < |b.vtx|
    ensures |front| == TxStart(b, i)
    ensures SerializeBlock(b, false) == front + (SerializeTx(b.vtx[i]) + SerializeAll(SerializeTx, b.vtx[i + 1..]))
  {
    SizeBlockExact(b, true);
    SizeTxs(b.vtx[..i]);
    var head, before := SerializeBlock(b, true) + CompactSize(|b.vtx|), SerializeAll(SerializeTx, b.vtx[..i]);
    front := head + before;
    BodyLast(b);
    SplitTxs(b.vtx, i);
    Regroup(head, before, SerializeTx(b.vtx[i]) + SerializeAll(SerializeTx, b.vtx[i + 1..]));
  }

  lemma {:induction false} SizeTxs(v: seq<CTransaction>)
    ensures |SerializeAll(SerializeTx, v)| == SizeAll(SizeTx, v)
  {
    forall x | x in v
      ensures |SerializeTx(x)| == SizeTx(x)
    {
      SizeTxExact(x);
    }
    SizeAllExact(SerializeTx, SizeTx, v);
  }

  lemma {:induction false} SplitTxs(v: seq<CTransaction>, i: nat)
    requires i < |v|
    ensures SerializeAll(SerializeTx, v) ==
            SerializeAll(SerializeTx, v[..i]) + (SerializeTx(v[i]) + SerializeAll(SerializeTx, v[i + 1..]))
  {
    var after := v[i..];
    assert v == v[..i] + after;
    SerializeAllAppend(SerializeTx, v[..i], after);
    assert after[1..] == v[i + 1..];
  }

  lemma {:induction false} BodyLast(b: CBlock)
    ensures SerializeBlock(b, false) ==
            SerializeBlock(b, true) + CompactSize(|b.vtx|) + SerializeAll(SerializeTx, b.vtx)
  {
  }

  /** nTxPos is the exact offset of transaction i in the serialized block, with
      or without an aux proof. */
  lemma {:induction false} TxStartExact(b: CBlock, i: nat)
    requires i < |b.vtx|
    ensures TxStart(b, i) + SizeTx(b.vtx[i]) <= |SerializeBlock(b, false)|
    ensures SerializeBlock(b, false)[TxStart(b, i)..][..SizeTx(b.vtx[i])] == SerializeTx(b.vtx[i])
  {
    var front := SplitAtTx(b, i);
    SizeTxExact(b.vtx[i]);
    DropFront(front, SerializeTx(b.vtx[i]) + SerializeAll(SerializeTx, b.vtx[i + 1..]));
  }

  lemma {:induction false} DropFront(front: seq<byte>, tail: seq<byte>)
    ensures (front + tail)[|front|..] == tail
  {
  }

  /** Reading at the recorded position gives the transaction back. */
  lemma {:induction false} ReadAtTxStart(b: CBlock, i: nat, rest: seq<byte>)
    requires i < |b.vtx| && Readable(b.vtx[i])
    ensures TxStart(b, i) <= |SerializeBlock(b, false)|
    ensures ParseTx((SerializeBlock(b, false) + rest)[TxStart(b, i)..]) ==
            Some((b.vtx[i], SerializeAll(SerializeTx, b.vtx[i + 1..]) + rest))
  {
    var front := SplitAtTx(b, i);
    var more := SerializeAll(SerializeTx, b.vtx[i + 1..]);
    Regroup4(front, SerializeTx(b.vtx[i]), more, rest);
    DropFront(front, SerializeTx(b.vtx[i]) + (more + rest));
    ShortMono(b.vtx[i]);
    TxRoundTrip(b.vtx[i], more + rest);
  }

  lemma {:induction false} Regroup4(a: seq<byte>, b: seq<byte>, c: seq<byte>, d: seq<byte>)
    ensures a + (b + c) + d == a + (b + (c + d))
  {
  }

  predicate ReadableAuxPow(a: CAuxPow)
    decreases a
  {
    && Readable(a.tx) && |a.vMerkleBranch| <= MAX_SIZE && |a.vChainMerkleBranch| <= MAX_SIZE
    && (a.parentBlock.auxpow.Some? ==> ReadableAuxPow(a.parentBlock.auxpow.value))
  }

  predicate ReadableBlock(b: CBlock) {
    && |b.vtx| <= MAX_SIZE && (forall i :: 0 <= i < |b.vtx| ==> Readable(b.vtx[i]))
    && (b.auxpow.Some? ==> ReadableAuxPow(b.auxpow.value))
  }

  lemma {:induction false} HashesRoundTrip(v: seq<uint256>, rest: seq<byte>)
    requires |v| <= MAX_SIZE
    ensures ParseVector(ParseHash, SerializeVector(SerializeHash, v) + rest) == Some((v, rest))
  {
    forall x, r | x in v
      ensures ParseHash(SerializeHash(x) + r) == Some((x, r))
    {
      Word32(x, r);
    }
    VectorVerdict(SerializeHash, ParseHash, (x: uint256) => true, v, rest);
  }

  lemma {:induction false} Word4(n: uint32, rest: seq<byte>)
    ensures ReadUInt(4, LE(n, 4) + rest) == Some((n, rest))
  {
    Pow256Values();
    UIntRoundTrip(n, 4, rest);
  }

  lemma {:induction false} Word32(h: uint256, rest: seq<byte>)
    ensures ReadUInt(32, LE(h, 32) + rest) == Some((h, rest))
  {
    Pow256Values();
    UIntRoundTrip(h, 32, rest);
  }

  lemma {:induction false} BranchRoundTrip(v: seq<uint256>, index: int32, rest: seq<byte>)
    requires |v| <= MAX_SIZE
    ensures ParseBranch(SerializeBranch(v, index) + rest) == Some(((v, index), rest))
  {
    var s1 := LE(OfInt32(index), 4) + rest;
    assert SerializeBranch(v, index) + rest == SerializeVector(SerializeHash, v) + s1;
    HashesRoundTrip(v, s1);
    Word4(OfInt32(index), rest);
  }

  lemma {:induction false} HeaderRoundTrip(b: CBlock, rest: seq<byte>)
    ensures ParseHeader(SerializeHeader(b) + rest) == Some((b.(vtx := [], auxpow := None), rest))
  {
    var version := OfInt32(b.nVersion);
    assert ToInt32(version) == b.nVersion;
    var s5 := LE(b.nNonce, 4) + rest;
    var s4 := LE(b.nBits, 4) + s5;
    var s3 := LE(b.nTime, 4) + s4;
    var s2 := LE(b.hashMerkleRoot, 32) + s3;
    var s1 := LE(b.hashPrevBlock, 32) + s2;
    assert SerializeHeader(b) + rest == LE(version, 4) + s1;
    Word4(version, s1);
    Word32(b.hashPrevBlock, s2);
    Word32(b.hashMerkleRoot, s3);
    Word4(b.nTime, s4);
    Word4(b.nBits, s5);
    Word4(b.nNonce, rest);
  }

  lemma {:induction false} ParseAuxPowSteps(a: CAuxPow, s: seq<byte>, s1: seq<byte>, s2: seq<byte>, s3: seq<byte>, s4: seq<byte>, rest: seq<byte>)
    requires ParseTx(s) == Some((a.tx, s1))
    requires ReadUInt(32, s1) == Some((a.hashBlock, s2))
    requires ParseBranch(s2) == Some(((a.vMerkleBranch, a.nIndex), s3))
    requires ParseBranch(s3) == Some(((a.vChainMerkleBranch, a.nChainIndex), s4))
    requires ParseBlock(true, s4) == Some((a.parentBlock, rest))
    ensures ParseAuxPow(s) == Some((a, rest))
  {
  }

  lemma {:induction false} ParseBlockSteps(b: CBlock, headerOnly: bool, s: seq<byte>, s1: seq<byte>, s2: seq<byte>, rest: seq<byte>)
    requires ParseHeader(s) == Some((b.(vtx := [], auxpow := None), s1))
    requires AuxBit(b.nVersion) <==> b.auxpow.Some?
    requires if b.auxpow.Some? then ParseAuxPow(s1) == Some((b.auxpow.value, s2)) else s2 == s1
    requires if headerOnly then s2 == rest else ParseVector(ParseTx, s2) == Some((b.vtx, rest))
    ensures ParseBlock(headerOnly, s) == Some((if headerOnly then b.(vtx := []) else b, rest))
  {
  }

  lemma {:induction false} AuxPowRoundTrip(a: CAuxPow, rest: seq<byte>)
    requires ReadableAuxPow(a) && Canonical(a.parentBlock) && a.parentBlock.vtx == []
    ensures ParseAuxPow(SerializeAuxPow(a) + rest) == Some((a, rest))
    decreases a, 0
  {
    var parent := SerializeBlock(a.parentBlock, true);
    BlockRoundTrip(a.parentBlock, true, rest);
    assert SerializeAuxPow(a) == SerializeTx(a.tx) + LE(a.hashBlock, 32) + SerializeBranch(a.vMerkleBranch, a.nIndex)
           + SerializeBranch(a.vChainMerkleBranch, a.nChainIndex) + parent;
    AuxPowTail(a, parent, rest);
  }

  lemma {:induction false} AuxPowTail(a: CAuxPow, parent: seq<byte>, rest: seq<byte>)
    requires Readable(a.tx) && |a.vMerkleBranch| <= MAX_SIZE && |a.vChainMerkleBranch| <= MAX_SIZE
    requires ParseBlock(true, parent + rest) == Some((a.parentBlock, rest))
    ensures ParseAuxPow(SerializeTx(a.tx) + LE(a.hashBlock, 32) + SerializeBranch(a.vMerkleBranch, a.nIndex)
                        + SerializeBranch(a.vChainMerkleBranch, a.nChainIndex) + parent + rest) == Some((a, rest))
  {
    var x, h, m, c := SerializeTx(a.tx), LE(a.hashBlock, 32), SerializeBranch(a.vMerkleBranch, a.nIndex),
                      SerializeBranch(a.vChainMerkleBranch, a.nChainIndex);
    var s4 := parent + rest;
    var s3 := c + s4;
    var s2 := m + s3;
    var s1 := h + s2;
    Regroup6(x, h, m, c, parent, rest);
    ShortMono(a.tx);
    TxRoundTrip(a.tx, s1);
    Word32(a.hashBlock, s2);
    BranchRoundTrip(a.vMerkleBranch, a.nIndex, s3);
    BranchRoundTrip(a.vChainMerkleBranch, a.nChainIndex, s4);
    ParseAuxPowSteps(a, x + s1, s1, s2, s3, s4, rest);
  }

  lemma {:induction false} Regroup6(a: seq<byte>, b: seq<byte>, c: seq<byte>, d: seq<byte>, e: seq<byte>, f: seq<byte>)
    ensures a + b + c + d + e + f == a + (b + (c + (d + (e + f))))
  {
  }

  /** A canonical block reads back whole; read as a header it comes back without
      its transactions but with its aux proof. */
  lemma {:induction false} BlockRoundTrip(b: CBlock, headerOnly: bool, rest: seq<byte>)
    requires Canonical(b)
    requires if headerOnly then b.auxpow.Some? ==> ReadableAuxPow(b.auxpow.value) else ReadableBlock(b)
    ensures ParseBlock(headerOnly, SerializeBlock(b, headerOnly) + rest) ==
            Some((if headerOnly then b.(vtx := []) else b, rest))
    decreases b, 1
  {
    BlockSplit(b, headerOnly, rest);
    var body := if headerOnly then rest else SerializeVector(SerializeTx, b.vtx) + rest;
    if b.auxpow.Some? {
      AuxPowRoundTrip(b.auxpow.value, body);
    }
    BlockTail(b, headerOnly, if b.auxpow.Some? then SerializeAuxPow(b.auxpow.value) else [], body, rest);
  }

  lemma {:induction false} BlockTail(b: CBlock, headerOnly: bool, aux: seq<byte>, body: seq<byte>, rest: seq<byte>)
    requires AuxBit(b.nVersion) <==> b.auxpow.Some?
    requires if b.auxpow.Some? then ParseAuxPow(aux + body) == Some((b.auxpow.value, body)) else aux == []
    requires !headerOnly ==> |b.vtx| <= MAX_SIZE && forall i :: 0 <= i < |b.vtx| ==> Readable(b.vtx[i])
    requires body == if headerOnly then rest else SerializeVector(SerializeTx, b.vtx) + rest
    ensures ParseBlock(headerOnly, SerializeHeader(b) + (aux + body)) ==
            Some((if headerOnly then b.(vtx := []) else b, rest))
  {
    HeaderRoundTrip(b, aux + body);
    if b.auxpow.None? {
      assert aux + body == body;
    }
    if !headerOnly {
      VtxRoundTrip(b.vtx, rest);
    }
    ParseBlockSteps(b, headerOnly, SerializeHeader(b) + (aux + body), aux + body, body, rest);
  }

  lemma {:induction false} BlockSplit(b: CBlock, headerOnly: bool, rest: seq<byte>)
    requires Canonical(b)
    ensures SerializeBlock(b, headerOnly) + rest ==
            SerializeHeader(b) + ((if b.auxpow.Some? then SerializeAuxPow(b.auxpow.value) else [])
                                  + (if headerOnly then rest else SerializeVector(SerializeTx, b.vtx) + rest))
  {
  }

  lemma {:induction false} VtxRoundTrip(vtx: seq<CTransaction>, rest: seq<byte>)
    requires |vtx| <= MAX_SIZE && forall i :: 0 <= i < |vtx| ==> Readable(vtx[i])
    ensures ParseVector(ParseTx, SerializeVector(SerializeTx, vtx) + rest) == Some((vtx, rest))
  {
    forall x, r | x in vtx
      ensures ParseTx(SerializeTx(x) + r) == Some((x, r))
    {
      ShortMono(x);
      TxRoundTrip(x, r);
    }
    VectorVerdict(SerializeTx, ParseTx, (x: CTransaction) => true, vtx, rest);
  }

  lemma {:induction false} ShortMono(tx: CTransaction)
    ensures Readable(tx) ==> Addressable(tx)
  {
  }

  // ----- what a size limit implies -----

  lemma {:induction false} ElementFits<T>(size: T -> nat, v: seq<T>, k: nat)
    requires k < |v|
    ensures size(v[k]) <= SizeAll(size, v)
    decreases k
  {
    if k > 0 {
      ElementFits(size, v[1..], k - 1);
    }
  }

  lemma {:induction false} CountFits<T>(size: T -> nat, v: seq<T>)
    requires forall x :: x in v ==> size(x) >= 1
    ensures |v| <= SizeAll(size, v)
  {
    if v != [] {
      CountFits(size, v[1..]);
    }
  }

  lemma {:induction false} SmallTxIsReadable(tx: CTransaction)
    requires SizeTx(tx) <= MAX_SIZE
    ensures Readable(tx)
  {
    CountFits(SizeTxIn, tx.vin);
    CountFits(SizeTxOut, tx.vout);
    forall k | 0 <= k < |tx.vin|
      ensures |tx.vin[k].scriptSig| <= MAX_SIZE
    {
      ElementFits(SizeTxIn, tx.vin, k);
    }
    forall k | 0 <= k < |tx.vout|
      ensures |tx.vout[k].scriptPubKey| <= MAX_SIZE
    {
      ElementFits(SizeTxOut, tx.vout, k);
    }
  }

  lemma {:induction false} SmallAuxPowIsReadable(a: CAuxPow)
    requires SizeAuxPow(a) <= MAX_SIZE && Canonical(a.parentBlock)
    ensures ReadableAuxPow(a)
    decreases a
  {
    SmallTxIsReadable(a.tx);
    CountFits(SizeHash, a.vMerkleBranch);
    CountFits(SizeHash, a.vChainMerkleBranch);
    if a.parentBlock.auxpow.Some? {
      SmallAuxPowIsReadable(a.parentBlock.auxpow.value);
    }
  }

  /** A canonical block within the size limit has only lengths the reader accepts. */
  lemma {:induction false} SmallBlockIsReadable(b: CBlock)
    requires SizeBlock(b, false) <= MAX_SIZE && Canonical(b)
    ensures ReadableBlock(b)
  {
    CountFits(SizeTx, b.vtx);
    forall i | 0 <= i < |b.vtx|
      ensures Readable(b.vtx[i])
    {
      ElementFits(SizeTx, b.vtx, i);
      SmallTxIsReadable(b.vtx[i]);
    }
    if b.auxpow.Some? {
      SmallAuxPowIsReadable(b.auxpow.value);
    }
  }

  /** The reader only ever produces canonical blocks. */
  lemma {:induction false} ParsedIsCanonical(headerOnly: bool, s: seq<byte>)
    ensures var r := ParseBlock(headerOnly, s);
            r.Some? ==> Canonical(r.value.0) && (headerOnly ==> r.value.0.vtx == [])
    decreases |s|, 1
  {
    var header := ParseHeader(s);
    if header.Some? && AuxBit(header.value.0.nVersion) {
      ParsedAuxIsCanonical(header.value.1);
    }
  }

  lemma {:induction false} ParsedAuxIsCanonical(s: seq<byte>)
    ensures var r := ParseAuxPow(s);
            r.Some? ==> Canonical(r.value.0.parentBlock) && r.value.0.parentBlock.vtx == []
    decreases |s|, 0
  {
    var tx := ParseTx(s);
    if tx.Some? {
      var h := ReadUInt(32, tx.value.1);
      if h.Some? {
        var b := ParseBranch(h.value.1);
        if b.Some? {
          var c := ParseBranch(b.value.1);
          if c.Some? {
            ParsedIsCanonical(true, c.value.1);
          }
        }
      }
    }
  }
}
