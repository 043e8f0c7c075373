/** Paths of blocks, the ledgers they stand for, and the block files that hold
    them: what one block more or less does to a sound path. */
module Chain {
  import opened Basics
  import opened Serialize
  import opened TxIndex
  import opened Ledger
  import opened Supply
  import opened BlockIndex
  import opened TxDb
  import opened Connect
  import opened Maturity
  import opened Rules

  // ----- paths and their ledgers -----

  /** The transactions of the blocks above the root of a path. */
  ghost function LedgerOf(path: seq<CBlockIndex>): seq<Entry> {
    if |path| <= 1 then [] else LedgerOf(path[..|path| - 1]) + BlockEntries(path[|path| - 1])
  }

  /** The ledger of the first k blocks of the path is valid, its unspent value is
      within the subsidies paid so far, and block k spends no immature coinbase. */
  ghost predicate SoundAt(f: TxHash, path: seq<CBlockIndex>, k: nat)
    requires 1 <= k <= |path|
  {
    var l := LedgerOf(path[..k]);
    && ValidLedger(f, l) && Covers(f, LedgerIndex(f, l), l)
    && UnspentValue(f, LedgerIndex(f, l), l) <= TotalSubsidy(k - 1) && MatureTop(f, path[..k])
  }

  ghost predicate SoundPath(f: TxHash, path: seq<CBlockIndex>) {
    forall k {:trigger SoundAt(f, path, k)} :: 1 <= k <= |path| ==> SoundAt(f, path, k)
  }

  lemma {:induction false} SoundLedger(f: TxHash, path: seq<CBlockIndex>)
    requires SoundPath(f, path) && path != []
    ensures var l := LedgerOf(path);
            && ValidLedger(f, l) && Covers(f, LedgerIndex(f, l), l)
            && UnspentValue(f, LedgerIndex(f, l), l) <= TotalSubsidy(|path| - 1)
  {
    assert path[..|path|] == path;
    assert SoundAt(f, path, |path|);
  }

  lemma {:induction false} SoundPrefix(f: TxHash, path: seq<CBlockIndex>, p: CBlockIndex)
    requires SoundPath(f, path + [p])
    ensures SoundPath(f, path)
  {
    forall k | 1 <= k <= |path|
      ensures SoundAt(f, path, k)
    {
      assert SoundAt(f, path + [p], k);
      assert (path + [p])[..k] == path[..k];
    }
  }

  lemma {:induction false} SoundExtend(f: TxHash, path: seq<CBlockIndex>, p: CBlockIndex)
    requires SoundPath(f, path)
    requires var l := LedgerOf(path + [p]);
             && ValidLedger(f, l) && Covers(f, LedgerIndex(f, l), l)
             && UnspentValue(f, LedgerIndex(f, l), l) <= TotalSubsidy(|path|)
    requires MatureTop(f, path + [p])
    ensures SoundPath(f, path + [p])
  {
    var q := path + [p];
    forall k | 1 <= k <= |q|
      ensures SoundAt(f, q, k)
    {
      if k <= |path| {
        assert SoundAt(f, path, k);
        assert q[..k] == path[..k];
      } else {
        assert q[..k] == q;
      }
    }
  }

  /** The block lies in the files at that position, in a form that reads back,
      and every offset inside it fits 32 bits. */
  ghost predicate StoredAt(files: Files, nFile: nat, nBlockPos: nat, b: CBlock) {
    && nFile in files && nFile < UINT_MAX && 8 <= nBlockPos <= |files[nFile]|
    && SerializeBlock(b, false) <= files[nFile][nBlockPos..]
    && nBlockPos + SizeBlock(b, false) < 0x8000_0000
    && Canonical(b) && ReadableBlock(b)
    && forall i :: 0 <= i < |b.vtx| ==> TxOk(b.vtx[i])
  }

  ghost predicate BlockStored(files: Files, p: CBlockIndex) {
    StoredAt(files, p.nFile, p.nBlockPos, p.block)
  }

  /** Each recorded position reads back as its own transaction; the recorded
      numbers fit 32 bits, so the unsigned running offset never wraps. */
  lemma {:induction false} StoredTxReads(files: Files, p: CBlockIndex, i: nat)
    requires BlockStored(files, p) && i < |p.block.vtx|
    ensures BlockEntries(p)[i].pos != MemoryPos && !BlockEntries(p)[i].pos.IsNull()
    ensures BlockEntries(p)[i].pos.nTxPos < 0x8000_0000
    ensures ReadTx(files, BlockEntries(p)[i].pos) == Some(p.block.vtx[i])
  {
    StoredTxInRange(p, i);
    var file, bytes := files[p.nFile], SerializeBlock(p.block, false);
    ReadAtTxStart(p.block, i, file[p.nBlockPos..][|bytes|..]);
    DropInside(file, p.nBlockPos, bytes, TxStart(p.block, i));
  }

  lemma {:induction false} StoredTxInRange(p: CBlockIndex, i: nat)
    requires i < |p.block.vtx|
    ensures TxStart(p.block, i) <= SizeBlock(p.block, false) == |SerializeBlock(p.block, false)|
  {
    TxStartExact(p.block, i);
    SizeBlockExact(p.block, false);
  }

  lemma {:induction false} DropInside(s: seq<byte>, a: nat, bytes: seq<byte>, k: nat)
    requires a <= |s| && bytes <= s[a..] && k <= |bytes|
    ensures a + k <= |s| && s[a + k..] == (bytes + s[a..][|bytes|..])[k..]
  {
    assert s[a..] == bytes + s[a..][|bytes|..];
  }

  lemma {:induction false} ReadBlockOver(files: Files, nFile: nat, nBlockPos: nat, bytes: seq<byte>, b: CBlock)
    requires nFile in files && nBlockPos <= |files[nFile]| && bytes <= files[nFile][nBlockPos..]
    requires var rest := files[nFile][nBlockPos..][|bytes|..]; ParseBlock(false, bytes + rest) == Some((b, rest))
    ensures ReadBlock(files, nFile, nBlockPos) == Some(b)
  {
    var tail := files[nFile][nBlockPos..];
    assert tail == bytes + tail[|bytes|..];
  }

  lemma {:induction false} StoredReads(files: Files, nFile: nat, nBlockPos: nat, b: CBlock)
    requires StoredAt(files, nFile, nBlockPos, b)
    ensures ReadBlock(files, nFile, nBlockPos) == Some(b)
  {
    var bytes := SerializeBlock(b, false);
    BlockRoundTrip(b, false, files[nFile][nBlockPos..][|bytes|..]);
    ReadBlockOver(files, nFile, nBlockPos, bytes, b);
  }

  ghost predicate ReadIs(files: Files, nFile: nat, nBlockPos: nat, r: Option<CBlock>) {
    r == ReadBlock(files, nFile, nBlockPos)
  }

  /** Reading at that position gives b. */
  ghost predicate ReadsAs(files: Files, nFile: nat, nBlockPos: nat, b: CBlock) {
    forall r {:trigger ReadIs(files, nFile, nBlockPos, r)} :: ReadIs(files, nFile, nBlockPos, r) ==> r == Some(b)
  }

  ghost predicate PathStored(files: Files, path: seq<CBlockIndex>) {
    forall k :: 0 <= k < |path| ==> BlockStored(files, path[k])
  }

  lemma {:induction false} LedgerStored(c: Context, files: Files, path: seq<CBlockIndex>)
    requires PathStored(files, path)
    requires forall h, pos :: pos != MemoryPos ==> c.fetch(h, pos) == ReadTx(files, pos)
    ensures EntriesStored(c, LedgerOf(path))
  {
    if |path| > 1 {
      var front, p := path[..|path| - 1], path[|path| - 1];
      assert forall k :: 0 <= k < |front| ==> front[k] == path[k];
      LedgerStored(c, files, front);
      BlockEntriesStored(c, files, p);
      StoredAppend(c, LedgerOf(front), BlockEntries(p));
    }
  }

  ghost predicate EntriesStored(c: Context, l: seq<Entry>) {
    FetchAgrees(c, l) && EntriesInRange(c, l) && AllPlaced(l)
  }

  lemma {:induction false} StoredAppend(c: Context, l: seq<Entry>, m: seq<Entry>)
    requires EntriesStored(c, l) && EntriesStored(c, m)
    ensures EntriesStored(c, l + m)
  {
  }

  lemma {:induction false} BlockEntriesStored(c: Context, files: Files, p: CBlockIndex)
    requires BlockStored(files, p)
    requires forall h, pos :: pos != MemoryPos ==> c.fetch(h, pos) == ReadTx(files, pos)
    ensures EntriesStored(c, BlockEntries(p))
  {
    forall i | 0 <= i < |BlockEntries(p)|
      ensures BlockEntries(p)[i].pos != MemoryPos && !BlockEntries(p)[i].pos.IsNull()
      ensures ReadTx(files, BlockEntries(p)[i].pos) == Some(p.block.vtx[i]) && TxOk(p.block.vtx[i])
    {
      StoredTxReads(files, p, i);
    }
  }

  // ----- one block more, one block less -----

  lemma {:induction false} LedgerExtend(path: seq<CBlockIndex>, p: CBlockIndex)
    requires path != []
    ensures LedgerOf(path + [p]) == LedgerOf(path) + BlockEntries(p)
  {
    assert (path + [p])[..|path|] == path;
  }

  lemma {:induction false} FetchInRangeOfLedger(c: Context, l: seq<Entry>)
    requires ValidLedger(c.hashTx, l) && EntriesInRange(c, l)
    ensures FetchInRange(c, LedgerIndex(c.hashTx, l))
  {
    LedgerCovers(c.hashTx, l);
    forall h | h in LedgerIndex(c.hashTx, l)
      ensures InRangeAt(c, LedgerIndex(c.hashTx, l), h)
    {
      assert IsKey(c.hashTx, l, h);
    }
  }

  lemma {:induction false} BlockMints(b: CBlock, es: seq<Entry>)
    requires b.vtx != [] && b.vtx[0].IsCoinBase() && forall i :: 1 <= i < |b.vtx| ==> !b.vtx[i].IsCoinBase()
    requires |es| == |b.vtx| && forall i :: 0 <= i < |es| ==> es[i].tx == b.vtx[i]
    ensures MintedBy(es) == ValueOf(b.vtx[0].vout)
  {
    assert es[0].tx == b.vtx[0];
    var rest := es[1..];
    forall i | 0 <= i < |rest|
      ensures !rest[i].tx.IsCoinBase()
    {
      assert rest[i].tx == b.vtx[i + 1];
    }
    OnlyFirstMints(rest);
  }

  lemma {:induction false} InJoined(l: seq<Entry>, es: seq<Entry>, m: nat)
    requires m < |l| + |es|
    ensures (l + es)[m] == if m < |l| then l[m] else es[m - |l|]
  {
  }

  lemma {:induction false} BlockInLedger(path: seq<CBlockIndex>, j: nat, b: nat)
    requires 1 <= j < |path| && b < |path[j].block.vtx|
    ensures exists m :: 0 <= m < |LedgerOf(path)| && LedgerOf(path)[m] == BlockEntries(path[j])[b]
  {
    var front, top := path[..|path| - 1], path[|path| - 1];
    var l, es := LedgerOf(front), BlockEntries(top);
    assert LedgerOf(path) == l + es;
    if j < |front| {
      BlockInLedger(front, j, b);
      var m :| 0 <= m < |l| && l[m] == BlockEntries(front[j])[b];
      InJoined(l, es, m);
      assert LedgerOf(path)[m] == BlockEntries(path[j])[b];
    } else {
      InJoined(l, es, |l| + b);
      assert LedgerOf(path)[|l| + b] == BlockEntries(path[j])[b];
    }
  }

  lemma {:induction false} ConnectMature(w: World, c: Context, path: seq<CBlockIndex>, p: CBlockIndex)
    requires c.hashTx == w.hashTx && path != [] && Linked(p) && Path(p) == path + [p]
    requires ValidLedger(w.hashTx, LedgerOf(path)) && DistinctTxids(w.hashTx, LedgerOf(path + [p]))
    requires EntriesStored(c, LedgerOf(path + [p])) && forall pos :: c.immature(pos) == Immature(p, pos)
    requires ConnectedIndex(w, c, LedgerIndex(w.hashTx, LedgerOf(path)), p).Some?
    ensures MatureTop(w.hashTx, path + [p])
  {
    var v := path + [p];
    forall j {:trigger v[j]} | 1 <= j < |v| && SpendsCoinbase(w.hashTx, p, v[j])
      ensures |v| - 1 - j >= COINBASE_MATURITY
    {
      var a: nat, i: nat, b: nat :| SpendsCoinbaseAt(w.hashTx, p, a, i, v[j], b);
      LedgerExtend(path, p);
      BlockInLedger(v, j, b);
      var m :| 0 <= m < |LedgerOf(v)| && LedgerOf(v)[m] == BlockEntries(v[j])[b];
      EntriesPlaced(c, LedgerOf(path), BlockEntries(p));
      EntriesRipe(c, LedgerOf(path), BlockEntries(p), 0, a, i, m);
      NotImmature(p, BlockEntries(v[j])[b].pos, j);
    }
  }

  lemma {:induction false} EntriesPlaced(c: Context, l: seq<Entry>, es: seq<Entry>)
    requires EntriesStored(c, l + es)
    ensures AllPlaced(es) && FetchAgrees(c, l + es)
  {
    forall k | 0 <= k < |es| ensures !es[k].pos.IsNull() { assert (l + es)[|l| + k] == es[k]; }
  }

  /** The coinbase of b has a new hash. */
  ghost predicate NewCoinBase(f: TxHash, l: seq<Entry>, b: CBlock) {
    b.vtx != [] ==> forall k {:trigger HashOf(f, l[k])} :: 0 <= k < |l| ==> HashOf(f, l[k]) != f(b.vtx[0])
  }

  lemma {:induction false} BlockIsOn(w: World, l: seq<Entry>, p: CBlockIndex)
    requires BlockOk(w, p.block, p.nHeight) && NewCoinBase(w.hashTx, l, p.block)
    ensures BlockOn(w.hashTx, l, BlockEntries(p))
  {
    PlacedKeys(w.hashTx, l);
    forall k | 1 <= k < |BlockEntries(p)|
      ensures Spends(BlockEntries(p)[k])
    {
      assert TxOk(p.block.vtx[k]);
    }
  }

  /** No hash is repeated on the path to a block that connects.  For its coinbase that is
      assumed; for the others it follows. */
  lemma {:induction false} ConnectDistinct(w: World, c: Context, path: seq<CBlockIndex>, p: CBlockIndex)
    requires c.hashTx == w.hashTx && path != [] && ValidLedger(w.hashTx, LedgerOf(path))
    requires NoCollisions(w.hashTx, LedgerOf(path + [p])) && NewCoinBase(w.hashTx, LedgerOf(path), p.block)
    requires EntriesStored(c, LedgerOf(path + [p]))
    requires ConnectedIndex(w, c, LedgerIndex(w.hashTx, LedgerOf(path)), p).Some?
    ensures DistinctTxids(w.hashTx, LedgerOf(path + [p]))
  {
    var l, es := LedgerOf(path), BlockEntries(p);
    LedgerExtend(path, p);
    EntriesPlaced(c, l, es);
    BlockIsOn(w, l, p);
    ConnectMints(w, c, LedgerIndex(w.hashTx, l), p);
    ConnectedAreDistinct(c, l, es, 0);
  }

  /** A block that ConnectBlock accepts on top of a sound path extends it: the
      index becomes that of the longer ledger, and the money in it grows by no
      more than the subsidy of the new height. */
  lemma {:induction false} ConnectExtends(w: World, c: Context, path: seq<CBlockIndex>, p: CBlockIndex)
    requires c.hashTx == w.hashTx && path != [] && p.nHeight == |path|
    requires NoCollisions(w.hashTx, LedgerOf(path + [p])) && NewCoinBase(w.hashTx, LedgerOf(path), p.block)
    requires SoundPath(w.hashTx, path) && EntriesStored(c, LedgerOf(path + [p]))
    requires Linked(p) && Path(p) == path + [p] && forall pos :: c.immature(pos) == Immature(p, pos)
    ensures var r := ConnectedIndex(w, c, LedgerIndex(w.hashTx, LedgerOf(path)), p);
            r.Some? ==> r.value == LedgerIndex(w.hashTx, LedgerOf(path + [p])) && SoundPath(w.hashTx, path + [p])
  {
    var f, l, es := w.hashTx, LedgerOf(path), BlockEntries(p);
    LedgerExtend(path, p);
    SoundLedger(f, path);
    if ConnectedIndex(w, c, LedgerIndex(f, l), p).Some? {
      ConnectDistinct(w, c, path, p);
      ConnectMints(w, c, LedgerIndex(f, l), p);
      EntriesPlaced(c, l, es);
      EntriesGrow(c, l, es);
      ConnectMature(w, c, path, p);
      SoundExtend(f, path, p);
    }
  }

  // ----- the rules for a block -----

  /** Which coinbases may not be spent by p's block. */
  ghost function YoungAt(p: CBlockIndex): Young {
    (pos: CDiskTxPos) => Linked(p) && Immature(p, pos)
  }

  /** l holds the transactions below p. */
  ghost predicate BelowIs(p: CBlockIndex, l: seq<Entry>)
    requires Linked(p) && p.pprev != null
  {
    l == LedgerOf(Path(p.pprev))
  }

  /** On top of l p's block passes its own checks, its transactions come in a right order,
      and its coinbase takes no more than the subsidy and what the others pay. */
  ghost predicate Fair(w: World, l: seq<Entry>, p: CBlockIndex) {
    var es, placed := BlockEntries(p), Placed(w.hashTx, l + BlockEntries(p));
    && BlockOk(w, p.block, p.nHeight)
    && InOrder(w.hashTx, w.verifyScript, YoungAt(p), l, es, |es|)
    && FeesInRange(placed, es) && ValueOf(p.block.vtx[0].vout) <= Subsidy(p.nHeight) + TotalFee(placed, es)
  }

  /** p's block satisfies the rules on top of its own ancestors. */
  ghost predicate Approved(w: World, p: CBlockIndex) {
    Linked(p) && p.pprev != null && forall l {:trigger BelowIs(p, l)} :: BelowIs(p, l) ==> Fair(w, l, p)
  }

  lemma {:induction false} InOrderSame(f: TxHash, verify: Verify, young: Young, young': Young, l: seq<Entry>, es: seq<Entry>, n: nat)
    requires forall pos :: young'(pos) == young(pos)
    ensures InOrder(f, verify, young, l, es, n) ==> InOrder(f, verify, young', l, es, n)
  {
    if InOrder(f, verify, young, l, es, n) {
      forall m: nat | m < n
        ensures RuleAt(f, verify, young', l, es, m)
      {
        assert RuleAt(f, verify, young, l, es, m);
        RuleSame(verify, young, young', Placed(f, l + es[..m]), Spent(l + es[..m]), es[m].tx);
      }
    }
  }

  lemma {:induction false} RuleSame(verify: Verify, young: Young, young': Young, placed: map<uint256, Entry>,
                                    spent: map<COutPoint, CDiskTxPos>, tx: CTransaction)
    requires forall pos :: young'(pos) == young(pos)
    requires EntryRule(verify, young, placed, spent, tx)
    ensures EntryRule(verify, young', placed, spent, tx)
  {
    if !tx.IsCoinBase() {
      forall k: nat | k < |tx.vin|
        ensures InputOk(verify, young', placed, tx, k)
      {
        assert InputOk(verify, young, placed, tx, k);
      }
    }
  }

  lemma {:induction false} BlockStoredOn(w: World, c: Context, l: seq<Entry>, p: CBlockIndex)
    requires c.hashTx == w.hashTx && ValidLedger(w.hashTx, l) && BlockOk(w, p.block, p.nHeight)
    requires NoCollisions(w.hashTx, l + BlockEntries(p)) && NewCoinBase(w.hashTx, l, p.block)
    requires EntriesStored(c, l + BlockEntries(p))
    ensures Stored(c, l, BlockEntries(p))
  {
    EntriesPlaced(c, l, BlockEntries(p));
    BlockIsOn(w, l, p);
    StoredValues(c, l + BlockEntries(p));
  }

  lemma {:induction false} StoredValues(c: Context, l: seq<Entry>)
    requires EntriesStored(c, l)
    ensures ValuesOk(l)
  {
  }

  /** ConnectBlock accepts exactly the blocks that satisfy the rules. */
  lemma {:induction false} ConnectExact(w: World, c: Context, p: CBlockIndex)
    requires Linked(p) && p.pprev != null && ValidLedger(w.hashTx, LedgerOf(Path(p.pprev)))
    requires c.hashTx == w.hashTx && c.verifyScript == w.verifyScript && forall pos :: c.immature(pos) == Immature(p, pos)
    requires NoCollisions(w.hashTx, LedgerOf(Path(p))) && NewCoinBase(w.hashTx, LedgerOf(Path(p.pprev)), p.block)
    requires EntriesStored(c, LedgerOf(Path(p)))
    ensures ConnectedIndex(w, c, LedgerIndex(w.hashTx, LedgerOf(Path(p.pprev))), p).Some? <==> Approved(w, p)
  {
    var l := LedgerOf(Path(p.pprev));
    LedgerExtend(Path(p.pprev), p);
    assert BelowIs(p, l);
    if BlockOk(w, p.block, p.nHeight) {
      BlockStoredOn(w, c, l, p);
      FairExact(w, c, l, p);
    }
  }

  lemma {:induction false} FairExact(w: World, c: Context, l: seq<Entry>, p: CBlockIndex)
    requires Linked(p) && BlockOk(w, p.block, p.nHeight) && Stored(c, l, BlockEntries(p))
    requires c.hashTx == w.hashTx && c.verifyScript == w.verifyScript && forall pos :: c.immature(pos) == Immature(p, pos)
    ensures ConnectedIndex(w, c, LedgerIndex(w.hashTx, l), p).Some? <==> Fair(w, l, p)
  {
    var es := BlockEntries(p);
    EntriesExact(c, l, es, |es|);
    assert es[..|es|] == es;
    InOrderSame(w.hashTx, w.verifyScript, c.immature, YoungAt(p), l, es, |es|);
    InOrderSame(w.hashTx, w.verifyScript, YoungAt(p), c.immature, l, es, |es|);
  }

  /** What an accepted block mints is at most the subsidy and the fees. */
  lemma {:induction false} ConnectMints(w: World, c: Context, idx: Index, p: CBlockIndex)
    requires ConnectedIndex(w, c, idx, p).Some?
    ensures var r := ConnectEntries(c, idx, BlockEntries(p), 0);
            r.Some? && ConnectedIndex(w, c, idx, p).value == r.value.0
            && MintedBy(BlockEntries(p)) <= Subsidy(p.nHeight) + r.value.1
  {
    BlockMints(p.block, BlockEntries(p));
  }

  /** Connected entries are appended to the ledger, and the money grows by what they
      mint less the fees. */
  lemma {:induction false} EntriesGrow(c: Context, l: seq<Entry>, es: seq<Entry>)
    requires ValidLedger(c.hashTx, l) && AllPlaced(es) && DistinctTxids(c.hashTx, l + es) && FetchAgrees(c, l + es)
    ensures var f, l' := c.hashTx, l + es;
            var r := ConnectEntries(c, LedgerIndex(f, l), es, 0);
            && Covers(f, LedgerIndex(f, l), l)
            && (r.Some? ==> r.value.0 == LedgerIndex(f, l') && ValidLedger(f, l') && Covers(f, LedgerIndex(f, l'), l')
                            && UnspentValue(f, LedgerIndex(f, l'), l') + r.value.1 == UnspentValue(f, LedgerIndex(f, l), l) + MintedBy(es))
  {
    ConnectEntriesOnLedger(c, l, es, 0);
    ConnectEntriesConserves(c, l, es, 0);
  }

  lemma {:induction false} DisconnectShrinks(f: TxHash, path: seq<CBlockIndex>, p: CBlockIndex)
    requires path != [] && SoundPath(f, path + [p])
    ensures SoundPath(f, path)
    ensures DisconnectEntries(f, LedgerIndex(f, LedgerOf(path + [p])), BlockEntries(p)) == Some(LedgerIndex(f, LedgerOf(path)))
  {
    LedgerExtend(path, p);
    SoundPrefix(f, path, p);
    SoundLedger(f, path + [p]);
    DisconnectEntriesOnLedger(f, LedgerOf(path), BlockEntries(p));
  }

  /** Files only ever grow at the end. */
  ghost predicate Extends(files: Files, files': Files) {
    forall n :: n in files ==> n in files' && files[n] <= files'[n]
  }

  lemma {:induction false} StoredStays(files: Files, files': Files, nFile: nat, nBlockPos: nat, b: CBlock)
    requires StoredAt(files, nFile, nBlockPos, b) && Extends(files, files')
    ensures StoredAt(files', nFile, nBlockPos, b)
  {
    PrefixStays(SerializeBlock(b, false), files[nFile], files'[nFile], nBlockPos);
  }

  lemma {:induction false} PrefixStays(bytes: seq<byte>, s: seq<byte>, t: seq<byte>, k: nat)
    requires k <= |s| && bytes <= s[k..] && s <= t
    ensures bytes <= t[k..]
  {
    assert forall i :: 0 <= i < |bytes| ==> bytes[i] == s[k..][i] == s[k + i] == t[k + i] == t[k..][i];
  }

  lemma {:induction false} WrittenIsStored(files: Files, nFile: nat, front: seq<byte>, b: CBlock)
    requires nFile in files && nFile < UINT_MAX && files[nFile] == front + SerializeBlock(b, false)
    requires 8 <= |front| < 0x7F00_0000 && SizeBlock(b, false) <= MAX_BLOCK_SIZE
    requires Canonical(b) && forall i :: 0 <= i < |b.vtx| ==> TxOk(b.vtx[i])
    ensures StoredAt(files, nFile, |front|, b)
  {
    SmallBlockIsReadable(b);
    DropFront(front, SerializeBlock(b, false));
  }
}
