/** CreateNewBlock: the scheduler that takes pool transactions in order of
    priority, but none before the pool transactions it depends on. */
module Miner {
  import opened Basics
  import opened Serialize
  import opened TxIndex
  import opened Ledger
  import opened Supply
  import opened Rules
  import opened BlockIndex
  import opened TxDb
  import opened Connect
  import opened Chain
  import opened ChainState
  import opened Globals
  import opened Template

  const MAX_BLOCK_SIZE_GEN: nat := MAX_BLOCK_SIZE / 2
  const MAX_BLOCK_SIGOPS: nat := MAX_BLOCK_SIZE / 50
  const CENT: int64 := 1000000
  const MIN_RELAY_TX_FEE: int64 := 10000

  /** What the miner asks of a transaction besides its values: whether it is final,
      its signature operations, its priority (any total order) and whether that is
      high enough to go free. */
  datatype Policy = Policy(isFinal: CTransaction -> bool, sigOps: CTransaction -> nat,
                           priority: uint256 -> int, allowFree: uint256 -> bool)

  /** A pool transaction waiting for others.  ptx is given by its hash; the priority
      depends on the transaction alone. */
  class COrphan {
    const hash: uint256
    var setDependsOn: set<uint256>

    constructor (h: uint256)
      ensures hash == h && setDependsOn == {}
    {
      hash, setDependsOn := h, {};
    }
  }

  type Needs = map<uint256, set<uint256>>
  type Dependers = map<uint256, seq<COrphan>>

  /** need says for each candidate which other transactions it cannot do without;
      done[h] is what h knows to be included already. */
  ghost predicate OrphanOk(orphans: map<uint256, COrphan>, need: Needs, done: set<uint256>, h: uint256)
    reads orphans.Values
  {
    h in orphans ==> orphans[h].hash == h && h in need && need[h] != {} && orphans[h].setDependsOn == need[h] - done
  }

  ghost predicate OrphansOk(orphans: map<uint256, COrphan>, need: Needs, done: set<uint256>)
    reads orphans.Values
  {
    && (forall h {:trigger OrphanOk(orphans, need, done, h)} :: OrphanOk(orphans, need, done, h))
    && (forall h :: h in need && need[h] != {} ==> h in orphans)
  }

  /** mapDependers lists under d exactly the orphans that need d, some maybe twice. */
  ghost predicate ListedOk(orphans: map<uint256, COrphan>, need: Needs, mapDependers: Dependers, d: uint256) {
    && (d in mapDependers ==> forall k :: 0 <= k < |mapDependers[d]| ==>
          var o := mapDependers[d][k]; o.hash in orphans && orphans[o.hash] == o && o.hash in need && d in need[o.hash])
    && (forall h :: h in need && d in need[h] ==> h in orphans && d in mapDependers && orphans[h] in mapDependers[d])
  }

  ghost predicate DependersOk(orphans: map<uint256, COrphan>, need: Needs, mapDependers: Dependers) {
    forall d {:trigger ListedOk(orphans, need, mapDependers, d)} :: ListedOk(orphans, need, mapDependers, d)
  }

  /** A candidate is in the queue or has been taken from it, once in all, exactly
      when all it needs is done. */
  ghost predicate QueuedOk(need: Needs, q: multiset<uint256>, taken: set<uint256>, done: set<uint256>, h: uint256) {
    q[h] + (if h in taken then 1 else 0) == if h in need && need[h] <= done then 1 else 0
  }

  ghost predicate QueueOk(need: Needs, q: multiset<uint256>, taken: set<uint256>, done: set<uint256>) {
    forall h {:trigger QueuedOk(need, q, taken, done, h)} :: QueuedOk(need, q, taken, done, h)
  }

  /** While hash is being released: the orphans in told have been told. */
  ghost function Known(done: set<uint256>, hash: uint256, told: set<uint256>, h: uint256): set<uint256> {
    if h in told then done + {hash} else done
  }

  ghost predicate Telling(orphans: map<uint256, COrphan>, need: Needs, q: multiset<uint256>, taken: set<uint256>,
                          done: set<uint256>, hash: uint256, told: set<uint256>, h: uint256)
    reads orphans.Values
  {
    && OrphanOk(orphans, need, Known(done, hash, told, h), h)
    && QueuedOk(need, q, taken, Known(done, hash, told, h), h)
  }

  /** Adds transactions that depend on this one to the priority queue. */
  method Release(ghost orphans: map<uint256, COrphan>, ghost need: Needs, mapDependers: Dependers, mapPriority: multiset<uint256>,
                 ghost taken: set<uint256>, ghost done: set<uint256>, hash: uint256) returns (q: multiset<uint256>)
    requires OrphansOk(orphans, need, done) && DependersOk(orphans, need, mapDependers)
    requires QueueOk(need, mapPriority, taken, done) && hash !in done
    modifies orphans.Values
    ensures OrphansOk(orphans, need, done + {hash}) && QueueOk(need, q, taken, done + {hash})
  {
    q := mapPriority;
    assert ListedOk(orphans, need, mapDependers, hash);
    ghost var told := {};
    forall h ensures Telling(orphans, need, q, taken, done, hash, told, h) {
      assert OrphanOk(orphans, need, done, h) && QueuedOk(need, q, taken, done, h);
    }
    if hash in mapDependers {
      var v := mapDependers[hash];
      for k := 0 to |v|
        invariant told == set j | 0 <= j < k :: v[j].hash
        invariant forall h {:trigger Telling(orphans, need, q, taken, done, hash, told, h)} ::
                    Telling(orphans, need, q, taken, done, hash, told, h)
      {
        q, told := Tell(orphans, need, q, taken, done, hash, told, v[k]);
      }
    }
    forall h | h in need && hash in need[h]
      ensures h in told
    {
      assert old(OrphanOk(orphans, need, done, h));
    }
    AllTold(orphans, need, mapDependers, q, taken, done, hash, told);
  }

  method Tell(ghost orphans: map<uint256, COrphan>, ghost need: Needs, mapPriority: multiset<uint256>, ghost taken: set<uint256>,
              ghost done: set<uint256>, hash: uint256, ghost told: set<uint256>, porphan: COrphan)
    returns (q: multiset<uint256>, ghost told': set<uint256>)
    requires forall h {:trigger Telling(orphans, need, mapPriority, taken, done, hash, told, h)} ::
               Telling(orphans, need, mapPriority, taken, done, hash, told, h)
    requires porphan.hash in orphans && orphans[porphan.hash] == porphan && porphan.hash in need && hash in need[porphan.hash]
    requires hash !in done
    modifies porphan
    ensures told' == told + {porphan.hash}
    ensures forall h {:trigger Telling(orphans, need, q, taken, done, hash, told', h)} ::
              Telling(orphans, need, q, taken, done, hash, told', h)
  {
    q, told' := mapPriority, told + {porphan.hash};
    ghost var me := porphan.hash;
    assert Telling(orphans, need, mapPriority, taken, done, hash, told, me);
    if porphan.setDependsOn != {} {
      porphan.setDependsOn := porphan.setDependsOn - {hash};
      if porphan.setDependsOn == {} {
        q := q + multiset{porphan.hash};
      }
    }
    forall h
      ensures Telling(orphans, need, q, taken, done, hash, told', h)
    {
      assert old(Telling(orphans, need, mapPriority, taken, done, hash, told, h));
      if h != me && h in orphans {
        assert orphans[h] != porphan;
      }
    }
  }

  lemma {:induction false} AllTold(orphans: map<uint256, COrphan>, need: Needs, mapDependers: Dependers, q: multiset<uint256>,
                                   taken: set<uint256>, done: set<uint256>, hash: uint256, told: set<uint256>)
    requires forall h {:trigger Telling(orphans, need, q, taken, done, hash, told, h)} ::
               Telling(orphans, need, q, taken, done, hash, told, h)
    requires forall h :: h in need && hash in need[h] ==> h in told
    requires forall h :: h in need && need[h] != {} ==> h in orphans
    ensures OrphansOk(orphans, need, done + {hash}) && QueueOk(need, q, taken, done + {hash})
  {
    forall h
      ensures OrphanOk(orphans, need, done + {hash}, h) && QueuedOk(need, q, taken, done + {hash}, h)
    {
      assert Telling(orphans, need, q, taken, done, hash, told, h);
      if h in need && h !in told {
        assert need[h] - (done + {hash}) == need[h] - done;
      }
    }
  }

  // ----- collecting the candidates -----

  /** CTransaction::ReadFromDisk with an index record: whether it fails. */
  function Missing(files: Files, idx: Index, prevout: COutPoint): bool {
    prevout.hash !in idx ||
    var txPrev := ReadTx(files, idx[prevout.hash].pos);
    txPrev.None? || prevout.n >= |txPrev.value.vout|
  }

  /** The transactions that the first n inputs of tx have to wait for. */
  function MissingParents(files: Files, idx: Index, tx: CTransaction, n: nat): set<uint256>
    requires n <= |tx.vin|
  {
    if n == 0 then {} else
    var prevout := tx.vin[n - 1].prevout;
    if Missing(files, idx, prevout) then MissingParents(files, idx, tx, n - 1) + {prevout.hash}
    else MissingParents(files, idx, tx, n - 1)
  }

  /** mapDependers[d].push_back(porphan) */
  function AddDepender(mapDependers: Dependers, d: uint256, o: COrphan): Dependers {
    mapDependers[d := (if d in mapDependers then mapDependers[d] else []) + [o]]
  }

  lemma {:induction false} NewCandidate(orphans: map<uint256, COrphan>, need: Needs, mapDependers: Dependers, h: uint256)
    requires OrphansOk(orphans, need, {}) && DependersOk(orphans, need, mapDependers) && h !in need
    ensures OrphansOk(orphans, need[h := {}], {}) && DependersOk(orphans, need[h := {}], mapDependers) && h !in orphans
  {
    assert OrphanOk(orphans, need, {}, h);
    var need' := need[h := {}];
    forall g ensures OrphanOk(orphans, need', {}, g) { assert OrphanOk(orphans, need, {}, g); }
    forall d ensures ListedOk(orphans, need', mapDependers, d) { assert ListedOk(orphans, need, mapDependers, d); }
  }

  lemma {:induction false} ListedMore(orphans: map<uint256, COrphan>, need: Needs, mapDependers: Dependers, h: uint256, o: COrphan, d: uint256)
    requires DependersOk(orphans, need, mapDependers) && h in need && o.hash == h
    requires h in orphans ==> orphans[h] == o
    requires need[h] != {} ==> h in orphans
    ensures DependersOk(orphans[h := o], need[h := need[h] + {d}], AddDepender(mapDependers, d, o))
  {
    var orphans', need', mapDependers' := orphans[h := o], need[h := need[h] + {d}], AddDepender(mapDependers, d, o);
    forall e
      ensures ListedOk(orphans', need', mapDependers', e)
    {
      assert ListedOk(orphans, need, mapDependers, e);
      if e == d {
        var before, after := if d in mapDependers then mapDependers[d] else [], mapDependers'[d];
        assert after == before + [o] && after[|before|] == o;
        forall g | g in need' && d in need'[g]
          ensures g in orphans' && orphans'[g] in after
        {
          if g != h {
            assert orphans[g] in before;
          }
        }
      }
    }
  }

  ghost function WithOrphan(orphans: map<uint256, COrphan>, h: uint256, porphan: COrphan?): map<uint256, COrphan> {
    if porphan == null then orphans else orphans[h := porphan]
  }

  /** In the middle of candidate h, whose inputs so far have to wait for deps. */
  ghost predicate Collecting(orphans: map<uint256, COrphan>, need: Needs, mapDependers: Dependers,
                             h: uint256, porphan: COrphan?, deps: set<uint256>)
    reads WithOrphan(orphans, h, porphan).Values
  {
    && OrphansOk(WithOrphan(orphans, h, porphan), need[h := deps], {})
    && DependersOk(WithOrphan(orphans, h, porphan), need[h := deps], mapDependers)
    && h !in orphans && (porphan == null <==> deps == {})
  }

  method AddNeed(h: uint256, d: uint256, porphanIn: COrphan?, ghost orphans: map<uint256, COrphan>, ghost need: Needs,
                 ghost deps: set<uint256>, mapDependersIn: Dependers)
    returns (porphan: COrphan, mapDependers: Dependers)
    requires Collecting(orphans, need, mapDependersIn, h, porphanIn, deps)
    modifies if porphanIn == null then {} else {porphanIn}
    ensures Collecting(orphans, need, mapDependers, h, porphan, deps + {d})
    ensures if porphanIn == null then fresh(porphan) else porphan == porphanIn
  {
    ghost var orphans0, need0 := WithOrphan(orphans, h, porphanIn), need[h := deps];
    assert OrphanOk(orphans0, need0, {}, h);
    if porphanIn == null {
      porphan := new COrphan(h);
    } else {
      porphan := porphanIn;
    }
    mapDependers := AddDepender(mapDependersIn, d, porphan);
    porphan.setDependsOn := porphan.setDependsOn + {d};
    ListedMore(orphans0, need0, mapDependersIn, h, porphan, d);
    MoreOrphans(orphans, need, h, porphan, porphanIn, deps, d);
    ghost var orphans1, need1 := orphans[h := porphan], need[h := deps + {d}];
    forall g
      ensures OrphanOk(orphans1, need1, {}, g)
    {
      assert old(OrphanOk(orphans0, need0, {}, g));
    }
  }

  lemma {:induction false} MoreOrphans(orphans: map<uint256, COrphan>, need: Needs, h: uint256, porphan: COrphan,
                                       porphanIn: COrphan?, deps: set<uint256>, d: uint256)
    requires porphanIn != null ==> porphanIn == porphan
    ensures WithOrphan(orphans, h, porphanIn)[h := porphan] == orphans[h := porphan]
    ensures need[h := deps][h := deps + {d}] == need[h := deps + {d}]
  {
  }

  /** The input loop for one candidate h: it becomes an orphan at the first input
      that has to wait. */
  method CollectOne(files: Files, idx: Index, h: uint256, tx: CTransaction, ghost orphans: map<uint256, COrphan>,
                    ghost need: Needs, mapDependersIn: Dependers)
    returns (porphan: COrphan?, mapDependers: Dependers)
    requires OrphansOk(orphans, need, {}) && DependersOk(orphans, need, mapDependersIn)
    requires h !in need
    ensures Collecting(orphans, need, mapDependers, h, porphan, MissingParents(files, idx, tx, |tx.vin|))
    ensures porphan != null ==> fresh(porphan)
  {
    porphan, mapDependers := null, mapDependersIn;
    NewCandidate(orphans, need, mapDependers, h);
    for i := 0 to |tx.vin|
      invariant Collecting(orphans, need, mapDependers, h, porphan, MissingParents(files, idx, tx, i))
      invariant porphan != null ==> fresh(porphan)
    {
      var prevout := tx.vin[i].prevout;
      if Missing(files, idx, prevout) {
        porphan, mapDependers := AddNeed(h, prevout.hash, porphan, orphans, need, MissingParents(files, idx, tx, i), mapDependers);
      }
    }
  }

  ghost predicate IsCandidate(pool: Pool, isFinal: CTransaction -> bool, h: uint256) {
    h in pool && !pool[h].IsCoinBase() && isFinal(pool[h])
  }

  ghost function NeedsOf(files: Files, idx: Index, pool: Pool, hs: set<uint256>): Needs
    requires hs <= pool.Keys
  {
    map h | h in hs :: MissingParents(files, idx, pool[h], |pool[h].vin|)
  }

  ghost function Candidates(pool: Pool, isFinal: CTransaction -> bool): (hs: set<uint256>)
    ensures hs <= pool.Keys
  {
    set h | h in pool && IsCandidate(pool, isFinal, h)
  }

  /** Every candidate starts in the queue or, when it has to wait, as an orphan. */
  method Collect(files: Files, idx: Index, pool: Pool, isFinal: CTransaction -> bool)
    returns (mapDependers: Dependers, mapPriority: multiset<uint256>, ghost orphans: map<uint256, COrphan>)
    ensures var need := NeedsOf(files, idx, pool, Candidates(pool, isFinal));
            OrphansOk(orphans, need, {}) && DependersOk(orphans, need, mapDependers) && QueueOk(need, mapPriority, {}, {})
    ensures fresh(orphans.Values)
  {
    mapDependers, mapPriority, orphans := map[], multiset{}, map[];
    ghost var need: Needs, seen: set<uint256> := map[], {};
    var todo := pool.Keys;
    while todo != {}
      invariant todo <= pool.Keys && seen == Candidates(pool, isFinal) - todo && need == NeedsOf(files, idx, pool, seen)
      invariant OrphansOk(orphans, need, {}) && DependersOk(orphans, need, mapDependers)
      invariant QueueOk(need, mapPriority, {}, {})
      invariant fresh(orphans.Values)
    {
      var h :| h in todo;
      todo := todo - {h};
      var tx := pool[h];
      if tx.IsCoinBase() || !isFinal(tx) {
        continue;
      }
      var porphan;
      porphan, mapDependers := CollectOne(files, idx, h, tx, orphans, need, mapDependers);
      ghost var parents := MissingParents(files, idx, tx, |tx.vin|);
      FirstQueued(need, mapPriority, h, parents);
      MoreValues(orphans, h, porphan);
      MoreSeen(files, idx, pool, seen, h);
      seen, orphans, need := seen + {h}, WithOrphan(orphans, h, porphan), need[h := parents];
      if porphan == null {
        mapPriority := mapPriority + multiset{h};
      }
    }
    assert seen == Candidates(pool, isFinal);
  }

  lemma {:induction false} MoreSeen(files: Files, idx: Index, pool: Pool, seen: set<uint256>, h: uint256)
    requires seen <= pool.Keys && h in pool
    ensures NeedsOf(files, idx, pool, seen + {h})
         == NeedsOf(files, idx, pool, seen)[h := MissingParents(files, idx, pool[h], |pool[h].vin|)]
  {
  }

  lemma {:induction false} MoreValues(orphans: map<uint256, COrphan>, h: uint256, porphan: COrphan?)
    ensures forall o :: o in WithOrphan(orphans, h, porphan).Values ==> o in orphans.Values || o == porphan
  {
  }

  lemma {:induction false} FirstQueued(need: Needs, q: multiset<uint256>, h: uint256, parents: set<uint256>)
    requires QueueOk(need, q, {}, {}) && h !in need
    ensures QueueOk(need[h := parents], if parents == {} then q + multiset{h} else q, {}, {})
  {
    var need', q' := need[h := parents], if parents == {} then q + multiset{h} else q;
    forall g ensures QueuedOk(need', q', {}, {}, g) { assert QueuedOk(need, q, {}, {}, g); }
  }

  // ----- filling the block -----

  /** The fee before the block fills up. */
  function PriceBefore(tx: CTransaction, nBlockSize: nat, fAllowFree: bool): nat {
    var nBase: int := if fAllowFree && nBlockSize + SizeTx(tx) < 27000 then 0 else (1 + SizeTx(tx) / 1000) * MIN_RELAY_TX_FEE;
    if nBase < MIN_RELAY_TX_FEE && exists k :: 0 <= k < |tx.vout| && tx.vout[k].nValue < CENT then MIN_RELAY_TX_FEE else nBase
  }

  /** GetMinFee with fForRelay, for a block under construction. */
  function GetMinFee(tx: CTransaction, nBlockSize: nat, fAllowFree: bool): (r: int64)
    requires nBlockSize != 1
    ensures MoneyRange(r)
  {
    var nNewBlockSize := nBlockSize + SizeTx(tx);
    var nPrice := PriceBefore(tx, nBlockSize, fAllowFree);
    if nNewBlockSize >= MAX_BLOCK_SIZE_GEN then MAX_MONEY else
    var nMinFee: int := if nNewBlockSize >= MAX_BLOCK_SIZE_GEN / 2
                        then nPrice * (MAX_BLOCK_SIZE_GEN / (MAX_BLOCK_SIZE_GEN - nNewBlockSize)) else nPrice;
    if MoneyRange(nMinFee) then nMinFee else MAX_MONEY
  }

  ghost predicate Dusty(tx: CTransaction) {
    exists k :: 0 <= k < |tx.vout| && tx.vout[k].nValue < CENT
  }

  /** Free are exactly the transactions allowed to be, in the first 27000 bytes, without an
      output below a cent; with one they pay the base fee. */
  lemma {:induction false} MinFeeFree(tx: CTransaction, nBlockSize: nat, fAllowFree: bool)
    requires nBlockSize != 1
    ensures GetMinFee(tx, nBlockSize, fAllowFree) == 0 <==> fAllowFree && nBlockSize + SizeTx(tx) < 27000 && !Dusty(tx)
    ensures fAllowFree && nBlockSize + SizeTx(tx) < 27000 && Dusty(tx) ==> GetMinFee(tx, nBlockSize, fAllowFree) == 10000
  {
    var n, k := nBlockSize + SizeTx(tx), 1 + SizeTx(tx) / 1000;
    if n < MAX_BLOCK_SIZE_GEN {
      AtLeastOne(n);
      MulPositive(k * MIN_RELAY_TX_FEE, MAX_BLOCK_SIZE_GEN / (MAX_BLOCK_SIZE_GEN - n));
    }
  }

  /** The rest pay 10000 for every started kilobyte in the first half of the block.  In the
      other half they pay that as many times over as the room left goes into the whole,
      and when it is full no fee is enough. */
  lemma {:induction false} MinFeeRate(tx: CTransaction, nBlockSize: nat, fAllowFree: bool)
    requires nBlockSize != 1 && !(fAllowFree && nBlockSize + SizeTx(tx) < 27000)
    ensures var n, r, p := nBlockSize + SizeTx(tx), GetMinFee(tx, nBlockSize, fAllowFree), PriceBefore(tx, nBlockSize, fAllowFree);
            && SizeTx(tx) * 10 < p <= SizeTx(tx) * 10 + 10000 && p % 10000 == 0
            && (2 * n < MAX_BLOCK_SIZE_GEN ==> r == p)
            && (MAX_BLOCK_SIZE_GEN <= 2 * n < 2 * MAX_BLOCK_SIZE_GEN ==>
                  exists k {:trigger p * k} :: r == p * k && k * (MAX_BLOCK_SIZE_GEN - n) <= MAX_BLOCK_SIZE_GEN < (k + 1) * (MAX_BLOCK_SIZE_GEN - n))
            && (n >= MAX_BLOCK_SIZE_GEN ==> r == MAX_MONEY)
  {
    var n := nBlockSize + SizeTx(tx);
    if MAX_BLOCK_SIZE_GEN <= 2 * n < 2 * MAX_BLOCK_SIZE_GEN {
      InRange(PriceBefore(tx, nBlockSize, fAllowFree), MAX_BLOCK_SIZE_GEN - n);
    }
  }

  lemma {:induction false} InRange(p: nat, room: nat)
    requires p <= 6000000 && 0 < room <= MAX_BLOCK_SIZE_GEN
    ensures var k := MAX_BLOCK_SIZE_GEN / room;
            MoneyRange(p * k) && k * room <= MAX_BLOCK_SIZE_GEN < (k + 1) * room
  {
    var k := MAX_BLOCK_SIZE_GEN / room;
    MulBoth(p, 6000000, k, MAX_BLOCK_SIZE_GEN);
    MulPositive(p, k);
  }

  lemma {:induction false} AtLeastOne(n: nat)
    requires n < MAX_BLOCK_SIZE_GEN
    ensures MAX_BLOCK_SIZE_GEN / (MAX_BLOCK_SIZE_GEN - n) >= 1
  {
    FitsIn(MAX_BLOCK_SIZE_GEN, MAX_BLOCK_SIZE_GEN - n, 1);
  }

  /** What MAX_BLOCK_SIZE_GEN is over the room left, rounded down, does not fall as the room
      does. */
  lemma {:induction false} PressureGrows(n: nat, m: nat)
    requires n <= m < MAX_BLOCK_SIZE_GEN
    ensures 1 <= MAX_BLOCK_SIZE_GEN / (MAX_BLOCK_SIZE_GEN - n) <= MAX_BLOCK_SIZE_GEN / (MAX_BLOCK_SIZE_GEN - m)
  {
    var a, b := MAX_BLOCK_SIZE_GEN - n, MAX_BLOCK_SIZE_GEN - m;
    var q := MAX_BLOCK_SIZE_GEN / a;
    AtLeastOne(n);
    MulRight(b, a, q);
    FitsIn(MAX_BLOCK_SIZE_GEN, b, q);
  }

  lemma {:induction false} FitsIn(x: nat, b: nat, q: nat)
    requires b > 0 && b * q <= x
    ensures q <= x / b
  {
    if q > x / b {
      MulRight(x / b + 1, q, b);
    }
  }

  /** The fuller the block, the higher the fee. */
  lemma {:induction false} MinFeeMonotone(tx: CTransaction, nBlockSize: nat, fuller: nat, fAllowFree: bool)
    requires nBlockSize != 1 && fuller != 1 && nBlockSize <= fuller
    ensures GetMinFee(tx, nBlockSize, fAllowFree) <= GetMinFee(tx, fuller, fAllowFree)
  {
    var n, m := nBlockSize + SizeTx(tx), fuller + SizeTx(tx);
    if m < MAX_BLOCK_SIZE_GEN {
      PressureGrows(n, m);
      var low, high := PriceBefore(tx, nBlockSize, fAllowFree), PriceBefore(tx, fuller, fAllowFree);
      var p, q := MAX_BLOCK_SIZE_GEN / (MAX_BLOCK_SIZE_GEN - n), MAX_BLOCK_SIZE_GEN / (MAX_BLOCK_SIZE_GEN - m);
      MulBoth(low, high, p, q);
      MulBoth(low, high, 1, q);
    }
  }

  ghost predicate InPool(pool: Pool, hs: seq<uint256>) {
    forall k :: 0 <= k < |hs| ==> hs[k] in pool
  }

  function TxsOf(pool: Pool, hs: seq<uint256>): seq<CTransaction>
    requires forall k :: 0 <= k < |hs| ==> hs[k] in pool
  {
    seq(|hs|, k requires 0 <= k < |hs| => pool[hs[k]])
  }

  /** The block so far: included lists the pool transactions in it. */
  ghost predicate Built(c: Context, l0: seq<Entry>, pool: Pool, db: Index, included: seq<uint256>, testPool: Index,
                        nFees: int, vtx: seq<CTransaction>, nBlockSize: int) {
    && InPool(pool, included) && vtx == TxsOf(pool, included)
    && nBlockSize == 1000 + SizeAll(SizeTx, vtx) < MAX_BLOCK_SIZE_GEN && MoneyRange(nFees)
    && forall view {:trigger ViewIs(db, testPool, view)} :: ViewIs(db, testPool, view) ==>
         TemplateOk(c, l0, EntriesOf(pool, included), view, nFees)
  }

  ghost predicate ViewIs(db: Index, testPool: Index, view: Index) {
    view == View(db, testPool, true)
  }

  lemma {:induction false} FreshCandidate(c: Context, l0: seq<Entry>, pool: Pool, included: seq<uint256>, h: uint256)
    requires PoolOk(c.hashTx, Placed(c.hashTx, l0), pool) && InPool(pool, included)
    requires h in pool && h !in included && !pool[h].IsCoinBase() && c.fetch(h, MemoryPos) == Some(pool[h])
    ensures Candidate(c, l0 + EntriesOf(pool, included), EntryOf(pool, h))
    ensures HashOf(c.hashTx, EntryOf(pool, h)) == h
  {
    var l := l0 + EntriesOf(pool, included);
    assert PoolTx(c.hashTx, Placed(c.hashTx, l0), pool, h);
    PlacedKeys(c.hashTx, l);
    PlacedKeys(c.hashTx, l0);
    forall k | 0 <= k < |l|
      ensures HashOf(c.hashTx, l[k]) != h
    {
      if k >= |l0| {
        var g := included[k - |l0|];
        assert PoolTx(c.hashTx, Placed(c.hashTx, l0), pool, g);
      }
    }
  }

  lemma {:induction false} BuiltAppend(pool: Pool, included: seq<uint256>, h: uint256)
    requires InPool(pool, included) && h in pool
    ensures InPool(pool, included + [h])
    ensures EntriesOf(pool, included + [h]) == EntriesOf(pool, included) + [EntryOf(pool, h)]
    ensures TxsOf(pool, included + [h]) == TxsOf(pool, included) + [pool[h]]
    ensures SizeAll(SizeTx, TxsOf(pool, included) + [pool[h]]) == SizeAll(SizeTx, TxsOf(pool, included)) + SizeTx(pool[h])
  {
    SizeAllAppend(SizeTx, TxsOf(pool, included), [pool[h]]);
    assert [pool[h]][1..] == [];
    assert SizeAll(SizeTx, [pool[h]]) == SizeTx(pool[h]) + SizeAll(SizeTx, []);
  }

  lemma {:induction false} ViewInRange(c: Context, l0: seq<Entry>, es: seq<Entry>, view: Index, nFees: int)
    requires TemplateOk(c, l0, es, view, nFees)
    ensures FetchInRange(c, view)
  {
    assert Joined(l0, es, l0 + es);
    FetchInRangeOfLedger(c, l0 + es);
  }

  // ----- which candidates the block takes -----

  ghost function SpaceUsed(pool: Pool, inc: seq<uint256>): nat
    requires InPool(pool, inc)
  {
    1000 + SizeAll(SizeTx, TxsOf(pool, inc))
  }

  ghost function SigOpsUsed(policy: Policy, pool: Pool, inc: seq<uint256>): nat
    requires InPool(pool, inc)
  {
    100 + SizeAll(policy.sigOps, TxsOf(pool, inc))
  }

  function RequiredFee(policy: Policy, tx: CTransaction, h: uint256, nBlockSize: nat): int64
    requires nBlockSize != 1
  {
    GetMinFee(tx, nBlockSize, nBlockSize + SizeTx(tx) < 4000 || policy.allowFree(h))
  }

  /** After the transactions inc h still connects, and brings in the fee. */
  ghost predicate ConnectsPaying(c: Context, db: Index, pool: Pool, inc: seq<uint256>, h: uint256, fee: int)
    requires InPool(pool, inc) && h in pool
  {
    var r := ConnectEntries(c, db, EntriesOf(pool, inc), 0);
    var r' := ConnectEntries(c, db, EntriesOf(pool, inc) + [EntryOf(pool, h)], 0);
    r.Some? && r'.Some? && r'.value.1 - r.value.1 >= fee
  }

  /** On top of the transactions inc there is room for h, and it connects and pays the
      fee required at this size. */
  ghost predicate Admissible(c: Context, db: Index, pool: Pool, policy: Policy, inc: seq<uint256>, h: uint256) {
    && InPool(pool, inc) && h in pool
    && SpaceUsed(pool, inc) + SizeTx(pool[h]) < MAX_BLOCK_SIZE_GEN
    && SigOpsUsed(policy, pool, inc) + policy.sigOps(pool[h]) < MAX_BLOCK_SIGOPS
    && forall fee {:trigger FeeIs(policy, pool, inc, h, fee)} :: FeeIs(policy, pool, inc, h, fee) ==> ConnectsPaying(c, db, pool, inc, h, fee)
  }

  ghost predicate FeeIs(policy: Policy, pool: Pool, inc: seq<uint256>, h: uint256, fee: int)
    requires InPool(pool, inc) && h in pool
  {
    fee == RequiredFee(policy, pool[h], h, SpaceUsed(pool, inc))
  }

  /** With room for h, it is admissible exactly if it connects paying the fee. */
  lemma {:induction false} WithRoom(c: Context, db: Index, pool: Pool, policy: Policy, inc: seq<uint256>, h: uint256, fee: int)
    requires InPool(pool, inc) && h in pool && FeeIs(policy, pool, inc, h, fee)
    requires SpaceUsed(pool, inc) + SizeTx(pool[h]) < MAX_BLOCK_SIZE_GEN
    requires SigOpsUsed(policy, pool, inc) + policy.sigOps(pool[h]) < MAX_BLOCK_SIGOPS
    ensures Admissible(c, db, pool, policy, inc, h) <==> ConnectsPaying(c, db, pool, inc, h, fee)
  {
  }

  lemma {:induction false} MinFeeMeans(c: Context, idx: Index, tx: CTransaction, pos: CDiskTxPos, nFees: int, nMinFee: int)
    requires nMinFee >= 0 && !tx.IsCoinBase()
    ensures var r := ConnectTx(c, idx, tx, pos, nFees, 0);
            ConnectTx(c, idx, tx, pos, nFees, nMinFee).Connected? <==> r.Connected? && r.nFees - nFees >= nMinFee
  {
  }

  /** That is what the attempt to connect h finds out. */
  lemma {:induction false} AttemptMeans(c: Context, l0: seq<Entry>, pool: Pool, inc: seq<uint256>, view: Index, nFees: int, h: uint256, nMinFee: int)
    requires InPool(pool, inc) && TemplateOk(c, l0, EntriesOf(pool, inc), view, nFees) && h in pool
    requires nMinFee >= 0 && !pool[h].IsCoinBase()
    ensures ConnectsPaying(c, LedgerIndex(c.hashTx, l0), pool, inc, h, nMinFee)
       <==> ConnectTx(c, view, pool[h], MemoryPos, nFees, nMinFee).Connected?
  {
    assert Joined(l0, EntriesOf(pool, inc), l0 + EntriesOf(pool, inc));
    ConnectEntriesAppend(c, LedgerIndex(c.hashTx, l0), EntriesOf(pool, inc), EntryOf(pool, h), 0);
    MinFeeMeans(c, view, pool[h], MemoryPos, nFees, nMinFee);
  }

  /** What is in the block after the candidates in order have been considered. */
  ghost function Replay(c: Context, db: Index, pool: Pool, policy: Policy, order: seq<uint256>): seq<uint256> {
    if order == [] then [] else
    var inc, h := Replay(c, db, pool, policy, order[..|order| - 1]), order[|order| - 1];
    if Admissible(c, db, pool, policy, inc, h) then inc + [h] else inc
  }

  /** g has not been considered, and all it waits for is in the block. */
  ghost predicate Ready(need: Needs, taken: set<uint256>, inc: seq<uint256>, g: uint256) {
    g in need && g !in taken && need[g] <= SetOf(inc)
  }

  /** h is ready, and nothing that is ready has a higher priority. */
  ghost predicate Choice(priority: uint256 -> int, need: Needs, taken: set<uint256>, inc: seq<uint256>, h: uint256) {
    && Ready(need, taken, inc, h)
    && forall g {:trigger Ready(need, taken, inc, g)} :: Ready(need, taken, inc, g) ==> priority(g) <= priority(h)
  }

  /** At every step the best candidate that was ready has been considered. */
  ghost predicate Greedy(c: Context, db: Index, pool: Pool, policy: Policy, need: Needs, order: seq<uint256>) {
    order == [] ||
    var front := order[..|order| - 1];
    && Greedy(c, db, pool, policy, need, front)
    && Choice(policy.priority, need, SetOf(front), Replay(c, db, pool, policy, front), order[|order| - 1])
  }

  lemma {:induction false} GreedyStep(c: Context, db: Index, pool: Pool, policy: Policy, need: Needs, order: seq<uint256>, h: uint256)
    requires Greedy(c, db, pool, policy, need, order)
    requires Choice(policy.priority, need, SetOf(order), Replay(c, db, pool, policy, order), h)
    ensures Greedy(c, db, pool, policy, need, order + [h])
  {
    assert (order + [h])[..|order|] == order;
  }

  lemma {:induction false} ReplayStep(c: Context, db: Index, pool: Pool, policy: Policy, order: seq<uint256>, h: uint256)
    ensures var inc := Replay(c, db, pool, policy, order);
            Replay(c, db, pool, policy, order + [h]) == if Admissible(c, db, pool, policy, inc, h) then inc + [h] else inc
  {
    assert (order + [h])[..|order|] == order;
  }

  /** order has been considered, and these are the candidates taken and included. */
  ghost predicate RunIs(c: Context, db: Index, pool: Pool, policy: Policy, need: Needs, order: seq<uint256>,
                        taken: set<uint256>, included: seq<uint256>) {
    forall o {:trigger OrderIs(order, o)} :: OrderIs(order, o) ==>
      && taken == SetOf(o) && included == Replay(c, db, pool, policy, o) && Greedy(c, db, pool, policy, need, o)
  }

  ghost predicate OrderIs(order: seq<uint256>, o: seq<uint256>) {
    o == order
  }

  lemma {:induction false} RunStep(c: Context, db: Index, pool: Pool, policy: Policy, need: Needs, order: seq<uint256>,
                                   taken: set<uint256>, included: seq<uint256>, q: multiset<uint256>, h: uint256)
    requires RunIs(c, db, pool, policy, need, order, taken, included)
    requires QueueOk(need, q, taken, SetOf(included)) && IsBest(policy.priority, q, h)
    ensures RunIs(c, db, pool, policy, need, order + [h], taken + {h},
                  if Admissible(c, db, pool, policy, included, h) then included + [h] else included)
  {
    assert OrderIs(order, order);
    BestIsChoice(policy.priority, need, q, taken, included, h);
    GreedyStep(c, db, pool, policy, need, order, h);
    ReplayStep(c, db, pool, policy, order, h);
    IncludedAppend(order, h);
  }

  lemma {:induction false} BestIsChoice(priority: uint256 -> int, need: Needs, q: multiset<uint256>, taken: set<uint256>,
                                        inc: seq<uint256>, h: uint256)
    requires QueueOk(need, q, taken, SetOf(inc)) && IsBest(priority, q, h)
    ensures Choice(priority, need, taken, inc, h)
  {
    assert QueuedOk(need, q, taken, SetOf(inc), h);
    forall g | Ready(need, taken, inc, g)
      ensures priority(g) <= priority(h)
    {
      assert QueuedOk(need, q, taken, SetOf(inc), g);
    }
  }

  lemma {:induction false} SigOpsAppend(policy: Policy, pool: Pool, inc: seq<uint256>, h: uint256)
    requires InPool(pool, inc) && h in pool && InPool(pool, inc + [h])
    ensures SigOpsUsed(policy, pool, inc + [h]) == SigOpsUsed(policy, pool, inc) + policy.sigOps(pool[h])
  {
    BuiltAppend(pool, inc, h);
    SizeAllAppend(policy.sigOps, TxsOf(pool, inc), [pool[h]]);
    assert [pool[h]][1..] == [];
    assert SizeAll(policy.sigOps, [pool[h]]) == policy.sigOps(pool[h]) + SizeAll(policy.sigOps, []);
  }

  method MinimumFee(policy: Policy, pool: Pool, ghost included: seq<uint256>, h: uint256, nBlockSize: nat) returns (nMinFee: int64)
    requires InPool(pool, included) && h in pool && nBlockSize == SpaceUsed(pool, included)
    ensures FeeIs(policy, pool, included, h, nMinFee) && nMinFee >= 0
  {
    var fAllowFree := nBlockSize + SizeTx(pool[h]) < 4000 || policy.allowFree(h);
    nMinFee := GetMinFee(pool[h], nBlockSize, fAllowFree);
  }

  /** Considers the transaction just taken off the queue. */
  method Consider(w: World, ghost c: Context, files: Files, pool: Pool, txdb: CTxDB, policy: Policy, pindexPrev: CBlockIndex,
                  ghost l0: seq<Entry>, ghost included: seq<uint256>, testPoolIn: Index, h: uint256, nFeesIn: int64,
                  vtxIn: seq<CTransaction>, nBlockSizeIn: nat, nBlockSigOpsIn: nat)
    returns (added: bool, testPool: Index, nFees: int64, vtx: seq<CTransaction>, nBlockSize: nat, nBlockSigOps: nat)
    requires Fits(c, w, files, pool, pindexPrev) && h in pool && h !in included && !pool[h].IsCoinBase()
    requires PoolOk(c.hashTx, Placed(c.hashTx, l0), pool)
    requires Built(c, l0, pool, txdb.Current().tx, included, testPoolIn, nFeesIn, vtxIn, nBlockSizeIn)
    requires nBlockSigOpsIn == SigOpsUsed(policy, pool, included) < MAX_BLOCK_SIGOPS
    requires txdb.Current().tx == LedgerIndex(c.hashTx, l0)
    modifies txdb
    ensures unchanged(txdb) && added == Admissible(c, txdb.Current().tx, pool, policy, included, h)
    ensures Built(c, l0, pool, txdb.Current().tx, if added then included + [h] else included, testPool, nFees, vtx, nBlockSize)
    ensures nBlockSigOps == SigOpsUsed(policy, pool, if added then included + [h] else included) < MAX_BLOCK_SIGOPS
  {
    added, testPool, nFees, vtx, nBlockSize, nBlockSigOps := false, testPoolIn, nFeesIn, vtxIn, nBlockSizeIn, nBlockSigOpsIn;
    var tx := pool[h];

    var nTxSize := SizeTx(tx);
    if nBlockSize + nTxSize >= MAX_BLOCK_SIZE_GEN {
      return;
    }
    var nTxSigOps := policy.sigOps(tx);
    if nBlockSigOps + nTxSigOps >= MAX_BLOCK_SIGOPS {
      return;
    }

    var nMinFee := MinimumFee(policy, pool, included, h, nBlockSize);
    WithRoom(c, txdb.Current().tx, pool, policy, included, h, nMinFee);
    added, testPool, nFees, vtx, nBlockSize :=
      TryConnect(w, c, files, pool, txdb, pindexPrev, l0, included, testPool, h, nFees, vtx, nBlockSize, nMinFee);
    if added {
      SigOpsAppend(policy, pool, included, h);
      nBlockSigOps := nBlockSigOps + nTxSigOps;
    }
  }

  /** Considers h once there is room for it and the fee it has to pay is known. */
  method TryConnect(w: World, ghost c: Context, files: Files, pool: Pool, txdb: CTxDB, pindexPrev: CBlockIndex,
                    ghost l0: seq<Entry>, ghost included: seq<uint256>, testPoolIn: Index, h: uint256, nFeesIn: int64,
                    vtxIn: seq<CTransaction>, nBlockSizeIn: nat, nMinFee: int64)
    returns (ok: bool, testPool: Index, nFees: int64, vtx: seq<CTransaction>, nBlockSize: nat)
    requires Fits(c, w, files, pool, pindexPrev) && h in pool && h !in included && !pool[h].IsCoinBase() && nMinFee >= 0
    requires PoolOk(c.hashTx, Placed(c.hashTx, l0), pool)
    requires Built(c, l0, pool, txdb.Current().tx, included, testPoolIn, nFeesIn, vtxIn, nBlockSizeIn)
    requires nBlockSizeIn + SizeTx(pool[h]) < MAX_BLOCK_SIZE_GEN
    modifies txdb
    ensures unchanged(txdb)
    ensures ok == ConnectsPaying(c, LedgerIndex(c.hashTx, l0), pool, included, h, nMinFee)
    ensures Built(c, l0, pool, txdb.Current().tx, if ok then included + [h] else included, testPool, nFees, vtx, nBlockSize)
  {
    testPool, nFees, vtx, nBlockSize := testPoolIn, nFeesIn, vtxIn, nBlockSizeIn;
    FreshCandidate(c, l0, pool, included, h);
    assert ViewIs(txdb.Current().tx, testPool, View(txdb.Current().tx, testPool, true));
    ok, testPool, nFees := ConnectCandidate(w, c, files, pool, txdb, pindexPrev, l0, included, testPool, h, nFees, nMinFee);
    if ok {
      BuiltMore(c, l0, pool, txdb.Current().tx, included, testPool, nFees, h);
      vtx := vtx + [pool[h]];
      nBlockSize := nBlockSize + SizeTx(pool[h]);
    }
  }

  lemma {:induction false} BuiltMore(c: Context, l0: seq<Entry>, pool: Pool, db: Index, included: seq<uint256>, testPool: Index,
                                     nFees: int, h: uint256)
    requires InPool(pool, included) && h in pool && MoneyRange(nFees)
    requires TemplateOk(c, l0, EntriesOf(pool, included) + [EntryOf(pool, h)], View(db, testPool, true), nFees)
    requires 1000 + SizeAll(SizeTx, TxsOf(pool, included)) + SizeTx(pool[h]) < MAX_BLOCK_SIZE_GEN
    ensures Built(c, l0, pool, db, included + [h], testPool, nFees, TxsOf(pool, included) + [pool[h]],
                  1000 + SizeAll(SizeTx, TxsOf(pool, included)) + SizeTx(pool[h]))
  {
    BuiltAppend(pool, included, h);
  }

  /** Connects h to a copy of the test pool, which replaces the test pool on success. */
  method ConnectCandidate(w: World, ghost c: Context, files: Files, pool: Pool, txdb: CTxDB, pindexPrev: CBlockIndex,
                          ghost l0: seq<Entry>, ghost included: seq<uint256>, testPoolIn: Index, h: uint256, nFeesIn: int64, nMinFee: int64)
    returns (ok: bool, testPool: Index, nFees: int64)
    requires Fits(c, w, files, pool, pindexPrev) && InPool(pool, included) && h in pool && nMinFee >= 0 && MoneyRange(nFeesIn)
    requires TemplateOk(c, l0, EntriesOf(pool, included), View(txdb.Current().tx, testPoolIn, true), nFeesIn)
    requires Candidate(c, l0 + EntriesOf(pool, included), EntryOf(pool, h))
    modifies txdb
    ensures unchanged(txdb)
    ensures ok == ConnectsPaying(c, LedgerIndex(c.hashTx, l0), pool, included, h, nMinFee)
    ensures !ok ==> testPool == testPoolIn && nFees == nFeesIn
    ensures ok ==> TemplateOk(c, l0, EntriesOf(pool, included) + [EntryOf(pool, h)], View(txdb.Current().tx, testPool, true), nFees)
                   && MoneyRange(nFees)
  {
    ghost var view := View(txdb.Current().tx, testPoolIn, true);
    ViewInRange(c, l0, EntriesOf(pool, included), view, nFeesIn);
    IncludeOne(c, l0, EntriesOf(pool, included), view, nFeesIn, EntryOf(pool, h), nMinFee);
    AttemptMeans(c, l0, pool, included, view, nFeesIn, h, nMinFee);
    var mapTestPoolTmp;
    ok, mapTestPoolTmp, nFees := ConnectInputs(w, c, files, pool, txdb, testPoolIn, pool[h], MemoryPos, pindexPrev, nFeesIn, false, nMinFee);
    testPool := if ok then mapTestPoolTmp else testPoolIn;
  }

  ghost predicate IsBest(priority: uint256 -> int, q: multiset<uint256>, h: uint256) {
    h in q && forall g :: g in q ==> priority(g) <= priority(h)
  }

  /** mapPriority.begin(): some transaction of the highest priority. */
  method Begin(q: multiset<uint256>, priority: uint256 -> int) returns (h: uint256)
    requires q != multiset{}
    ensures IsBest(priority, q, h)
  {
    h :| h in q;
    var rest := q[h := 0];
    while rest != multiset{}
      invariant h in q && rest <= q
      invariant forall g :: g in q && g !in rest ==> priority(g) <= priority(h)
      decreases |rest|
    {
      var g :| g in rest;
      if priority(g) > priority(h) {
        h := g;
      }
      rest := rest[g := 0];
    }
  }

  function SetOf(hs: seq<uint256>): set<uint256> {
    set h | h in hs
  }

  ghost predicate Queueing(orphans: map<uint256, COrphan>, need: Needs, mapDependers: Dependers, q: multiset<uint256>,
                           taken: set<uint256>, included: seq<uint256>)
    reads orphans.Values
  {
    var done := SetOf(included);
    && OrphansOk(orphans, need, done) && DependersOk(orphans, need, mapDependers) && QueueOk(need, q, taken, done)
    && done <= taken <= need.Keys
  }

  lemma {:induction false} TakeOne(need: Needs, q: multiset<uint256>, taken: set<uint256>, done: set<uint256>, h: uint256)
    requires QueueOk(need, q, taken, done) && h in q
    ensures h in need && h !in taken && QueueOk(need, q - multiset{h}, taken + {h}, done)
  {
    assert QueuedOk(need, q, taken, done, h);
    var q', taken' := q - multiset{h}, taken + {h};
    forall g ensures QueuedOk(need, q', taken', done, g) { assert QueuedOk(need, q, taken, done, g); }
  }

  lemma {:induction false} IncludedAppend(included: seq<uint256>, h: uint256)
    ensures SetOf(included + [h]) == SetOf(included) + {h}
  {
  }

  lemma {:induction false} InQueue(orphans: map<uint256, COrphan>, need: Needs, mapDependers: Dependers,
                                   q: multiset<uint256>, taken: set<uint256>, included: seq<uint256>, h: uint256)
    requires Queueing(orphans, need, mapDependers, q, taken, included) && h in q
    ensures h in need && h !in taken && h !in included
  {
    var done := SetOf(included);
    TakeOne(need, q, taken, done, h);
    assert h in included ==> h in done;
  }

  /** The queue after h has been taken off, and included or turned away. */
  method Settle(ghost orphans: map<uint256, COrphan>, ghost need: Needs, mapDependers: Dependers, mapPriority: multiset<uint256>,
                ghost taken: set<uint256>, ghost included: seq<uint256>, h: uint256, added: bool)
    returns (q: multiset<uint256>)
    requires Queueing(orphans, need, mapDependers, mapPriority, taken, included) && h in mapPriority
    modifies orphans.Values
    ensures Queueing(orphans, need, mapDependers, q, taken + {h}, if added then included + [h] else included)
  {
    ghost var done := SetOf(included);
    InQueue(orphans, need, mapDependers, mapPriority, taken, included, h);
    TakeOne(need, mapPriority, taken, done, h);
    q := mapPriority - multiset{h};
    if added {
      IncludedAppend(included, h);
      q := Release(orphans, need, mapDependers, q, taken + {h}, done, h);
    }
  }

  /** The candidates that were considered are those all of whose parents outside the
      index are in the block. */
  ghost predicate Considered(need: Needs, taken: set<uint256>, included: seq<uint256>) {
    && taken <= need.Keys && (forall h :: h in included ==> h in taken)
    && forall h :: h in need ==> (h in taken <==> forall d :: d in need[h] ==> d in included)
  }

  lemma {:induction false} EmptyQueue(need: Needs, taken: set<uint256>, included: seq<uint256>)
    requires QueueOk(need, multiset{}, taken, SetOf(included)) && SetOf(included) <= taken <= need.Keys
    ensures Considered(need, taken, included)
  {
    var done := SetOf(included);
    forall h | h in need
      ensures h in taken <==> forall d :: d in need[h] ==> d in included
    {
      assert QueuedOk(need, multiset{}, taken, done, h);
    }
    forall h | h in included ensures h in taken { assert h in done; }
  }

  lemma {:induction false} NothingBuilt(c: Context, l0: seq<Entry>, pool: Pool, db: Index)
    requires TemplateOk(c, l0, [], db, 0)
    ensures Built(c, l0, pool, db, [], map[], 0, [], 1000)
  {
    assert EntriesOf(pool, []) == [] && View(db, map[], true) == db;
  }

  /** The candidates were considered in that order, each the best of those ready at the
      time; included are those that were admissible at their turn; and in the end
      nothing is ready that has not been considered. */
  ghost predicate Scheduled(c: Context, db: Index, pool: Pool, policy: Policy, need: Needs, order: seq<uint256>, included: seq<uint256>) {
    && Greedy(c, db, pool, policy, need, order) && included == Replay(c, db, pool, policy, order)
    && Considered(need, SetOf(order), included)
  }

  /** The collecting loop of CreateNewBlock. */
  method FillBlock(w: World, ghost c: Context, files: Files, pool: Pool, txdb: CTxDB, policy: Policy, pindexPrev: CBlockIndex,
                   ghost l0: seq<Entry>)
    returns (vtx: seq<CTransaction>, nFees: int64, ghost nBlockSize: nat, ghost testPool: Index, ghost included: seq<uint256>,
             ghost order: seq<uint256>)
    requires Fits(c, w, files, pool, pindexPrev) && PoolOk(c.hashTx, Placed(c.hashTx, l0), pool)
    requires TemplateOk(c, l0, [], txdb.Current().tx, 0) && txdb.Current().tx == LedgerIndex(c.hashTx, l0)
    modifies txdb
    ensures unchanged(txdb)
    ensures Built(c, l0, pool, txdb.Current().tx, included, testPool, nFees, vtx, nBlockSize)
    ensures SigOpsUsed(policy, pool, included) < MAX_BLOCK_SIGOPS
    ensures Scheduled(c, txdb.Current().tx, pool, policy, NeedsOf(files, txdb.Current().tx, pool, Candidates(pool, policy.isFinal)), order, included)
  {
    ghost var need := NeedsOf(files, txdb.Current().tx, pool, Candidates(pool, policy.isFinal));
    var mapDependers, mapPriority;
    ghost var orphans;
    mapDependers, mapPriority, orphans := Collect(files, txdb.Current().tx, pool, policy.isFinal);
    assert SetOf([]) == {};
    NothingBuilt(c, l0, pool, txdb.Current().tx);
    NothingRun(c, txdb.Current().tx, pool, policy, need);
    vtx, nFees, nBlockSize, testPool, included, order :=
      TakeAll(w, c, files, pool, txdb, policy, pindexPrev, l0, orphans, need, mapDependers, mapPriority);
  }

  /** Only final pool transactions other than coinbases are candidates. */
  ghost predicate Eligible(pool: Pool, need: Needs) {
    forall h :: h in need ==> h in pool && !pool[h].IsCoinBase()
  }

  /** The loop of CreateNewBlock that empties the priority queue. */
  method TakeAll(w: World, ghost c: Context, files: Files, pool: Pool, txdb: CTxDB, policy: Policy, pindexPrev: CBlockIndex,
                 ghost l0: seq<Entry>, ghost orphans: map<uint256, COrphan>, ghost need: Needs, mapDependers: Dependers,
                 mapPriorityIn: multiset<uint256>)
    returns (vtx: seq<CTransaction>, nFees: int64, ghost nBlockSize: nat, ghost testPool: Index, ghost included: seq<uint256>,
             ghost order: seq<uint256>)
    requires Fits(c, w, files, pool, pindexPrev) && PoolOk(c.hashTx, Placed(c.hashTx, l0), pool)
    requires txdb.Current().tx == LedgerIndex(c.hashTx, l0) && Built(c, l0, pool, txdb.Current().tx, [], map[], 0, [], 1000)
    requires RunIs(c, txdb.Current().tx, pool, policy, need, [], {}, []) && SigOpsUsed(policy, pool, []) == 100
    requires Queueing(orphans, need, mapDependers, mapPriorityIn, {}, []) && Eligible(pool, need)
    modifies txdb, orphans.Values
    ensures unchanged(txdb)
    ensures Built(c, l0, pool, txdb.Current().tx, included, testPool, nFees, vtx, nBlockSize)
    ensures SigOpsUsed(policy, pool, included) < MAX_BLOCK_SIGOPS
    ensures Scheduled(c, txdb.Current().tx, pool, policy, need, order, included)
  {
    var mapPriority := mapPriorityIn;
    var mapTestPool: Index := map[];
    var size: nat, nBlockSigOps: nat := 1000, 100;
    ghost var taken: set<uint256>, db := {}, txdb.Current().tx;
    vtx, nFees, included, order := [], 0, [], [];
    while mapPriority != multiset{}
      invariant unchanged(txdb)
      invariant Built(c, l0, pool, db, included, mapTestPool, nFees, vtx, size)
      invariant nBlockSigOps == SigOpsUsed(policy, pool, included) < MAX_BLOCK_SIGOPS
      invariant Queueing(orphans, need, mapDependers, mapPriority, taken, included)
      invariant RunIs(c, db, pool, policy, need, order, taken, included)
      decreases need.Keys - taken
    {
      var h := Begin(mapPriority, policy.priority);
      RunStep(c, db, pool, policy, need, order, taken, included, mapPriority, h);
      InQueue(orphans, need, mapDependers, mapPriority, taken, included, h);
      ghost var before := included;
      mapPriority, mapTestPool, nFees, vtx, size, nBlockSigOps, included :=
        TakeTurn(w, c, files, pool, txdb, policy, pindexPrev, l0, orphans, need, mapDependers, mapPriority, taken, before, h,
                 mapTestPool, nFees, vtx, size, nBlockSigOps);
      taken, order := taken + {h}, order + [h];
    }
    nBlockSize, testPool := size, mapTestPool;
    assert OrderIs(order, order);
    EmptyQueue(need, taken, included);
  }

  /** One turn of the loop, for the transaction h just taken. */
  method TakeTurn(w: World, ghost c: Context, files: Files, pool: Pool, txdb: CTxDB, policy: Policy, pindexPrev: CBlockIndex,
                  ghost l0: seq<Entry>, ghost orphans: map<uint256, COrphan>, ghost need: Needs, mapDependers: Dependers,
                  mapPriorityIn: multiset<uint256>, ghost taken: set<uint256>, ghost before: seq<uint256>, h: uint256,
                  testPoolIn: Index, nFeesIn: int64, vtxIn: seq<CTransaction>, nBlockSizeIn: nat, nBlockSigOpsIn: nat)
    returns (mapPriority: multiset<uint256>, testPool: Index, nFees: int64, vtx: seq<CTransaction>, nBlockSize: nat,
             nBlockSigOps: nat, ghost included: seq<uint256>)
    requires Fits(c, w, files, pool, pindexPrev) && PoolOk(c.hashTx, Placed(c.hashTx, l0), pool)
    requires txdb.Current().tx == LedgerIndex(c.hashTx, l0)
    requires Built(c, l0, pool, txdb.Current().tx, before, testPoolIn, nFeesIn, vtxIn, nBlockSizeIn)
    requires nBlockSigOpsIn == SigOpsUsed(policy, pool, before) < MAX_BLOCK_SIGOPS
    requires Queueing(orphans, need, mapDependers, mapPriorityIn, taken, before) && h in mapPriorityIn
    requires h in pool && h !in before && !pool[h].IsCoinBase()
    modifies txdb, orphans.Values
    ensures unchanged(txdb)
    ensures included == if Admissible(c, txdb.Current().tx, pool, policy, before, h) then before + [h] else before
    ensures Built(c, l0, pool, txdb.Current().tx, included, testPool, nFees, vtx, nBlockSize)
    ensures nBlockSigOps == SigOpsUsed(policy, pool, included) < MAX_BLOCK_SIGOPS
    ensures Queueing(orphans, need, mapDependers, mapPriority, taken + {h}, included)
  {
    var added;
    added, testPool, nFees, vtx, nBlockSize, nBlockSigOps :=
      Consider(w, c, files, pool, txdb, policy, pindexPrev, l0, before, testPoolIn, h, nFeesIn, vtxIn, nBlockSizeIn, nBlockSigOpsIn);
    included := if added then before + [h] else before;
    mapPriority := Settle(orphans, need, mapDependers, mapPriorityIn, taken, before, h, added);
  }

  lemma {:induction false} NothingRun(c: Context, db: Index, pool: Pool, policy: Policy, need: Needs)
    ensures RunIs(c, db, pool, policy, need, [], {}, []) && SigOpsUsed(policy, pool, []) == 100
  {
    assert SetOf([]) == {} && TxsOf(pool, []) == [];
  }

  // ----- the template of a chain in a valid state -----

  lemma {:induction false} ValuesJoin(l: seq<Entry>, m: seq<Entry>)
    requires ValuesOk(l) && ValuesOk(m)
    ensures ValuesOk(l + m)
  {
  }

  lemma {:induction false} LedgerValues(files: Files, path: seq<CBlockIndex>)
    requires PathStored(files, path)
    ensures ValuesOk(LedgerOf(path))
  {
    if |path| > 1 {
      var front, p := path[..|path| - 1], path[|path| - 1];
      assert forall k :: 0 <= k < |front| ==> front[k] == path[k];
      LedgerValues(files, front);
      assert BlockStored(files, p);
      assert ValuesOk(BlockEntries(p));
      ValuesJoin(LedgerOf(front), BlockEntries(p));
    }
  }

  /** The ledger of the best chain. */
  ghost function BestLedger(tip: CBlockIndex): seq<Entry>
    requires Linked(tip)
  {
    LedgerOf(Path(tip))
  }

  lemma {:induction false} ChainStored(w: World, c: Context, files: Files, pool: Pool, m: Tree, tip: CBlockIndex)
    requires TreeOk(m) && AllStored(w, files, m) && InTree(m, tip) && Fits(c, w, files, pool, tip)
    ensures EntriesStored(c, BestLedger(tip)) && ValuesOk(BestLedger(tip))
  {
    PathIsStored(w, files, m, tip);
    LedgerStored(c, files, Path(tip));
    LedgerValues(files, Path(tip));
  }

  lemma {:induction false} ChainMoney(w: World, m: Tree, s: Store, tip: CBlockIndex)
    requires SettledAt(w, m, s, tip)
    ensures var f, l := w.hashTx, BestLedger(tip);
            && ValidLedger(f, l) && s.tx == LedgerIndex(f, l)
            && Covers(f, LedgerIndex(f, l), l) && UnspentValue(f, LedgerIndex(f, l), l) <= MAX_MONEY
  {
    PathMoney(w.hashTx, Path(tip), BestLedger(tip));
    LedgerCovers(w.hashTx, BestLedger(tip));
    IndexAtMeans(w.hashTx, s.tx, Path(tip));
  }

  lemma {:induction false} ReadyForTemplate(w: World, c: Context, files: Files, pool: Pool, m: Tree, s: Store, tip: CBlockIndex)
    requires TreeOk(m) && AllStored(w, files, m) && SettledAt(w, m, s, tip) && Fits(c, w, files, pool, tip)
    ensures TemplateOk(c, BestLedger(tip), [], s.tx, 0) && s.tx == LedgerIndex(c.hashTx, BestLedger(tip))
  {
    ChainStored(w, c, files, pool, m, tip);
    ChainMoney(w, m, s, tip);
    EmptyTemplate(c, BestLedger(tip));
  }

  /** What the finished template says: its transactions extend the ledger of the chain
      to a valid one whose money is in range, they connect one after another, and
      nFees is the sum of what they pay. */
  ghost predicate Finished(c: Context, l0: seq<Entry>, es: seq<Entry>, nFees: int) {
    forall l {:trigger Joined(l0, es, l)} :: Joined(l0, es, l) ==>
      && Sound(c, l, LedgerIndex(c.hashTx, l), nFees) && Paid(c, l, es, nFees)
      && ConnectEntries(c, LedgerIndex(c.hashTx, l0), es, 0) == Some((LedgerIndex(c.hashTx, l), nFees))
  }

  lemma {:induction false} FinishedConnects(c: Context, l0: seq<Entry>, es: seq<Entry>, nFees: int)
    requires Finished(c, l0, es, nFees)
    ensures var r := ConnectEntries(c, LedgerIndex(c.hashTx, l0), es, 0); r.Some? && r.value.1 == nFees
  {
    assert Joined(l0, es, l0 + es);
  }

  lemma {:induction false} BuiltIsFinished(c: Context, l0: seq<Entry>, pool: Pool, db: Index, included: seq<uint256>,
                                           testPool: Index, nFees: int, txs: seq<CTransaction>, nBlockSize: int)
    requires Built(c, l0, pool, db, included, testPool, nFees, txs, nBlockSize)
    ensures Finished(c, l0, EntriesOf(pool, included), nFees)
  {
    assert ViewIs(db, testPool, View(db, testPool, true));
  }

  /** With the right value for the coinbase, what FillBlock has built is a template. */
  lemma {:induction false} BuiltIsTemplate(c: Context, l0: seq<Entry>, pool: Pool, db: Index, included: seq<uint256>, testPool: Index,
                                           nFees: int, txs: seq<CTransaction>, nBlockSize: int, scriptPubKey: seq<byte>,
                                           nSubsidy: int, nValue: int64)
    requires Built(c, l0, pool, db, included, testPool, nFees, txs, nBlockSize)
    requires nValue == nSubsidy + nFees && MoneyRange(nSubsidy)
    ensures IsTemplate(c, l0, pool, included, nFees, scriptPubKey, nSubsidy, WithCoinBase(scriptPubKey, nValue, txs))
  {
    BuiltIsFinished(c, l0, pool, db, included, testPool, nFees, txs, nBlockSize);
    SameBlock(scriptPubKey, nValue, nSubsidy + nFees, txs, TxsOf(pool, included));
  }

  function CoinBaseTx(scriptPubKey: seq<byte>, nValue: int64): CTransaction {
    CTransaction(1, [CTxIn(COutPoint(0, UINT_MAX), [], UINT_MAX)], [CTxOut(nValue, scriptPubKey)], 0)
  }

  function WithCoinBase(scriptPubKey: seq<byte>, nValue: int64, txs: seq<CTransaction>): seq<CTransaction> {
    [CoinBaseTx(scriptPubKey, nValue)] + txs
  }

  /** The transactions of the new block. */
  method Assemble(w: World, ghost c: Context, files: Files, pool: Pool, txdb: CTxDB, policy: Policy, pindexPrev: CBlockIndex,
                  ghost l0: seq<Entry>, scriptPubKey: seq<byte>)
    returns (vtx: seq<CTransaction>, ghost included: seq<uint256>, ghost order: seq<uint256>, ghost nFees: int)
    requires Fits(c, w, files, pool, pindexPrev) && PoolOk(c.hashTx, Placed(c.hashTx, l0), pool)
    requires TemplateOk(c, l0, [], txdb.Current().tx, 0) && txdb.Current().tx == LedgerIndex(c.hashTx, l0)
    modifies txdb
    ensures unchanged(txdb)
    ensures IsTemplate(c, l0, pool, included, nFees, scriptPubKey, Subsidy(pindexPrev.nHeight + 1), vtx)
    ensures SigOpsUsed(policy, pool, included) < MAX_BLOCK_SIGOPS
    ensures Scheduled(c, txdb.Current().tx, pool, policy, NeedsOf(files, txdb.Current().tx, pool, Candidates(pool, policy.isFinal)), order, included)
  {
    var txs, fees;
    ghost var nBlockSize, testPool;
    txs, fees, nBlockSize, testPool, included, order := FillBlock(w, c, files, pool, txdb, policy, pindexPrev, l0);
    nFees := fees;
    var nValue := GetBlockValue(pindexPrev.nHeight + 1, fees);
    BuiltIsTemplate(c, l0, pool, txdb.Current().tx, included, testPool, nFees, txs, nBlockSize, scriptPubKey,
                    Subsidy(pindexPrev.nHeight + 1), nValue);
    vtx := WithCoinBase(scriptPubKey, nValue, txs);
  }

  lemma {:induction false} SameBlock(scriptPubKey: seq<byte>, m: int64, n: int64, txs: seq<CTransaction>, txs': seq<CTransaction>)
    requires m == n && txs == txs'
    ensures WithCoinBase(scriptPubKey, m, txs) == WithCoinBase(scriptPubKey, n, txs')
  {
  }

  /** A finished template: the coinbase takes the subsidy and exactly the fees of the
      included transactions, and these leave room for it within the size limit. */
  ghost predicate IsTemplate(c: Context, l0: seq<Entry>, pool: Pool, included: seq<uint256>, nFees: int,
                             scriptPubKey: seq<byte>, nSubsidy: int, vtx: seq<CTransaction>) {
    && InPool(pool, included) && Finished(c, l0, EntriesOf(pool, included), nFees)
    && 0 <= nFees <= MAX_MONEY && 0 <= nSubsidy <= MAX_MONEY
    && vtx == WithCoinBase(scriptPubKey, nSubsidy + nFees, TxsOf(pool, included))
    && 1000 + SizeAll(SizeTx, TxsOf(pool, included)) < MAX_BLOCK_SIZE_GEN
  }

  /** CreateNewBlock, without the header, on any chain in a valid state. */
  method CreateNewBlock(main: CMain, policy: Policy, scriptPubKey: seq<byte>)
    returns (vtx: seq<CTransaction>, ghost c: Context, ghost included: seq<uint256>, ghost order: seq<uint256>, ghost nFees: int)
    requires main.Valid() && main.pindexBest != null
    requires PoolOk(main.w.hashTx, Placed(main.w.hashTx, BestLedger(main.pindexBest)), main.mapTransactions)
    modifies main.txdb
    ensures unchanged(main.txdb)
    ensures Fits(c, main.w, main.files, main.mapTransactions, main.pindexBest)
    ensures main.txdb.committed.tx == LedgerIndex(c.hashTx, BestLedger(main.pindexBest))
    ensures IsTemplate(c, BestLedger(main.pindexBest), main.mapTransactions, included, nFees, scriptPubKey,
                       Subsidy(main.pindexBest.nHeight + 1), vtx)
    ensures SigOpsUsed(policy, main.mapTransactions, included) < MAX_BLOCK_SIGOPS
    ensures Scheduled(c, main.txdb.committed.tx, main.mapTransactions, policy,
                      NeedsOf(main.files, main.txdb.committed.tx, main.mapTransactions, Candidates(main.mapTransactions, policy.isFinal)),
                      order, included)
  {
    var pindexPrev := main.pindexBest;
    c := ContextAt(main.w, main.files, main.mapTransactions, pindexPrev);
    ContextFits(main.w, main.files, main.mapTransactions, pindexPrev);
    ReadyForTemplate(main.w, c, main.files, main.mapTransactions, main.mapBlockIndex, main.txdb.committed, pindexPrev);
    vtx, included, order, nFees :=
      Assemble(main.w, c, main.files, main.mapTransactions, main.txdb, policy, pindexPrev, BestLedger(pindexPrev), scriptPubKey);
  }

  /** The serialized block stays under the miner's limit whenever the coinbase fits
      in the 1000 bytes set aside for it and the header. */
  lemma {:induction false} TemplateSize(b: CBlock, txs: seq<CTransaction>)
    requires b.auxpow.None? && |b.vtx| == |txs| + 1 && b.vtx[1..] == txs
    requires 1000 + SizeAll(SizeTx, txs) < MAX_BLOCK_SIZE_GEN && SizeTx(b.vtx[0]) <= 1000 - 80 - GetSizeOfCompactSize(|b.vtx|)
    ensures SizeBlock(b, false) < MAX_BLOCK_SIZE_GEN
  {
  }

  /** No pool transaction is in the template twice. */
  lemma {:induction false} TemplateOnce(c: Context, l0: seq<Entry>, pool: Pool, included: seq<uint256>, j: nat, k: nat)
    requires InPool(pool, included) && ValidLedger(c.hashTx, l0 + EntriesOf(pool, included))
    requires j < k < |included|
    ensures included[j] != included[k] && pool[included[j]] != pool[included[k]]
  {
    var l := l0 + EntriesOf(pool, included);
    ValidHashesDistinct(c.hashTx, l);
    assert l[|l0| + j] == EntryOf(pool, included[j]) && l[|l0| + k] == EntryOf(pool, included[k]);
    assert HashOf(c.hashTx, l[|l0| + j]) != HashOf(c.hashTx, l[|l0| + k]);
  }
}
