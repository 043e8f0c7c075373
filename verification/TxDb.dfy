/** The transactional store behind CTxDB: one committed state and a stack of
    open transactions, each a private copy of the state below it. */
module TxDb {
  import opened Basics
  import opened Serialize
  import opened TxIndex

  /** The records the chain code writes: transaction index entries, the hashNext
      field of each block index record, and the best chain hash. */
  datatype Store = Store(tx: Index, hashNext: map<uint256, uint256>, hashBestChain: uint256)

  class CTxDB {
    var committed: Store
    var vTxn: seq<Store>

    constructor ()
      ensures committed == Store(map[], map[], 0) && vTxn == []
    {
      committed, vTxn := Store(map[], map[], 0), [];
    }

    /** What reads see: the innermost open transaction. */
    function Current(): Store
      reads this
    {
      if vTxn == [] then committed else vTxn[|vTxn| - 1]
    }

    /** What the open transactions below the innermost one hold. */
    function Below(): seq<Store>
      reads this
    {
      if vTxn == [] then [] else vTxn[..|vTxn| - 1]
    }

    /** The only change is that reads now see s. */
    twostate predicate Wrote(new s: Store)
      reads this
    {
      && |vTxn| == |old(vTxn)| && Below() == old(Below()) && Current() == s
      && (vTxn != [] ==> committed == old(committed))
    }

    method Write(s: Store)
      modifies this
      ensures Wrote(s) && Current() == s
    {
      if vTxn == [] {
        committed := s;
      } else {
        vTxn := vTxn[..|vTxn| - 1] + [s];
      }
    }

    method ReadTxIndex(hash: uint256) returns (txindex: Option<CTxIndex>)
      ensures txindex == if hash in Current().tx then Some(Current().tx[hash]) else None
    {
      txindex := if hash in Current().tx then Some(Current().tx[hash]) else None;
    }

    method UpdateTxIndex(hash: uint256, txindex: CTxIndex)
      modifies this
      ensures Wrote(old(Current()).(tx := old(Current()).tx[hash := txindex]))
      ensures Current() == old(Current()).(tx := old(Current()).tx[hash := txindex])
    {
      Write(Current().(tx := Current().tx[hash := txindex]));
    }

    method AddTxIndex(hash: uint256, pos: CDiskTxPos, nOutputs: nat)
      modifies this
      ensures Wrote(old(Current()).(tx := old(Current()).tx[hash := NewTxIndex(pos, nOutputs)]))
      ensures Current() == old(Current()).(tx := old(Current()).tx[hash := NewTxIndex(pos, nOutputs)])
    {
      UpdateTxIndex(hash, NewTxIndex(pos, nOutputs));
    }

    method EraseTxIndex(hash: uint256)
      modifies this
      ensures Wrote(old(Current()).(tx := old(Current()).tx - {hash}))
      ensures Current() == old(Current()).(tx := old(Current()).tx - {hash})
    {
      Write(Current().(tx := Current().tx - {hash}));
    }

    method WriteBlockIndex(hash: uint256, hashNext: uint256)
      modifies this
      ensures Wrote(old(Current()).(hashNext := old(Current()).hashNext[hash := hashNext]))
      ensures Current() == old(Current()).(hashNext := old(Current()).hashNext[hash := hashNext])
    {
      Write(Current().(hashNext := Current().hashNext[hash := hashNext]));
    }

    method WriteHashBestChain(hash: uint256)
      modifies this
      ensures Wrote(old(Current()).(hashBestChain := hash))
      ensures Current() == old(Current()).(hashBestChain := hash)
    {
      Write(Current().(hashBestChain := hash));
    }

    method TxnBegin()
      modifies this
      ensures committed == old(committed) && vTxn == old(vTxn) + [old(Current())] && Current() == old(Current())
    {
      vTxn := vTxn + [Current()];
    }

    /** Fails, changing nothing, when no transaction is open. */
    method TxnCommit() returns (ok: bool)
      modifies this
      ensures ok <==> old(vTxn) != []
      ensures !ok ==> committed == old(committed) && vTxn == old(vTxn)
      ensures ok ==> Current() == old(Current()) && |vTxn| == |old(vTxn)| - 1
      ensures ok && |old(vTxn)| > 1 ==> committed == old(committed) && vTxn[..|vTxn| - 1] == old(vTxn)[..|vTxn| - 1]
    {
      if vTxn == [] {
        return false;
      }
      var s := Current();
      vTxn := vTxn[..|vTxn| - 1];
      Write(s);
      return true;
    }

    /** Fails, changing nothing, when no transaction is open. */
    method TxnAbort() returns (ok: bool)
      modifies this
      ensures ok <==> old(vTxn) != []
      ensures committed == old(committed)
      ensures vTxn == if ok then old(vTxn)[..|old(vTxn)| - 1] else old(vTxn)
    {
      if vTxn == [] {
        return false;
      }
      vTxn := vTxn[..|vTxn| - 1];
      return true;
    }
  }
}
