/** CDataStream: a byte queue read from the front by moving nReadPos, and the
    compact sizes and byte vectors written to and read from it. */
module DataStream {
  import opened Basics
  import Serialize

  class CDataStream {
    var vch: seq<byte>
    var nReadPos: nat
    var failed: bool
    const nVersion: int

    ghost predicate Valid() reads this {
      nReadPos <= |vch|
    }

    /** The bytes not read yet. */
    function Ahead(): seq<byte>
      requires Valid()
      reads this
    {
      vch[nReadPos..]
    }

    constructor (b: seq<byte>, version: int)
      ensures Valid() && Ahead() == b && nVersion == version && !failed
    {
      vch, nReadPos, failed, nVersion := b, 0, false, version;
    }

    function Size(): nat
      requires Valid()
      reads this
    {
      |vch| - nReadPos
    }

    method Write(b: seq<byte>)
      requires Valid()
      modifies this`vch
      ensures Valid() && Ahead() == old(Ahead()) + b && vch == old(vch) + b
    {
      DropAppend(vch, b, nReadPos);
      vch := vch + b;
    }

    /** erase from the front; reaching the end clears the buffer. */
    method EraseFront(k: nat)
      requires Valid() && k <= Size()
      modifies this`vch, this`nReadPos
      ensures Valid() && Ahead() == old(Ahead())[k..]
    {
      if nReadPos + k == |vch| {
        nReadPos, vch := 0, [];
      } else {
        nReadPos := nReadPos + k;
      }
    }

    /** insert at the front, over the bytes already read when there is room. */
    method InsertFront(b: seq<byte>)
      requires Valid()
      modifies this`vch, this`nReadPos
      ensures Valid() && Ahead() == b + old(Ahead())
    {
      if |b| <= nReadPos {
        nReadPos := nReadPos - |b|;
        vch := vch[..nReadPos] + b + vch[nReadPos + |b|..];
        assert vch[nReadPos..] == b + old(Ahead());
      } else {
        vch := vch[..nReadPos] + b + vch[nReadPos..];
        assert vch[nReadPos..] == b + old(Ahead());
      }
    }

    method Compact()
      requires Valid()
      modifies this`vch, this`nReadPos
      ensures Valid() && Ahead() == old(Ahead()) && nReadPos == 0
    {
      vch := vch[nReadPos..];
      nReadPos := 0;
    }

    /** Undoes reads, for as long as nothing has dropped the bytes. */
    method Rewind(n: nat) returns (ok: bool)
      requires Valid()
      modifies this`nReadPos
      ensures Valid() && ok == (n <= old(nReadPos))
      ensures ok ==> |Ahead()| == |old(Ahead())| + n && Ahead()[n..] == old(Ahead())
      ensures !ok ==> Ahead() == old(Ahead())
    {
      if n > nReadPos {
        return false;
      }
      nReadPos := nReadPos - n;
      ok := true;
    }

    /** Reads n bytes; past the end it fails and leaves the buffer alone, the
        source's exception. */
    method Read(n: nat) returns (ok: bool, data: seq<byte>)
      requires Valid()
      modifies this
      ensures Valid() && ok == (n <= |old(Ahead())|)
      ensures ok ==> data == old(Ahead())[..n] && Ahead() == old(Ahead())[n..] && failed == old(failed)
      ensures !ok ==> Ahead() == old(Ahead()) && failed
    {
      var nReadPosNext := nReadPos + n;
      if nReadPosNext >= |vch| {
        if nReadPosNext > |vch| {
          failed := true;
          return false, [];
        }
        data := vch[nReadPos..];
        nReadPos, vch := 0, [];
        return true, data;
      }
      data := vch[nReadPos..nReadPosNext];
      nReadPos := nReadPosNext;
      ok := true;
    }

    method Ignore(n: nat) returns (ok: bool)
      requires Valid()
      modifies this
      ensures Valid() && ok == (n <= |old(Ahead())|)
      ensures ok ==> Ahead() == old(Ahead())[n..] && failed == old(failed)
      ensures !ok ==> Ahead() == old(Ahead()) && failed
    {
      var nReadPosNext := nReadPos + n;
      if nReadPosNext >= |vch| {
        if nReadPosNext > |vch| {
          failed := true;
          return false;
        }
        nReadPos, vch := 0, [];
        return true;
      }
      nReadPos := nReadPosNext;
      ok := true;
    }

    method ReadUInt(k: nat) returns (r: Option<nat>)
      requires Valid()
      modifies this
      ensures Valid()
      ensures r == None ==> Serialize.ReadUInt(k, old(Ahead())).None? && failed
      ensures r.Some? ==> Serialize.ReadUInt(k, old(Ahead())) == Some((r.value, Ahead())) && failed == old(failed)
    {
      var ok, data := Read(k);
      r := if ok then Some(FromLE(data)) else None;
    }

    method WriteCompactSize(nSize: uint64)
      requires Valid()
      modifies this`vch
      ensures Valid() && Ahead() == old(Ahead()) + Serialize.CompactSize(nSize)
    {
      ghost var before := Ahead();
      if nSize < 253 {
        Write([nSize]);
      } else if nSize <= 0xffff {
        Write([253]);
        Write(LE(nSize, 2));
        assert Ahead() == before + ([253] + LE(nSize, 2));
      } else if nSize <= 0xffff_ffff {
        Write([254]);
        Write(LE(nSize, 4));
        assert Ahead() == before + ([254] + LE(nSize, 4));
      } else {
        Write([255]);
        Write(LE(nSize, 8));
        assert Ahead() == before + ([255] + LE(nSize, 8));
      }
    }

    /** ReadCompactSize; None for the end of the data and for sizes over the limit. */
    method ReadCompactSize() returns (r: Option<nat>)
      requires Valid()
      modifies this
      ensures Valid()
      ensures r == None <==> Serialize.ReadCompactSize(old(Ahead())).None?
      ensures r.Some? ==> Serialize.ReadCompactSize(old(Ahead())) == Some((r.value, Ahead())) && failed == old(failed)
    {
      ghost var before := Ahead();
      var ok, tag := Read(1);
      if !ok {
        return None;
      }
      assert tag == [before[0]] && Ahead() == before[1..];
      var chSize := tag[0];
      var nSizeRet := chSize;
      if chSize >= 253 {
        var body := ReadUInt(if chSize == 253 then 2 else if chSize == 254 then 4 else 8);
        if body.None? {
          return None;
        }
        nSizeRet := body.value;
      } else {
        assert before[1..][0..] == before[1..];
      }
      if nSizeRet > Serialize.MAX_SIZE {
        return None;
      }
      r := Some(nSizeRet);
    }

    /** Serialize_impl for a vector of bytes. */
    method WriteVector(v: seq<byte>)
      requires Valid() && |v| < 0x1_0000_0000_0000_0000
      modifies this`vch
      ensures Valid() && Ahead() == old(Ahead()) + Serialize.SerializeBytes(v)
    {
      ghost var before := Ahead();
      WriteCompactSize(|v|);
      if v != [] {
        Write(v);
      }
      assert Ahead() == before + Serialize.SerializeBytes(v);
    }

    /** Unserialize_impl for a vector of bytes. */
    method ReadVector() returns (r: Option<seq<byte>>)
      requires Valid()
      modifies this
      ensures Valid()
      ensures r.Some? <==> Serialize.ParseBytes(old(Ahead())).Some?
      ensures r.Some? ==> Serialize.ParseBytes(old(Ahead())) == Some((r.value, Ahead()))
    {
      var nSize := ReadCompactSize();
      if nSize.None? {
        return None;
      }
      r := ReadBlocks(nSize.value);
    }

    /** The vector grows by at most 5000000 bytes at a time, so that a bogus size does
        not allocate it all at once. */
    method ReadBlocks(nSize: nat) returns (r: Option<seq<byte>>)
      requires Valid()
      modifies this
      ensures Valid()
      ensures r.Some? <==> nSize <= |old(Ahead())|
      ensures r.Some? ==> r.value == old(Ahead())[..nSize] && Ahead() == old(Ahead())[nSize..]
    {
      ghost var body := Ahead();
      var v: seq<byte> := [];
      var i: nat := 0;
      while i < nSize
        invariant Valid() && i <= nSize && i <= |body|
        invariant v == body[..i] && Ahead() == body[i..]
      {
        var blk := if nSize - i < 5000000 then nSize - i else 5000000;
        var ok, data := Read(blk);
        if !ok {
          return None;
        }
        TakeMore(body, i, blk);
        v := v + data;
        i := i + blk;
      }
      r := Some(v);
    }
  }

  lemma {:induction false} TakeMore(body: seq<byte>, i: nat, blk: nat)
    requires i + blk <= |body|
    ensures body[..i] + body[i..][..blk] == body[..i + blk] && body[i..][blk..] == body[i + blk..]
  {
  }
}
