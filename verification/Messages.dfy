/** ProcessMessages: cutting the bytes received from a peer into messages. */
module Messages {
  import opened Basics
  import opened DataStream
  import opened ByteSearch
  import Serialize

  const pchMessageStart: seq<byte> := [0xf1, 0xba, 0xb6, 0xdb]
  const COMMAND_SIZE := 12

  /** The checksum is the front of the hash of the data. */
  type Checksum = seq<byte> -> uint32

  datatype Message = Message(command: seq<byte>, data: seq<byte>)

  datatype CMessageHeader = CMessageHeader(start: seq<byte>, command: seq<byte>, nMessageSize: uint32, nChecksum: uint32)

  /** Peers of version 209 and later send a checksum. */
  function HeaderSize(version: int): nat {
    if version >= 209 then 24 else 20
  }

  function ReadHeader(version: int, s: seq<byte>): CMessageHeader
    requires |s| >= HeaderSize(version)
  {
    CMessageHeader(s[..4], s[4..16], Word(s[16..20]), if version >= 209 then Word(s[20..24]) else 0)
  }

  function Word(s: seq<byte>): uint32
    requires |s| == 4
  {
    WordBound(s);
    FromLE(s)
  }

  lemma {:induction false} WordBound(s: seq<byte>)
    requires |s| == 4
    ensures FromLE(s) < 0x1_0000_0000
  {
    Pow256Values();
    FromLEBound(s);
  }

  /** Printable characters, then nothing but zeros. */
  ghost predicate ValidCommand(command: seq<byte>) {
    exists n :: IsName(command, n)
  }

  predicate IsName(command: seq<byte>, n: nat) {
    && n <= |command|
    && (forall k :: 0 <= k < n ==> 0x20 <= command[k] <= 0x7e)
    && (forall k :: n <= k < |command| ==> command[k] == 0)
  }

  ghost predicate ValidHeader(h: CMessageHeader) {
    h.start == pchMessageStart && ValidCommand(h.command) && h.nMessageSize <= Serialize.MAX_SIZE
  }

  function StrLen(s: seq<byte>): (n: nat)
    ensures n <= |s| && (forall k :: 0 <= k < n ==> s[k] != 0) && (n < |s| ==> s[n] == 0)
  {
    if s == [] || s[0] == 0 then 0 else 1 + StrLen(s[1..])
  }

  /** CMessageHeader::GetCommand */
  function Command(command: seq<byte>): seq<byte> {
    command[..StrLen(command)]
  }

  /** One turn of the loop: wait for more bytes, drop something bad, or dispatch. */
  datatype Step = Wait(left: seq<byte>) | Drop(left: seq<byte>) | Dispatch(message: Message, left: seq<byte>)

  /** t starts at a message start and is as long as a header. */
  ghost function Examine(cs: Checksum, version: int, t: seq<byte>): (r: Step)
    requires |t| >= HeaderSize(version)
    ensures !r.Wait? ==> |r.left| < |t|
  {
    var h, body := ReadHeader(version, t), t[HeaderSize(version)..];
    if !ValidHeader(h) then Drop(body)
    else if h.nMessageSize > |body| then Wait(t)
    else if version >= 209 && cs(body[..h.nMessageSize]) != h.nChecksum then Drop(body)
    else Dispatch(Message(Command(h.command), body[..h.nMessageSize]), body[h.nMessageSize..])
  }

  ghost function Next(cs: Checksum, version: int, s: seq<byte>): (r: Step)
    ensures !r.Wait? ==> |r.left| < |s|
  {
    NextAt(cs, version, s, Search(s, pchMessageStart))
  }

  /** p is where the scan for the message start ended. */
  ghost function NextAt(cs: Checksum, version: int, s: seq<byte>, p: nat): (r: Step)
    requires p <= |s|
    ensures !r.Wait? ==> |r.left| < |s|
  {
    var n := HeaderSize(version);
    if |s| - p < n then Wait(if |s| > n then s[|s| - n..] else s) else Examine(cs, version, s[p..])
  }

  datatype Outcome = Outcome(log: seq<Message>, left: seq<byte>)

  /** Everything one call dispatches, and what stays in the buffer. */
  ghost function Process(cs: Checksum, version: int, s: seq<byte>): Outcome
    decreases |s|
  {
    match Next(cs, version, s)
    case Wait(left) => Outcome([], left)
    case Drop(left) => Process(cs, version, left)
    case Dispatch(m, left) =>
      var more := Process(cs, version, left);
      Outcome([m] + more.log, more.left)
  }

  /** CMessageHeader::IsValid */
  method IsValid(h: CMessageHeader) returns (ok: bool)
    requires |h.command| == COMMAND_SIZE
    ensures ok <==> ValidHeader(h)
  {
    if h.start != pchMessageStart {
      return false;
    }
    var p1 := 0;
    ghost var n: nat := COMMAND_SIZE;
    while p1 < COMMAND_SIZE
      invariant 0 <= p1 <= COMMAND_SIZE + 1 && n <= COMMAND_SIZE
      invariant p1 <= COMMAND_SIZE ==> n == COMMAND_SIZE && forall k :: 0 <= k < p1 ==> 0x20 <= h.command[k] <= 0x7e
      invariant p1 > COMMAND_SIZE ==> IsName(h.command, n)
    {
      if h.command[p1] == 0 {
        n := p1;
        while p1 < COMMAND_SIZE
          invariant n <= p1 <= COMMAND_SIZE
          invariant forall k :: n <= k < p1 ==> h.command[k] == 0
        {
          if h.command[p1] != 0 {
            assert h.command[n] == 0;
            return false;
          }
          p1 := p1 + 1;
        }
      } else if h.command[p1] < 0x20 || h.command[p1] > 0x7e {
        return false;
      }
      p1 := p1 + 1;
    }
    assert IsName(h.command, n);
    ok := h.nMessageSize <= Serialize.MAX_SIZE;
  }

  method UnserializeHeader(vRecv: CDataStream) returns (hdr: CMessageHeader)
    requires vRecv.Valid() && |vRecv.Ahead()| >= HeaderSize(vRecv.nVersion)
    modifies vRecv
    ensures vRecv.Valid() && vRecv.Ahead() == old(vRecv.Ahead())[HeaderSize(vRecv.nVersion)..]
    ensures hdr == ReadHeader(vRecv.nVersion, old(vRecv.Ahead())) && |hdr.command| == COMMAND_SIZE
  {
    ghost var s := vRecv.Ahead();
    var ok, start, command, size;
    ok, start := vRecv.Read(4);
    ok, command := vRecv.Read(COMMAND_SIZE);
    assert command == s[4..16] && vRecv.Ahead() == s[16..];
    ok, size := vRecv.Read(4);
    assert size == s[16..20] && vRecv.Ahead() == s[20..];
    var nChecksum: uint32 := 0;
    if vRecv.nVersion >= 209 {
      var checksum;
      ok, checksum := vRecv.Read(4);
      assert checksum == s[20..24] && vRecv.Ahead() == s[24..];
      nChecksum := Word(checksum);
    }
    hdr := CMessageHeader(start, command, Word(size), nChecksum);
  }

  /** One turn of the loop; done when it breaks off. */
  method NextMessage(cs: Checksum, vRecv: CDataStream) returns (done: bool, message: Option<Message>)
    requires vRecv.Valid()
    modifies vRecv
    ensures vRecv.Valid()
    ensures Next(cs, vRecv.nVersion, old(vRecv.Ahead()))
         == if done then Wait(vRecv.Ahead()) else if message.None? then Drop(vRecv.Ahead())
            else Dispatch(message.value, vRecv.Ahead())
  {
    var nHeaderSize := HeaderSize(vRecv.nVersion);
    var pstart := Search(vRecv.Ahead(), pchMessageStart);
    if vRecv.Size() - pstart < nHeaderSize {
      if vRecv.Size() > nHeaderSize {
        vRecv.EraseFront(vRecv.Size() - nHeaderSize);
      }
      return true, None;
    }
    vRecv.EraseFront(pstart);
    done, message := ReadMessage(cs, vRecv);
  }

  method ReadMessage(cs: Checksum, vRecv: CDataStream) returns (done: bool, message: Option<Message>)
    requires vRecv.Valid() && |vRecv.Ahead()| >= HeaderSize(vRecv.nVersion)
    modifies vRecv
    ensures vRecv.Valid()
    ensures Examine(cs, vRecv.nVersion, old(vRecv.Ahead()))
         == if done then Wait(vRecv.Ahead()) else if message.None? then Drop(vRecv.Ahead())
            else Dispatch(message.value, vRecv.Ahead())
  {
    done, message := false, None;
    var nHeaderSize := HeaderSize(vRecv.nVersion);
    var vHeaderSave := vRecv.Ahead()[..nHeaderSize];
    var hdr := UnserializeHeader(vRecv);
    var valid := IsValid(hdr);
    if !valid {
      return;
    }

    var nMessageSize := hdr.nMessageSize;
    if nMessageSize > Serialize.MAX_SIZE {
      return;
    }
    if nMessageSize > vRecv.Size() {
      // What is left is what was there before, so nothing is lost by waiting.
      vRecv.InsertFront(vHeaderSave);
      assert vRecv.Ahead() == old(vRecv.Ahead());
      done := true;
      return;
    }

    if vRecv.nVersion >= 209 {
      var nChecksum := cs(vRecv.Ahead()[..nMessageSize]);
      if nChecksum != hdr.nChecksum {
        return;
      }
    }

    var vMsg := vRecv.Ahead()[..nMessageSize];
    var ok := vRecv.Ignore(nMessageSize);
    message := Some(Message(Command(hdr.command), vMsg));
  }

  /** ProcessMessages.  log stands for the calls of ProcessMessage. */
  method ProcessMessages(cs: Checksum, vRecv: CDataStream) returns (log: seq<Message>)
    requires vRecv.Valid()
    modifies vRecv
    ensures vRecv.Valid()
    ensures Process(cs, vRecv.nVersion, old(vRecv.Ahead())) == Outcome(log, vRecv.Ahead())
  {
    log := [];
    ghost var all := Process(cs, vRecv.nVersion, vRecv.Ahead());
    if vRecv.Size() == 0 {
      return;
    }
    while true
      invariant vRecv.Valid()
      invariant all == Continued(log, Process(cs, vRecv.nVersion, vRecv.Ahead()))
      decreases |vRecv.Ahead()|
    {
      ghost var more := Process(cs, vRecv.nVersion, vRecv.Ahead());
      var done, message := NextMessage(cs, vRecv);
      if done {
        assert log + [] == log;
        break;
      }
      if message.Some? {
        Regroup(log, [message.value], Process(cs, vRecv.nVersion, vRecv.Ahead()).log);
        log := log + [message.value];
      }
    }
    vRecv.Compact();
  }

  ghost function Continued(log: seq<Message>, more: Outcome): Outcome {
    Outcome(log + more.log, more.left)
  }

  // ----- how the bytes are split does not matter -----

  lemma {:induction false} ExamineSplit(cs: Checksum, version: int, t: seq<byte>, w: seq<byte>)
    requires |t| >= HeaderSize(version)
    ensures match Examine(cs, version, t)
            case Wait(left) => left == t
            case Drop(left) => Examine(cs, version, t + w) == Drop(left + w)
            case Dispatch(m, left) => Examine(cs, version, t + w) == Dispatch(m, left + w)
  {
    var n := HeaderSize(version);
    HeaderSplit(version, t, w);
    var h, body := ReadHeader(version, t), t[n..];
    assert (t + w)[n..] == body + w;
    if h.nMessageSize <= |body| {
      assert (body + w)[..h.nMessageSize] == body[..h.nMessageSize];
      assert (body + w)[h.nMessageSize..] == body[h.nMessageSize..] + w;
    }
  }

  lemma {:induction false} HeaderSplit(version: int, t: seq<byte>, w: seq<byte>)
    requires |t| >= HeaderSize(version)
    ensures ReadHeader(version, t + w) == ReadHeader(version, t)
  {
    assert (t + w)[..4] == t[..4] && (t + w)[4..16] == t[4..16] && (t + w)[16..20] == t[16..20];
    if version >= 209 {
      assert (t + w)[20..24] == t[20..24];
    }
  }

  lemma {:induction false} NextSplit(cs: Checksum, version: int, v: seq<byte>, w: seq<byte>)
    ensures match Next(cs, version, v)
            case Wait(left) => Next(cs, version, v + w) == Next(cs, version, left + w)
            case Drop(left) => Next(cs, version, v + w) == Drop(left + w)
            case Dispatch(m, left) => Next(cs, version, v + w) == Dispatch(m, left + w)
  {
    var p, n := Search(v, pchMessageStart), HeaderSize(version);
    if |v| - p < n {
      if |v| > n {
        TrimmedWaits(cs, version, v, w);
      }
    } else {
      SearchFound(v, w, pchMessageStart);
      SearchFinds(v, pchMessageStart);
      DropAppend(v, w, p);
      FoundSplit(cs, version, v[p..], w);
    }
  }

  lemma {:induction false} FoundSplit(cs: Checksum, version: int, t: seq<byte>, w: seq<byte>)
    requires |t| >= HeaderSize(version) && pchMessageStart <= t
    ensures match Examine(cs, version, t)
            case Wait(left) => Examine(cs, version, t + w) == Next(cs, version, left + w)
            case Drop(left) => Examine(cs, version, t + w) == Drop(left + w)
            case Dispatch(m, left) => Examine(cs, version, t + w) == Dispatch(m, left + w)
  {
    ExamineSplit(cs, version, t, w);
    SearchAtStart(t + w, pchMessageStart);
  }

  /** Only the last bytes, as many as a header has, can be part of a message still
      to come. */
  lemma {:induction false} TrimmedWaits(cs: Checksum, version: int, v: seq<byte>, w: seq<byte>)
    requires |v| - Search(v, pchMessageStart) < HeaderSize(version) < |v|
    ensures Next(cs, version, v + w) == Next(cs, version, v[|v| - HeaderSize(version)..] + w)
  {
    var n := HeaderSize(version);
    var k := |v| - n;
    SearchBeyond(v, w, pchMessageStart, k);
    DropAppend(v, w, k);
    NextFound(cs, version, v + w, v[k..] + w, k);
  }

  lemma {:induction false} NextFound(cs: Checksum, version: int, s: seq<byte>, t: seq<byte>, k: nat)
    requires k <= |s| && t == s[k..] && Search(s, pchMessageStart) == k + Search(t, pchMessageStart) && |t| >= HeaderSize(version)
    ensures Next(cs, version, s) == Next(cs, version, t)
  {
    NextFrom(cs, version, s, t, k, Search(t, pchMessageStart));
  }

  lemma {:induction false} NextFrom(cs: Checksum, version: int, s: seq<byte>, t: seq<byte>, k: nat, q: nat)
    requires k <= |s| && t == s[k..] && q <= |t| && |t| >= HeaderSize(version)
    ensures NextAt(cs, version, s, k + q) == NextAt(cs, version, t, q)
  {
    var n := HeaderSize(version);
    if |t| - q < n {
      DropDrop(s, k, |t| - n);
    } else {
      DropDrop(s, k, q);
    }
  }

  /** Processing v and later w after what was left of v dispatches what processing
      them together does, and leaves the same bytes. */
  lemma {:induction false} ProcessSplit(cs: Checksum, version: int, v: seq<byte>, w: seq<byte>)
    ensures var first := Process(cs, version, v);
            Process(cs, version, v + w) == Continued(first.log, Process(cs, version, first.left + w))
    decreases |v|
  {
    NextSplit(cs, version, v, w);
    match Next(cs, version, v)
    case Wait(left) =>
    case Drop(left) => ProcessSplit(cs, version, left, w);
    case Dispatch(m, left) =>
      ProcessSplit(cs, version, left, w);
      var first := Process(cs, version, left);
      var second := Process(cs, version, first.left + w);
      Regroup([m], first.log, second.log);
  }

  /** The calls of ProcessMessages as the bytes come in piece by piece. */
  ghost function Receive(cs: Checksum, version: int, buffered: seq<byte>, chunks: seq<seq<byte>>): Outcome
    decreases |chunks|
  {
    if chunks == [] then Outcome([], buffered) else
    var first := Process(cs, version, buffered + chunks[0]);
    Continued(first.log, Receive(cs, version, first.left, chunks[1..]))
  }

  function Concat(chunks: seq<seq<byte>>): seq<byte> {
    if chunks == [] then [] else chunks[0] + Concat(chunks[1..])
  }

  lemma {:induction false} ReceiveIsProcess(cs: Checksum, version: int, buffered: seq<byte>, chunks: seq<seq<byte>>)
    requires chunks != []
    ensures Receive(cs, version, buffered, chunks) == Process(cs, version, buffered + Concat(chunks))
    decreases |chunks|
  {
    var c, more := chunks[0], chunks[1..];
    var first := Process(cs, version, buffered + c);
    if more == [] {
      assert Concat(chunks) == c;
      assert first.log + [] == first.log;
    } else {
      ReceiveIsProcess(cs, version, first.left, more);
      ProcessSplit(cs, version, buffered + c, Concat(more));
      Regroup(buffered, c, Concat(more));
    }
  }

  /** The messages dispatched and the bytes kept depend only on the bytes received,
      not on how they were split. */
  lemma {:induction false} ChunkingIrrelevant(cs: Checksum, version: int, a: seq<seq<byte>>, b: seq<seq<byte>>)
    requires a != [] && b != [] && Concat(a) == Concat(b)
    ensures Receive(cs, version, [], a) == Receive(cs, version, [], b)
  {
    ReceiveIsProcess(cs, version, [], a);
    ReceiveIsProcess(cs, version, [], b);
  }

  // ----- sending -----

  function Padded(command: seq<byte>): (r: seq<byte>)
    requires |command| <= COMMAND_SIZE
    ensures |r| == COMMAND_SIZE
  {
    command + seq(COMMAND_SIZE - |command|, _ => 0)
  }

  function Header(version: int, command: seq<byte>, size: nat, checksum: nat): (r: seq<byte>)
    requires |command| <= COMMAND_SIZE
    ensures |r| == HeaderSize(version)
  {
    pchMessageStart + Padded(command) + LE(size, 4) + if version >= 209 then LE(checksum, 4) else []
  }

  /** A message as it goes over the wire. */
  function Frame(cs: Checksum, version: int, m: Message): seq<byte>
    requires |m.command| <= COMMAND_SIZE
  {
    Header(version, m.command, |m.data|, if version >= 209 then cs(m.data) else 0) + m.data
  }

  /** s with b over the bytes at position at. */
  function Patched(s: seq<byte>, at: nat, b: seq<byte>): seq<byte>
    requires at + |b| <= |s|
  {
    s[..at] + b + s[at + |b|..]
  }

  predicate Printable(command: seq<byte>) {
    |command| <= COMMAND_SIZE && forall k :: 0 <= k < |command| ==> 0x20 <= command[k] <= 0x7e
  }

  /** BeginMessage, the data, and EndMessage: the header goes out first with empty
      size and checksum. */
  method PushMessage(cs: Checksum, vSend: CDataStream, m: Message)
    requires vSend.Valid() && |m.command| <= COMMAND_SIZE && |m.data| <= 0xffff_ffff
    modifies vSend
    ensures vSend.Valid() && vSend.Ahead() == old(vSend.Ahead()) + Frame(cs, vSend.nVersion, m)
  {
    var nHeaderStart, header := |vSend.vch|, Header(vSend.nVersion, m.command, 0, 0);
    ghost var vch0 := vSend.vch;
    vSend.Write(header);
    var nMessageStart := |vSend.vch|;
    vSend.Write(m.data);
    Regroup(vch0, header, m.data);
    EndMessage(cs, vSend, nHeaderStart, nMessageStart, vch0, m);
    DropAppend(vch0, Frame(cs, vSend.nVersion, m), vSend.nReadPos);
  }

  /** Fills in the size and, for peers that send one, the checksum. */
  method EndMessage(cs: Checksum, vSend: CDataStream, nHeaderStart: nat, nMessageStart: nat, ghost before: seq<byte>, ghost m: Message)
    requires |m.command| <= COMMAND_SIZE && nHeaderStart == |before| && nMessageStart == |before| + HeaderSize(vSend.nVersion)
    requires vSend.vch == before + (Header(vSend.nVersion, m.command, 0, 0) + m.data)
    modifies vSend`vch
    ensures vSend.vch == before + Frame(cs, vSend.nVersion, m)
  {
    var nSize, data := |vSend.vch| - nMessageStart, vSend.vch[nMessageStart..];
    assert data == m.data;
    PatchSize(before, vSend.nVersion, m.command, nSize, data);
    vSend.vch := Patched(vSend.vch, nHeaderStart + 16, LE(nSize, 4));
    if vSend.nVersion >= 209 {
      PatchChecksum(before, vSend.nVersion, m.command, nSize, cs(data), data);
      vSend.vch := Patched(vSend.vch, nHeaderStart + 20, LE(cs(data), 4));
    }
  }

  lemma {:induction false} PatchMiddle(a: seq<byte>, b: seq<byte>, c: seq<byte>, d: seq<byte>)
    requires |b| == |d|
    ensures |a| + |d| <= |a + (b + c)| && Patched(a + (b + c), |a|, d) == a + (d + c)
  {
  }

  lemma {:induction false} RegroupParts(a: seq<byte>, b: seq<byte>, c: seq<byte>, d: seq<byte>, e: seq<byte>)
    ensures a + (b + c + d + e) == (a + b) + (c + (d + e))
  {
  }

  lemma {:induction false} PatchSize(sent: seq<byte>, version: int, command: seq<byte>, n: nat, data: seq<byte>)
    requires |command| <= COMMAND_SIZE
    ensures Patched(sent + (Header(version, command, 0, 0) + data), |sent| + 16, LE(n, 4))
         == sent + (Header(version, command, n, 0) + data)
  {
    var front, sum := pchMessageStart + Padded(command), if version >= 209 then LE(0, 4) else [];
    PatchMiddle(sent + front, LE(0, 4), sum + data, LE(n, 4));
    RegroupParts(sent, front, LE(0, 4), sum, data);
    RegroupParts(sent, front, LE(n, 4), sum, data);
  }

  lemma {:induction false} PatchChecksum(sent: seq<byte>, version: int, command: seq<byte>, n: nat, checksum: nat, data: seq<byte>)
    requires |command| <= COMMAND_SIZE && version >= 209
    ensures Patched(sent + (Header(version, command, n, 0) + data), |sent| + 20, LE(checksum, 4))
         == sent + (Header(version, command, n, checksum) + data)
  {
    var a := sent + (pchMessageStart + Padded(command) + LE(n, 4));
    PatchMiddle(a, LE(0, 4), data, LE(checksum, 4));
    assert sent + (Header(version, command, n, 0) + data) == a + (LE(0, 4) + data);
    assert sent + (Header(version, command, n, checksum) + data) == a + (LE(checksum, 4) + data);
  }

  lemma {:induction false} StrLenPadded(command: seq<byte>)
    requires Printable(command)
    ensures Command(Padded(command)) == command && ValidCommand(Padded(command))
  {
    var p := Padded(command);
    StrLenStops(p, |command|);
    assert IsName(p, |command|);
  }

  lemma {:induction false} StrLenStops(s: seq<byte>, n: nat)
    requires n <= |s| && (forall k :: 0 <= k < n ==> s[k] != 0) && (n < |s| ==> s[n] == 0)
    ensures StrLen(s) == n
  {
    if n > 0 {
      StrLenStops(s[1..], n - 1);
    }
  }

  /** What a peer sends with PushMessage is dispatched as it was sent, exactly if it
      is within the size limit; otherwise its header is dropped. */
  lemma {:induction false} SentIsDispatched(cs: Checksum, version: int, m: Message, rest: seq<byte>)
    requires Printable(m.command) && |m.data| <= 0xffff_ffff
    ensures Next(cs, version, Frame(cs, version, m) + rest)
         == if |m.data| <= Serialize.MAX_SIZE then Dispatch(m, rest) else Drop(m.data + rest)
  {
    var n, checksum := HeaderSize(version), if version >= 209 then cs(m.data) else 0;
    var header, tail := Header(version, m.command, |m.data|, checksum), m.data + rest;
    var s := header + tail;
    Regroup(header, m.data, rest);
    SplitFront(header, tail);
    SplitFront(m.data, rest);
    SearchAtStart(s, pchMessageStart);
    StrLenPadded(m.command);
    HeaderSplit(version, header, tail);
    HeaderReads(version, m.command, |m.data|, checksum);
  }

  /** Data of the same length in place of the data sent is dispatched exactly if it has the
      same checksum; otherwise the header is dropped. */
  lemma {:induction false} AlteredIsDispatched(cs: Checksum, version: int, m: Message, d: seq<byte>, rest: seq<byte>)
    requires version >= 209 && Printable(m.command) && |d| == |m.data| <= Serialize.MAX_SIZE
    ensures Frame(cs, version, m)[..24] == Header(version, m.command, |d|, cs(m.data))
    ensures Next(cs, version, Frame(cs, version, m)[..24] + (d + rest))
         == if cs(d) == cs(m.data) then Dispatch(Message(m.command, d), rest) else Drop(d + rest)
  {
    var header, tail := Header(version, m.command, |m.data|, cs(m.data)), d + rest;
    SplitFront(header, m.data);
    SplitFront(header, tail);
    SplitFront(d, rest);
    SearchAtStart(header + tail, pchMessageStart);
    StrLenPadded(m.command);
    HeaderSplit(version, header, tail);
    HeaderReads(version, m.command, |m.data|, cs(m.data));
  }

  /** What the bytes say of a message that is dispatched. */
  ghost predicate FoundAt(cs: Checksum, version: int, s: seq<byte>, p: nat, m: Message, left: seq<byte>) {
    var n := HeaderSize(version);
    && p + n + |m.data| <= |s| && s[p..p + 4] == pchMessageStart
    && m.command == Command(s[p + 4..p + 16]) && ValidCommand(s[p + 4..p + 16])
    && FromLE(s[p + 16..p + 20]) == |m.data| <= Serialize.MAX_SIZE
    && (version >= 209 ==> FromLE(s[p + 20..p + 24]) == cs(m.data))
    && m.data == s[p + n..p + n + |m.data|] && left == s[p + n + |m.data|..]
  }

  /** Only a message is dispatched that is all there, with its own length and, from version
      209 on, its own checksum, and it is the first that starts. */
  lemma {:induction false} DispatchedIsFound(cs: Checksum, version: int, s: seq<byte>)
    requires Next(cs, version, s).Dispatch?
    ensures FoundAt(cs, version, s, Search(s, pchMessageStart), Next(cs, version, s).message, Next(cs, version, s).left)
  {
    var p, m, left := Search(s, pchMessageStart), Next(cs, version, s).message, Next(cs, version, s).left;
    ExaminedIsFound(cs, version, s[p..], m, left);
    FoundFurtherOn(cs, version, s, p, m, left);
  }

  lemma {:induction false} ExaminedIsFound(cs: Checksum, version: int, t: seq<byte>, m: Message, left: seq<byte>)
    requires |t| >= HeaderSize(version) && Examine(cs, version, t) == Dispatch(m, left)
    ensures FoundAt(cs, version, t, 0, m, left)
  {
    assert t[0..4] == t[..4];
    BodyAt(t, 0, HeaderSize(version), |m.data|);
    assert t[0..] == t;
  }

  lemma {:induction false} FoundFurtherOn(cs: Checksum, version: int, s: seq<byte>, p: nat, m: Message, left: seq<byte>)
    requires p <= |s| && FoundAt(cs, version, s[p..], 0, m, left)
    ensures FoundAt(cs, version, s, p, m, left)
  {
    var n, k := HeaderSize(version), |m.data|;
    Window(s, p, 0, 4);
    Window(s, p, 4, 16);
    Window(s, p, 16, 20);
    Window(s, p, n - 4, n);
    Window(s, p, n, n + k);
    DropDrop(s, p, n + k);
  }

  lemma {:induction false} Window(s: seq<byte>, p: nat, i: nat, j: nat)
    requires p <= |s| && i <= j <= |s[p..]|
    ensures s[p..][i..j] == s[p + i..p + j]
  {
  }

  lemma {:induction false} BodyAt(s: seq<byte>, p: nat, n: nat, k: nat)
    requires p + n <= |s| && k <= |s[p..][n..]|
    ensures s[p..][n..][..k] == s[p + n..p + n + k] && s[p..][n..][k..] == s[p + n + k..]
  {
    DropDrop(s, p, n);
    DropDrop(s, p + n, k);
  }

  lemma {:induction false} HeaderReads(version: int, command: seq<byte>, size: uint32, checksum: uint32)
    requires |command| <= COMMAND_SIZE && (version < 209 ==> checksum == 0)
    ensures ReadHeader(version, Header(version, command, size, checksum))
         == CMessageHeader(pchMessageStart, Padded(command), size, checksum)
  {
    var h := Header(version, command, size, checksum);
    Pow256Values();
    FromLEOfLE(size, 4);
    FromLEOfLE(checksum, 4);
    assert h[..4] == pchMessageStart && h[4..16] == Padded(command) && h[16..20] == LE(size, 4);
    if version >= 209 {
      assert h[20..24] == LE(checksum, 4);
    }
  }

  function FrameAll(cs: Checksum, version: int, ms: seq<Message>): seq<byte>
    requires forall k :: 0 <= k < |ms| ==> Printable(ms[k].command)
  {
    if ms == [] then [] else assert Printable(ms[0].command); Frame(cs, version, ms[0]) + FrameAll(cs, version, ms[1..])
  }

  /** A stream of messages sent is the stream of messages dispatched, in however many
      pieces it arrives. */
  lemma {:induction false} StreamRoundTrip(cs: Checksum, version: int, ms: seq<Message>)
    requires forall k :: 0 <= k < |ms| ==> Printable(ms[k].command) && |ms[k].data| <= Serialize.MAX_SIZE
    ensures Process(cs, version, FrameAll(cs, version, ms)) == Outcome(ms, [])
  {
    if ms != [] {
      SentIsDispatched(cs, version, ms[0], FrameAll(cs, version, ms[1..]));
      StreamRoundTrip(cs, version, ms[1..]);
      assert [ms[0]] + ms[1..] == ms;
    }
  }

  /** Garbage in front is skipped, provided no message start lies in it or overlaps
      its end. */
  lemma {:induction false} Resynchronises(cs: Checksum, version: int, garbage: seq<byte>, m: Message, rest: seq<byte>)
    requires Printable(m.command) && Search(garbage + pchMessageStart, pchMessageStart) == |garbage|
    ensures var s := Frame(cs, version, m) + rest;
            Next(cs, version, garbage + s) == Next(cs, version, s)
  {
    var s := Frame(cs, version, m) + rest;
    SearchFound(garbage + pchMessageStart, s[4..], pchMessageStart);
    StartsWithMagic(s);
    Regroup(garbage, pchMessageStart, s[4..]);
    SplitFront(garbage, s);
    SearchAtStart(s, pchMessageStart);
  }

  lemma {:induction false} StartsWithMagic(s: seq<byte>)
    requires pchMessageStart <= s
    ensures pchMessageStart + s[4..] == s
  {
  }
}
