/** Cutting a byte stream into frames, in one pass over the whole stream and read by read. */
module Framing {
  import opened Words
  import opened Cipher
  import opened KeySchedule
  import opened Headers
  import opened Codec

  /** Which of the two read loops a session runs. */
  datatype Protocol = Packets(encrypted: bool) | Ipc

  const IPC_HEADER := 8

  /** What the loop does at the front of its buffer. */
  datatype Cut = Wait | Bad | Take(n: nat)

  ghost function CutFront(p: Protocol, b: Bytes): (c: Cut)
    ensures c.Take? ==> 8 <= c.n <= |b|
  {
    match p
    case Packets(encrypted) =>
      if |b| <= TCP_HEADER_SIZE then Wait
      else
        var size := FrameSize(encrypted, b[..TCP_HEADER_SIZE]);
        if size >= 2047 || size < MIN_SIZE then Bad else if |b| < size then Wait else Take(size)
    case Ipc =>
      if |b| <= IPC_HEADER then Wait
      else
        var n := LeNat(b[4..8]);
        if |b| < IPC_HEADER + n then Wait else Take(IPC_HEADER + n)
  }

  /** The frames of a stream, what is left of it, and whether a bad header stopped the cutting. */
  datatype Scan = Scan(frames: seq<Bytes>, rest: Bytes, bad: bool)

  ghost function ScanAll(p: Protocol, b: Bytes): Scan
    decreases |b|
  {
    match CutFront(p, b)
    case Wait => Scan([], b, false)
    case Bad => Scan([], b, true)
    case Take(n) => var s := ScanAll(p, b[n..]); Scan([b[..n]] + s.frames, s.rest, s.bad)
  }

  function Flatten(parts: seq<Bytes>): Bytes {
    if |parts| == 0 then [] else parts[0] + Flatten(parts[1..])
  }

  /** Once the front is decided, later bytes do not change the decision. */
  lemma CutIsStable(p: Protocol, b: Bytes, more: Bytes)
    ensures CutFront(p, b) != Wait ==> CutFront(p, b + more) == CutFront(p, b)
  {
    hide LeNat, FrameSize;
    if |b| > 4 {
      assert (b + more)[..4] == b[..4];
    }
    if |b| > 8 {
      assert (b + more)[4..8] == b[4..8];
    }
  }

  /** Cutting a stream in one go, or what is left of a first part together with the second. */
  lemma {:induction false} ScanAppend(p: Protocol, b: Bytes, more: Bytes)
    ensures var s := ScanAll(p, b);
      ScanAll(p, b + more) ==
        if s.bad then Scan(s.frames, s.rest + more, true)
        else var t := ScanAll(p, s.rest + more); Scan(s.frames + t.frames, t.rest, t.bad)
    decreases |b|
  {
    hide CutFront;
    CutIsStable(p, b, more);
    var c := CutFront(p, b);
    if c.Take? {
      ScanAppend(p, b[c.n..], more);
      assert (b + more)[..c.n] == b[..c.n] && (b + more)[c.n..] == b[c.n..] + more;
      var s, u := ScanAll(p, b[c.n..]), ScanAll(p, b[c.n..] + more);
      assert ScanAll(p, b) == Scan([b[..c.n]] + s.frames, s.rest, s.bad);
      assert ScanAll(p, b + more) == Scan([b[..c.n]] + u.frames, u.rest, u.bad);
      if !s.bad {
        var t := ScanAll(p, s.rest + more);
        assert [b[..c.n]] + (s.frames + t.frames) == [b[..c.n]] + s.frames + t.frames;
      }
    }
  }

  /** No byte is lost or invented: frames and rest make up the stream. */
  lemma {:induction false} ScanKeepsBytes(p: Protocol, b: Bytes)
    ensures Flatten(ScanAll(p, b).frames) + ScanAll(p, b).rest == b
    decreases |b|
  {
    hide CutFront;
    var c := CutFront(p, b);
    if c.Take? {
      var s := ScanAll(p, b[c.n..]);
      ScanKeepsBytes(p, b[c.n..]);
      assert ([b[..c.n]] + s.frames)[1..] == s.frames;
      assert b == b[..c.n] + (Flatten(s.frames) + s.rest);
    }
  }

  // ------------------------------------------------------------ read by read

  /** A session's receiving side: the undelivered bytes, the frames handed to the
      callback, and whether the socket is still open. */
  datatype Reader = Reader(buffer: Bytes, delivered: seq<Bytes>, open: bool)

  /** One completed read. A bad header closes the session and leaves the buffer as it is. */
  ghost function Feed(p: Protocol, r: Reader, chunk: Bytes): Reader {
    if !r.open then r
    else
      var s := ScanAll(p, r.buffer + chunk);
      Reader(if s.bad then r.buffer + chunk else s.rest, r.delivered + s.frames, !s.bad)
  }

  ghost function FeedAll(p: Protocol, r: Reader, chunks: seq<Bytes>): Reader
    decreases |chunks|
  {
    if |chunks| == 0 then r else FeedAll(p, Feed(p, r, chunks[0]), chunks[1..])
  }

  lemma {:induction false} ClosedIgnores(p: Protocol, r: Reader, chunks: seq<Bytes>)
    requires !r.open
    ensures FeedAll(p, r, chunks) == r
    decreases |chunks|
  {
    if |chunks| > 0 {
      ClosedIgnores(p, r, chunks[1..]);
    }
  }

  lemma {:induction false} ChunkingFrom(p: Protocol, r: Reader, chunks: seq<Bytes>)
    requires r.open && ScanAll(p, r.buffer) == Scan([], r.buffer, false)
    ensures var s, f := ScanAll(p, r.buffer + Flatten(chunks)), FeedAll(p, r, chunks);
      f.delivered == r.delivered + s.frames && f.open == !s.bad && (f.open ==> f.buffer == s.rest)
    decreases |chunks|
  {
    hide ScanAll;
    if |chunks| == 0 {
      assert r.buffer + Flatten(chunks) == r.buffer;
    } else {
      var b := r.buffer + chunks[0];
      var s := ScanAll(p, b);
      var later := Flatten(chunks[1..]);
      assert r.buffer + Flatten(chunks) == b + later;
      ScanAppend(p, b, later);
      var next := Feed(p, r, chunks[0]);
      if s.bad {
        ClosedIgnores(p, next, chunks[1..]);
      } else {
        RestWaits(p, b);
        ChunkingFrom(p, next, chunks[1..]);
      }
    }
  }

  /** What a pass leaves over holds no complete frame. */
  lemma {:induction false} RestWaits(p: Protocol, b: Bytes)
    requires !ScanAll(p, b).bad
    ensures var rest := ScanAll(p, b).rest; ScanAll(p, rest) == Scan([], rest, false)
    decreases |b|
  {
    hide CutFront;
    var c := CutFront(p, b);
    if c.Take? {
      RestWaits(p, b[c.n..]);
    }
  }

  /** However a stream is split into reads, a session delivers the frames of one pass
      over the whole stream, and closes exactly if that pass meets a bad header. */
  lemma Chunking(p: Protocol, chunks: seq<Bytes>)
    ensures var s, f := ScanAll(p, Flatten(chunks)), FeedAll(p, Reader([], [], true), chunks);
      f.delivered == s.frames && f.open == !s.bad && (f.open ==> f.buffer == s.rest)
  {
    ChunkingFrom(p, Reader([], [], true), chunks);
    assert [] + Flatten(chunks) == Flatten(chunks);
  }

  /** Two splits of one stream cannot be told apart. */
  lemma SplitsAgree(p: Protocol, chunks1: seq<Bytes>, chunks2: seq<Bytes>)
    requires Flatten(chunks1) == Flatten(chunks2)
    ensures var f1, f2 := FeedAll(p, Reader([], [], true), chunks1), FeedAll(p, Reader([], [], true), chunks2);
      f1.delivered == f2.delivered && f1.open == f2.open && (f1.open ==> f1.buffer == f2.buffer)
  {
    Chunking(p, chunks1);
    Chunking(p, chunks2);
  }

  /** The read loop on any stream, by its first header, and then on what follows the first packet: four
      bytes or less wait; a size below eight or from 2047 on closes the session and delivers nothing
      more; a packet that is not all there waits; one that is there is delivered. */
  lemma ReadLoop(encrypted: bool, chunks: seq<Bytes>)
    ensures var b := Flatten(chunks); var r := FeedAll(Packets(encrypted), Reader([], [], true), chunks);
      if |b| <= 4 then r == Reader(b, [], true)
      else
        var size := ReadTcp(if encrypted then Decrypted(Rc5, 0, b[..4]) else b[..4]).size;
        if size < 8 || size >= 2047 then !r.open && r.delivered == []
        else if |b| < size then r == Reader(b, [], true)
        else
          var next := FeedAll(Packets(encrypted), Reader([], [], true), [b[size..]]);
          r.delivered == [b[..size]] + next.delivered && r.open == next.open && (r.open ==> r.buffer == next.buffer)
  {
    hide ReadTcp, Decrypted, FeedAll, Feed;
    var p, b := Packets(encrypted), Flatten(chunks);
    Chunking(p, chunks);
    if |b| > 4 {
      SizeInClear(encrypted, b[..4]);
      var size := FrameSize(encrypted, b[..4]);
      if 8 <= size < 2047 && |b| >= size {
        Chunking(p, [b[size..]]);
        assert Flatten([b[size..]]) == b[size..];
      }
    }
  }

  lemma SizeInClear(encrypted: bool, header: Bytes)
    requires |header| == TCP_HEADER_SIZE
    ensures FrameSize(encrypted, header) == ReadTcp(if encrypted then Decrypted(Rc5, 0, header) else header).size
  {
    hide ReadTcp, Decrypted;
    assert !Negative(0) && Negative(0xFFFF_FFFF);
  }

  /** And the IPC loop, which never closes: eight bytes or less wait, and so does a message that is not all
      there; the length is in the second four bytes. */
  lemma ReadLoopIpc(chunks: seq<Bytes>)
    ensures var b := Flatten(chunks); var r := FeedAll(Ipc, Reader([], [], true), chunks);
      r.open &&
      if |b| <= 8 || |b| < 8 + LeNat(b[4..8]) then r == Reader(b, [], true)
      else
        var n := 8 + LeNat(b[4..8]);
        var next := FeedAll(Ipc, Reader([], [], true), [b[n..]]);
        r.delivered == [b[..n]] + next.delivered && r.buffer == next.buffer
  {
    hide LeNat, FeedAll, Feed;
    var b := Flatten(chunks);
    Chunking(Ipc, chunks);
    IpcNeverBad(b);
    if |b| > 8 && |b| >= 8 + LeNat(b[4..8]) {
      var rest := b[8 + LeNat(b[4..8])..];
      Chunking(Ipc, [rest]);
      assert Flatten([rest]) == rest;
    }
  }

  lemma {:induction false} IpcNeverBad(b: Bytes)
    ensures !ScanAll(Ipc, b).bad
    decreases |b|
  {
    hide LeNat;
    var c := CutFront(Ipc, b);
    if c.Take? {
      IpcNeverBad(b[c.n..]);
    }
  }

  // -------------------------------------------------- generated packets in a stream

  ghost function Wires(ms: seq<Message>, key: bv32, how: EncryptMethod): seq<Bytes> {
    if |ms| == 0 then [] else [UnmixedWire(ms[0], key, how)] + Wires(ms[1..], key, how)
  }

  /** The packets the read loop lets through: it rejects a size of 2047. */
  predicate Sendable(m: Message, key: bv32, how: EncryptMethod) {
    Codec.Fits(m) && MIN_SIZE + |m.payload| < 2047 && ChooseCrypt(m, key, how) <= 4
  }

  /** The read loop reads a header as `ProcessMessage` does. */
  lemma SameHeader(key: bv32, header: Bytes)
    requires |header| == TCP_HEADER_SIZE
    ensures FrameSize(!Negative(key), header) == ReadTcp(OpenHeader(key, header)).size
  {
    hide ReadTcp;
    assert !Negative(0) && Negative(0xFFFF_FFFF);
  }

  lemma SizeOfWire(m: Message, key: bv32, how: EncryptMethod)
    requires Sendable(m, key, how)
    ensures FrameSize(!Negative(key), UnmixedWire(m, key, how)[..TCP_HEADER_SIZE]) == MIN_SIZE + |m.payload|
  {
    hide FrameSize, ReadTcp, OpenHeader, UnmixedWire, ChooseCrypt;
    SameHeader(key, UnmixedWire(m, key, how)[..TCP_HEADER_SIZE]);
    UnmixedHeader(m, key, how);
  }

  /** The read loop of a session, encrypted or not, cuts such a packet off whole. */
  lemma CutOfWire(m: Message, key: bv32, how: EncryptMethod, more: Bytes)
    requires Sendable(m, key, how)
    ensures var w := UnmixedWire(m, key, how); CutFront(Packets(!Negative(key)), w + more) == Take(|w|)
  {
    hide FrameSize, UnmixedWire, ChooseCrypt, Negative;
    var w := UnmixedWire(m, key, how);
    SizeOfWire(m, key, how);
    assert (w + more)[..TCP_HEADER_SIZE] == w[..TCP_HEADER_SIZE];
  }

  lemma {:induction false} ScanOfWires(ms: seq<Message>, key: bv32, how: EncryptMethod)
    requires forall m :: m in ms ==> Sendable(m, key, how)
    ensures ScanAll(Packets(!Negative(key)), Flatten(Wires(ms, key, how))) == Scan(Wires(ms, key, how), [], false)
  {
    hide UnmixedWire, CutFront, Sendable;
    if |ms| > 0 {
      var w, later := UnmixedWire(ms[0], key, how), Wires(ms[1..], key, how);
      assert Wires(ms, key, how)[1..] == later;
      CutOfWire(ms[0], key, how, Flatten(later));
      var b := w + Flatten(later);
      assert b[..|w|] == w && b[|w|..] == Flatten(later);
      ScanOfWires(ms[1..], key, how);
    } else {
      NothingScanned(Packets(!Negative(key)));
    }
  }

  lemma {:induction false} WiresAt(ms: seq<Message>, key: bv32, how: EncryptMethod, i: nat)
    requires i < |ms|
    ensures |Wires(ms, key, how)| == |ms| && Wires(ms, key, how)[i] == UnmixedWire(ms[i], key, how)
  {
    hide UnmixedWire;
    if |ms| > 1 {
      WiresAt(ms[1..], key, how, if i == 0 then 0 else i - 1);
    }
  }

  lemma WiresProcess(ms: seq<Message>, key: bv32, how: EncryptMethod)
    requires forall m :: m in ms ==> Sendable(m, key, how)
    ensures |Wires(ms, key, how)| == |ms|
    ensures forall i :: 0 <= i < |ms| ==> Process(Wires(ms, key, how)[i], key) == Parsed(Codec.Delivered(ms[i], key, how))
  {
    hide Process, UnmixedWire, Codec.Delivered, Wires;
    if |ms| == 0 {
      assert ms == [];
      NoWires(key, how);
    } else {
      WiresAt(ms, key, how, 0);
    }
    forall i | 0 <= i < |ms|
      ensures Process(Wires(ms, key, how)[i], key) == Parsed(Codec.Delivered(ms[i], key, how))
    {
      WiresAt(ms, key, how, i);
      assert ms[i] in ms;
      UnmixedRecovery(ms[i], key, how);
    }
  }

  lemma NoWires(key: bv32, how: EncryptMethod)
    ensures Wires([], key, how) == []
  {
  }

  /** End to end, on sessions with and without encryption: packets whose headers are not mixed, sent
      back to back and received in any chunks, come out of `ProcessMessage` as they went in, in
      order. Without encryption these are the packets `GenerateMessage` builds. */
  lemma StreamOfPackets(ms: seq<Message>, key: bv32, how: EncryptMethod, chunks: seq<Bytes>)
    requires forall m :: m in ms ==> Sendable(m, key, how)
    requires Flatten(chunks) == Flatten(Wires(ms, key, how))
    ensures var f := FeedAll(Packets(!Negative(key)), Reader([], [], true), chunks);
      f.open && f.buffer == [] && |f.delivered| == |ms| &&
      forall i :: 0 <= i < |ms| ==> Process(f.delivered[i], key) == Parsed(Codec.Delivered(ms[i], key, how))
  {
    hide Process, Wires, Codec.Delivered, ScanAll, FeedAll, Flatten;
    Chunking(Packets(!Negative(key)), chunks);
    ScanOfWires(ms, key, how);
    WiresProcess(ms, key, how);
  }

  // ------------------------------------------------------------- IPC frames

  datatype IpcMessage = IpcMessage(id: nat, payload: Bytes)

  /** The bytes `SendIpc` queues; both header words are 32 bits wide. */
  function IpcBytes(m: IpcMessage): (b: Bytes)
    ensures |b| == IPC_HEADER + |m.payload|
  {
    NatBytes(m.id, 4) + NatBytes(|m.payload|, 4) + m.payload
  }

  /** What the callback gets for a frame. */
  function ReadIpc(frame: Bytes): IpcMessage
    requires |frame| >= IPC_HEADER
  {
    IpcMessage(LeNat(frame[..4]), frame[8..])
  }

  function IpcFrames(ms: seq<IpcMessage>): seq<Bytes> {
    if |ms| == 0 then [] else [IpcBytes(ms[0])] + IpcFrames(ms[1..])
  }

  lemma ReadIpcOfIpcBytes(m: IpcMessage)
    requires m.id < 0x1_0000_0000
    ensures ReadIpc(IpcBytes(m)) == m
  {
    hide NatBytes, LeNat;
    Pow256Of4();
    LeNatOfNatBytes(m.id, 4);
    var b := IpcBytes(m);
    assert b[..4] == NatBytes(m.id, 4) && b[8..] == m.payload;
  }

  /** With at least one byte behind it a frame is cut off whole exactly when its
      payload length fits its 32-bit word. */
  lemma IpcFrameExact(m: IpcMessage, more: Bytes)
    requires |m.payload| + |more| > 0
    ensures CutFront(Ipc, IpcBytes(m) + more) == Take(|IpcBytes(m)|) <==> |m.payload| < 0x1_0000_0000
  {
    hide NatBytes, LeNat;
    var b := IpcBytes(m) + more;
    assert b[4..8] == NatBytes(|m.payload|, 4);
    Pow256Of4();
    LeNatOfCutBytes(|m.payload|, 4);
  }

  /** A frame with an empty payload is held back until one more byte arrives. */
  lemma IpcEmptyFrameWaits(m: IpcMessage)
    requires |m.payload| == 0
    ensures ScanAll(Ipc, IpcBytes(m)) == Scan([], IpcBytes(m), false)
  {
    hide NatBytes;
  }

  lemma NothingScanned(p: Protocol)
    ensures ScanAll(p, []) == Scan([], [], false)
  {
  }

  /** Frames written back to back are all cut off again, but a last one without payload waits. */
  lemma {:induction false} ScanOfIpcFrames(ms: seq<IpcMessage>)
    requires forall m :: m in ms ==> |m.payload| < 0x1_0000_0000
    ensures var n := if |ms| > 0 && |ms[|ms| - 1].payload| == 0 then |ms| - 1 else |ms|;
      ScanAll(Ipc, Flatten(IpcFrames(ms))) == Scan(IpcFrames(ms[..n]), Flatten(IpcFrames(ms[n..])), false)
  {
    hide IpcBytes, ScanAll;
    if |ms| == 0 {
      NothingScanned(Ipc);
      assert ms[..0] == ms[0..] == [];
    } else if |ms| == 1 && |ms[0].payload| == 0 {
      IpcEmptyFrameWaits(ms[0]);
      assert ms[..0] == [] && ms[0..] == ms;
      assert IpcFrames(ms[1..]) == [] && Flatten(IpcFrames(ms)) == IpcBytes(ms[0]);
    } else {
      IpcStep(ms);
      ScanOfIpcFrames(ms[1..]);
      var n := if |ms[|ms| - 1].payload| == 0 then |ms| - 1 else |ms|;
      assert ms[..n][1..] == ms[1..][..n - 1] && ms[n..] == ms[1..][n - 1..];
    }
  }

  /** The first frame is cut off whole when something follows it or it has a payload. */
  lemma IpcStep(ms: seq<IpcMessage>)
    requires |ms| > 0 && |ms[0].payload| < 0x1_0000_0000 && (|ms| > 1 || |ms[0].payload| > 0)
    ensures var s := ScanAll(Ipc, Flatten(IpcFrames(ms[1..])));
      ScanAll(Ipc, Flatten(IpcFrames(ms))) == Scan([IpcBytes(ms[0])] + s.frames, s.rest, s.bad)
  {
    hide IpcBytes;
    var w, more := IpcBytes(ms[0]), Flatten(IpcFrames(ms[1..]));
    assert IpcFrames(ms) == [w] + IpcFrames(ms[1..]);
    assert IpcFrames(ms)[1..] == IpcFrames(ms[1..]);
    if |ms| > 1 {
      assert |more| >= |IpcBytes(ms[1])|;
    }
    IpcFrameExact(ms[0], more);
    assert (w + more)[..|w|] == w && (w + more)[|w|..] == more;
  }
}
