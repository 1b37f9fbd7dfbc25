/** The completion handlers of a session's reads, over its growing buffer. */
module Receiving {
  import opened Words
  import opened Cipher
  import opened KeySchedule
  import opened CipherMachine
  import opened Headers
  import opened Codec
  import opened Framing

  /** `frames` are cut off already and `b` is still to be scanned. */
  ghost predicate Progress(p: Protocol, all: Scan, frames: seq<Bytes>, b: Bytes) {
    var s := ScanAll(p, b);
    all == Scan(frames + s.frames, s.rest, s.bad)
  }

  lemma Begin(p: Protocol, b: Bytes)
    ensures Progress(p, ScanAll(p, b), [], b)
  {
    hide ScanAll;
  }

  lemma Advance(p: Protocol, all: Scan, frames: seq<Bytes>, b: Bytes, n: nat)
    requires Progress(p, all, frames, b) && CutFront(p, b) == Take(n)
    ensures Progress(p, all, frames + [b[..n]], b[n..])
  {
    hide CutFront;
  }

  lemma End(p: Protocol, all: Scan, frames: seq<Bytes>, b: Bytes)
    requires Progress(p, all, frames, b) && !CutFront(p, b).Take?
    ensures all == Scan(frames, b, CutFront(p, b).Bad?)
  {
    hide CutFront;
  }

  class Receiver {
    const tables: Tables
    const protocol: Protocol
    var reader: Bytes
    var open: bool
    ghost var delivered: seq<Bytes>

    ghost function View(): Reader
      reads this
    {
      Reader(reader, delivered, open)
    }

    constructor (tables: Tables, protocol: Protocol)
      ensures this.tables == tables && this.protocol == protocol && View() == Reader([], [], true)
    {
      this.tables := tables;
      this.protocol := protocol;
      reader, open, delivered := [], true, [];
    }

    /** The size field of a header, decrypted first if the session is encrypted. */
    method HeaderSize(header: Bytes) returns (size: nat)
      requires tables.Valid() && |header| == TCP_HEADER_SIZE && protocol.Packets?
      modifies tables, tables.us5, tables.ui5, tables.ui6
      ensures tables.Valid() && size == FrameSize(protocol.encrypted, header)
    {
      hide ReadTcp, Decrypted, Splice;
      assert !Negative(0) && Negative(0xFFFF_FFFF);
      var h := new bv8[TCP_HEADER_SIZE](i requires 0 <= i < TCP_HEADER_SIZE => header[i]);
      assert h[..] == header && h[0..TCP_HEADER_SIZE] == header;
      if protocol.encrypted {
        var cipher := new Crypt(tables, 1, 0);
        var ok := cipher.Decrypt(h, 0, h, 0, TCP_HEADER_SIZE);
        WholeSplice(header, Decrypted(Rc5, 0, header));
      }
      size := ReadTcp(h[..]).size;
    }

    /** `DoRead`: cut whole packets off the buffer and hand them to the callbacks. */
    method OnRead(chunk: Bytes) returns (frames: seq<Bytes>)
      requires tables.Valid() && open && protocol.Packets?
      modifies this, tables, tables.us5, tables.ui5, tables.ui6
      ensures tables.Valid() && View() == Feed(protocol, old(View()), chunk)
      ensures delivered == old(delivered) + frames
    {
      hide FrameSize, ScanAll, Progress;
      reader := reader + chunk;
      ghost var all := ScanAll(protocol, reader);
      var offset := 0;
      frames := [];
      Begin(protocol, reader);
      assert reader[0..] == reader;
      while |reader| - offset > TCP_HEADER_SIZE
        invariant tables.Valid() && offset <= |reader|
        invariant unchanged(`delivered) && open && reader == old(reader) + chunk
        invariant Progress(protocol, all, frames, reader[offset..])
      {
        var front := reader[offset..];
        var size := HeaderSize(front[..TCP_HEADER_SIZE]);
        if size >= 2047 || size < MIN_SIZE {
          End(protocol, all, frames, front);
          open := false;
          delivered := delivered + frames;
          return;
        }
        if |reader| - offset < size {
          break;
        }
        assert CutFront(protocol, front) == Take(size);
        Advance(protocol, all, frames, front, size);
        frames := frames + [front[..size]];
        assert front[size..] == reader[offset + size..];
        offset := offset + size;
      }
      End(protocol, all, frames, reader[offset..]);
      reader := reader[offset..];
      delivered := delivered + frames;
    }

    /** `DoReadIpc`: the same for IPC frames, which are never rejected. */
    method OnReadIpc(chunk: Bytes) returns (frames: seq<Bytes>)
      requires open && protocol.Ipc?
      modifies this
      ensures View() == Feed(protocol, old(View()), chunk)
      ensures delivered == old(delivered) + frames && open
    {
      hide LeNat, ScanAll, Progress;
      reader := reader + chunk;
      ghost var all := ScanAll(protocol, reader);
      var offset := 0;
      frames := [];
      Begin(protocol, reader);
      assert reader[0..] == reader;
      while |reader| - offset > IPC_HEADER
        invariant offset <= |reader|
        invariant unchanged(`delivered) && open && reader == old(reader) + chunk
        invariant Progress(protocol, all, frames, reader[offset..])
      {
        var front := reader[offset..];
        var size := LeNat(front[4..8]);
        if |reader| - offset < IPC_HEADER + size {
          break;
        }
        assert CutFront(protocol, front) == Take(IPC_HEADER + size);
        Advance(protocol, all, frames, front, IPC_HEADER + size);
        frames := frames + [front[..IPC_HEADER + size]];
        assert front[IPC_HEADER + size..] == reader[offset + IPC_HEADER + size..];
        offset := offset + IPC_HEADER + size;
      }
      End(protocol, all, frames, reader[offset..]);
      reader := reader[offset..];
      delivered := delivered + frames;
    }
  }

  lemma WholeSplice(s: Bytes, b: Bytes)
    requires |s| == |b|
    ensures Splice(s, 0, b) == b
  {
  }
}
