/** The packet object: a buffer holding both headers and the payload, rewritten in
    place when a packet is generated or taken apart. */
module PacketBuffer {
  import opened Words
  import opened Cipher
  import opened KeySchedule
  import opened CipherMachine
  import opened Headers
  import opened Codec

  class Packet {
    const tables: Tables
    var buffer: array<bv8>
    var key: bv32
    var how: EncryptMethod

    ghost predicate Valid()
      reads this, tables
    {
      tables.Valid() && buffer.Length >= MIN_SIZE
    }

    /** The packet the buffer holds while it is not encrypted. */
    ghost function View(): (m: Message)
      reads this, buffer, tables
      requires Valid()
      ensures Codec.Fits(m)
    {
      TcpBytesOfReadTcp(buffer[..4]);
      CommandBytesOfReadCommand(buffer[4..8]);
      Message(ReadTcp(buffer[..4]), ReadCommand(buffer[4..8]), buffer[8..])
    }

    /** An empty packet; the two low nibbles are arbitrary. */
    constructor (tables: Tables, key: bv32, tcpBogus: nat, commandBogus: nat)
      requires tables.Valid() && tcpBogus < 16 && commandBogus < 16
      ensures Valid() && fresh(buffer) && this.tables == tables && this.key == key && how == User
      ensures View() == Message(TcpHeader(tcpBogus, 0, 0, 0), CommandHeader(commandBogus, 0, 0, 0, 0), [])
    {
      this.tables := tables;
      this.key := key;
      how := User;
      buffer := new bv8[MIN_SIZE](i => 0);
      new;
      hide ReadTcp, ReadCommand, TcpBytes, CommandBytes;
      PutTcp(TcpHeader(tcpBogus, 0, 0, 0));
      PutCommand(CommandHeader(commandBogus, 0, 0, 0, 0));
      assert buffer[8..] == [];
    }

    method PutTcp(h: TcpHeader)
      requires Valid() && TcpFits(h)
      modifies buffer
      ensures View() == old(View()).(tcp := h)
    {
      hide ReadTcp, ReadCommand, TcpBytes;
      ghost var before := buffer[..];
      Store(buffer, 0, TcpBytes(h));
      ReadTcpOfTcpBytes(h);
      assert buffer[..4] == TcpBytes(h);
      assert buffer[4..8] == before[4..8] && buffer[8..] == before[8..];
    }

    method PutCommand(c: CommandHeader)
      requires Valid() && CommandFits(c)
      modifies buffer
      ensures View() == old(View()).(command := c)
    {
      hide ReadTcp, ReadCommand, CommandBytes;
      ghost var before := buffer[..];
      Store(buffer, 4, CommandBytes(c));
      ReadCommandOfCommandBytes(c);
      assert buffer[4..8] == CommandBytes(c);
      assert buffer[..4] == before[..4] && buffer[8..] == before[8..];
    }

    /** Fourteen bits of the session id are kept. */
    method SetSession(session: nat)
      requires Valid() && session < 65536
      modifies buffer
      ensures View() == old(View()).(tcp := old(View()).tcp.(session := session % 16384))
    {
      var h := GetTcp();
      PutTcp(h.(session := session % 16384));
    }

    /** The four fields, each cut to its bits. */
    method SetCommand(order: nat, mission: nat, extra: nat, option: nat)
      requires Valid()
      modifies buffer
      ensures View() == old(View()).(command := CommandHeader(old(View()).command.bogus, mission % 4, order % 1024,
                                                             extra % 256, option % 256))
    {
      var c := GetCommand();
      PutCommand(CommandHeader(c.bogus, mission % 4, order % 1024, extra % 256, option % 256));
    }

    method GetTcp() returns (h: TcpHeader)
      requires Valid()
      ensures h == View().tcp && TcpFits(h)
    {
      hide ReadTcp, ReadCommand;
      h := ReadTcp(buffer[..4]);
    }

    method GetCommand() returns (c: CommandHeader)
      requires Valid()
      ensures c == View().command && CommandFits(c)
    {
      hide ReadTcp, ReadCommand;
      c := ReadCommand(buffer[4..8]);
    }

    /** `vector::resize`: what fits is kept, the rest is zero. */
    method Resize(n: nat)
      requires Valid() && n >= MIN_SIZE
      modifies this`buffer
      ensures Valid() && fresh(buffer) && buffer.Length == n
      ensures View().tcp == old(View()).tcp && View().command == old(View()).command
    {
      hide ReadTcp, ReadCommand;
      ghost var head, middle := buffer[..4], buffer[4..8];
      var grown := new bv8[n](i => 0);
      forall i | 0 <= i < n && i < buffer.Length {
        grown[i] := buffer[i];
      }
      assert grown[..4] == head && grown[4..8] == middle;
      buffer := grown;
    }

    method SetData(data: Bytes)
      requires Valid()
      modifies this`buffer
      ensures Valid() && fresh(buffer)
      ensures View() == old(View()).(payload := data)
    {
      hide ReadTcp, ReadCommand;
      Resize(MIN_SIZE + |data|);
      ghost var before := buffer[..];
      Store(buffer, 8, data);
      assert buffer[..4] == before[..4] && buffer[4..8] == before[4..8];
    }

    /** Encrypt what follows the TCP header where it lies. */
    method SealBody(crypt: nat)
      requires Valid()
      modifies buffer, tables, tables.us5, tables.ui5, tables.ui6
      ensures Valid() && buffer[..] == old(buffer[..4]) + Seal(crypt, key, old(buffer[4..]))
    {
      hide Encrypted, Splice;
      ghost var before := buffer[..];
      if crypt != 0 {
        var cipher := new Crypt(tables, crypt, CipherKey(crypt, key));
        var partial := buffer.Length - TCP_HEADER_SIZE;
        assert buffer[4..4 + partial] == before[4..];
        var ok := cipher.Encrypt(buffer, 4, buffer, 4, partial);
      }
      SplicedBody(before, buffer[..], Seal(crypt, key, before[4..]));
    }

    /** Mix and encrypt the TCP header where it lies. */
    method SealHead()
      requires Valid()
      modifies buffer, tables, tables.us5, tables.ui5, tables.ui6
      ensures Valid() && buffer[..] == SealHeader(key, old(buffer[..4])) + old(buffer[4..])
    {
      hide Encrypted, Splice, MixBytes;
      ghost var before := buffer[..];
      if !Negative(key) {
        Store(buffer, 0, MixBytes(buffer[..4]));
        SplicedHead(before, buffer[..], MixBytes(before[..4]));
        ghost var mixed := buffer[..];
        assert buffer[0..4] == MixBytes(before[..4]);
        var cipher := new Crypt(tables, 1, 0);
        var ok := cipher.Encrypt(buffer, 0, buffer, 0, TCP_HEADER_SIZE);
        SplicedHead(mixed, buffer[..], Encrypted(Rc5, 0, MixBytes(before[..4])));
      } else {
        assert before == before[..4] + before[4..];
      }
    }

    /** Stamp the header, encrypt body and header where they lie, and copy the result. */
    method GenerateMessage() returns (wire: Bytes)
      requires Valid()
      modifies buffer, tables, tables.us5, tables.ui5, tables.ui6
      ensures Valid() && wire == buffer[..] == Wire(old(View()), key, how)
    {
      hide ReadTcp, ReadCommand, TcpBytes, CommandBytes, Seal, SealHeader;
      ghost var m := View();
      var partial := buffer.Length - TCP_HEADER_SIZE;
      assert partial == COMMAND_HEADER_SIZE + |m.payload|;
      var h := GetTcp();
      var crypt := h.crypt;
      if Negative(key) {
        crypt := 0;
      } else if partial < 16 && how.Default? {
        crypt := 1;
      } else if partial < 16 && how.User? {
        crypt := 2;
      } else if partial >= 16 && how.Default? {
        crypt := 3;
      } else if partial >= 16 && how.User? {
        crypt := 4;
      }
      PutTcp(h.(crypt := crypt, size := (partial + TCP_HEADER_SIZE) % 2048));
      BufferOfView();
      ghost var stamped := buffer[..];
      SealBody(crypt);
      ghost var sealed := buffer[..];
      assert sealed[..4] == stamped[..4] && sealed[4..] == Seal(crypt, key, stamped[4..]);
      SealHead();
      wire := buffer[..];
    }

    /** The bytes of the buffer, from the packet they stand for. */
    lemma BufferOfView()
      requires Valid()
      ensures buffer[..4] == TcpBytes(View().tcp)
      ensures buffer[4..] == CommandBytes(View().command) + View().payload
    {
      hide ReadTcp, ReadCommand, TcpBytes, CommandBytes;
      TcpBytesOfReadTcp(buffer[..4]);
      CommandBytesOfReadCommand(buffer[4..8]);
      assert buffer[4..] == buffer[4..8] + buffer[8..];
    }

    /** Read a TCP header out of received data. */
    method OpenHead(data: array<bv8>, from: nat)
      requires Valid() && from + TCP_HEADER_SIZE <= data.Length && data != buffer
      modifies buffer, tables, tables.us5, tables.ui5, tables.ui6
      ensures Valid() && data[..] == old(data[..])
      ensures buffer[..] == OpenHeader(key, old(data[from..from + TCP_HEADER_SIZE])) + old(buffer[4..])
    {
      hide Decrypted, Splice;
      ghost var before := buffer[..];
      if Negative(key) {
        Store(buffer, 0, data[from..from + TCP_HEADER_SIZE]);
      } else {
        var cipher := new Crypt(tables, 1, 0);
        var ok := cipher.Decrypt(data, from, buffer, 0, TCP_HEADER_SIZE);
      }
      SplicedHead(before, buffer[..], OpenHeader(key, data[from..from + TCP_HEADER_SIZE]));
    }

    /** Decrypt a received body into a buffer of its own. */
    method OpenBody(crypt: nat, data: array<bv8>, from: nat, n: nat) returns (plain: array<bv8>)
      requires Valid() && from + n <= data.Length
      modifies tables, tables.us5, tables.ui5, tables.ui6
      ensures Valid() && fresh(plain) && plain[..] == Open(crypt, key, old(data[from..from + n]))
    {
      hide Decrypted, Splice;
      plain := new bv8[n](i => 0);
      ghost var empty := plain[..];
      if crypt != 0 {
        var cipher := new Crypt(tables, crypt, CipherKey(crypt, key));
        var ok := cipher.Decrypt(data, from, plain, 0, n);
      } else {
        Store(plain, 0, data[from..from + n]);
      }
      SplicedWhole(empty, plain[..], Open(crypt, key, data[from..from + n]));
    }

    /** Make room for a received packet and read its header. */
    method TakeHead(data: array<bv8>, from: nat, size: nat)
      requires Valid() && from + TCP_HEADER_SIZE <= data.Length && data != buffer
      modifies this`buffer, tables, tables.us5, tables.ui5, tables.ui6
      ensures Valid() && fresh(buffer) && data[..] == old(data[..])
      ensures View().tcp == ReadTcp(OpenHeader(key, old(data[from..from + TCP_HEADER_SIZE])))
      ensures View().command == old(View()).command
    {
      hide ReadTcp, ReadCommand, OpenHeader;
      Resize(MIN_SIZE + size);
      ghost var grown := buffer[..];
      OpenHead(data, from);
      ghost var head := OpenHeader(key, data[from..from + TCP_HEADER_SIZE]);
      assert buffer[..] == head + grown[4..];
      assert buffer[..4] == buffer[..][..4] == head;
      assert buffer[4..8] == buffer[..][4..8] == grown[4..8];
    }

    /** Read the command header and the payload out of an encrypted body. */
    method TakeBody(crypt: nat, data: array<bv8>, from: nat, n: nat)
      requires Valid() && from + n <= data.Length && data != buffer && n >= COMMAND_HEADER_SIZE
      modifies this`buffer, buffer, tables, tables.us5, tables.ui5, tables.ui6
      ensures Valid() && fresh(buffer) && data[..] == old(data[..])
      ensures var plain := Open(crypt, key, old(data[from..from + n]));
        View() == Message(old(View()).tcp, ReadCommand(plain[..4]), plain[4..])
    {
      hide ReadTcp, ReadCommand, Open;
      var plain := OpenBody(crypt, data, from, n);
      CommandBytesOfReadCommand(plain[..4]);
      assert plain[..][..4] == plain[..4] && plain[..][4..] == plain[4..];
      PutCommand(ReadCommand(plain[..4]));
      SetData(plain[4..]);
    }

    /** Take a received packet apart. The caller answers for the bounds. */
    method ProcessMessage(data: array<bv8>, from: nat, size: nat) returns (ghost r: Outcome)
      requires Valid() && size < 65536 && from + size <= data.Length && data != buffer
      requires Process(data[from..from + size], key) != OutOfBounds
      modifies this`buffer, tables, tables.us5, tables.ui5, tables.ui6
      ensures Valid() && data[..] == old(data[..])
      ensures r == Process(old(data[from..from + size]), key)
      ensures r.Ignored? ==> buffer == old(buffer) && View() == old(View())
      ensures r.HeaderOnly? ==> View().tcp == r.tcp && View().command == old(View()).command
      ensures r.Parsed? ==> View() == r.message
    {
      hide ReadTcp, ReadCommand, OpenHeader, Open;
      ghost var span := data[from..from + size];
      r := Process(span, key);
      if size < TCP_HEADER_SIZE {
        return;
      }
      assert data[from..from + TCP_HEADER_SIZE] == span[..TCP_HEADER_SIZE];
      TakeHead(data, from, size);
      var h := GetTcp();
      var messageSize := (h.size + 65536 - TCP_HEADER_SIZE) % 65536;
      if messageSize == 0 || h.crypt > 4 {
        return;
      }
      assert data[from + 4..from + 4 + messageSize] == span[4..4 + messageSize];
      TakeBody(h.crypt, data, from + 4, messageSize);
    }
  }

  lemma SplicedBody(before: Bytes, after: Bytes, b: Bytes)
    requires |before| >= 4 && |b| == |before| - 4
    requires after == Splice(before, 4, b) || (after == before && b == before[4..])
    ensures after == before[..4] + b
  {
  }

  lemma SplicedHead(before: Bytes, after: Bytes, b: Bytes)
    requires |b| == 4 <= |before| && after == Splice(before, 0, b)
    ensures after == b + before[4..]
  {
  }

  lemma SplicedWhole(before: Bytes, after: Bytes, b: Bytes)
    requires |b| == |before| && after == Splice(before, 0, b)
    ensures after == b
  {
  }
}
