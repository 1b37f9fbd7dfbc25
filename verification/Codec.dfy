/** Packets: what `GenerateMessage` puts on the wire, what `ProcessMessage` makes of
    received bytes, and when the second recovers what went into the first. */
module Codec {
  import opened Words
  import opened Cipher
  import opened KeySchedule
  import opened CipherMachine
  import opened Headers

  datatype EncryptMethod = Default | User | NoEncryption

  datatype Message = Message(tcp: TcpHeader, command: CommandHeader, payload: Bytes)

  /** `Ignored`: too short for a header. `HeaderOnly`: dropped after the header, by its
      size or cipher field. `OutOfBounds`: the bytes the header asks for are not there. */
  datatype Outcome = Ignored | HeaderOnly(tcp: TcpHeader) | OutOfBounds | Parsed(message: Message)

  predicate Fits(m: Message) {
    TcpFits(m.tcp) && CommandFits(m.command)
  }

  /** A negative key, read as `int32_t`, means no encryption. */
  predicate Negative(key: bv32) {
    key & 0x8000_0000 != 0
  }

  // ---------------------------------------------------------------- sending

  /** The cipher field of an outgoing packet. */
  function ChooseCrypt(m: Message, key: bv32, how: EncryptMethod): nat {
    var small := COMMAND_HEADER_SIZE + |m.payload| < 16;
    if Negative(key) then 0
    else match how
      case Default => if small then 1 else 3
      case User => if small then 2 else 4
      case NoEncryption => m.tcp.crypt
  }

  /** The serial variants of the ciphers use the session key, the others zero. */
  function CipherKey(crypt: nat, key: bv32): bv32 {
    if crypt == 2 || crypt == 4 then key else 0
  }

  /** The family a cipher object ends up with, also for an index without an entry. */
  function CipherFamily(crypt: nat): Family {
    if crypt < CRYPT_TYPES then FamilyOf(crypt) else Rc5
  }

  /** The header as it is stamped: eleven bits are kept of the packet size. */
  function Stamp(m: Message, key: bv32, how: EncryptMethod): TcpHeader {
    m.tcp.(crypt := ChooseCrypt(m, key, how), size := (MIN_SIZE + |m.payload|) % 2048)
  }

  ghost function Seal(crypt: nat, key: bv32, b: Bytes): (e: Bytes)
    ensures |e| == |b|
  {
    if crypt == 0 then b else Encrypted(CipherFamily(crypt), CipherKey(crypt, key), b)
  }

  ghost function Open(crypt: nat, key: bv32, e: Bytes): (b: Bytes)
    ensures |b| == |e|
  {
    if crypt == 0 then e else Decrypted(CipherFamily(crypt), CipherKey(crypt, key), e)
  }

  ghost function SealHeader(key: bv32, b: Bytes): (e: Bytes)
    requires |b| == TCP_HEADER_SIZE
    ensures |e| == TCP_HEADER_SIZE
  {
    if Negative(key) then b else Encrypted(Rc5, 0, MixBytes(b))
  }

  /** The bytes `GenerateMessage` returns. */
  ghost function Wire(m: Message, key: bv32, how: EncryptMethod): (w: Bytes)
    ensures |w| == MIN_SIZE + |m.payload|
  {
    SealHeader(key, TcpBytes(Stamp(m, key, how))) +
    Seal(ChooseCrypt(m, key, how), key, CommandBytes(m.command) + m.payload)
  }

  // -------------------------------------------------------------- receiving

  /** How `ProcessMessage` reads a header: it does not undo the mixing. */
  ghost function OpenHeader(key: bv32, e: Bytes): (b: Bytes)
    requires |e| == TCP_HEADER_SIZE
    ensures |b| == TCP_HEADER_SIZE
  {
    if Negative(key) then e else Decrypted(Rc5, 0, e)
  }

  /** How the receiver of a generated packet reads its header: the mixing is peeled off. */
  ghost function OpenMixedHeader(key: bv32, e: Bytes): (b: Bytes)
    requires |e| == TCP_HEADER_SIZE
    ensures |b| == TCP_HEADER_SIZE
  {
    if Negative(key) then e else UnmixBytes(Decrypted(Rc5, 0, e))
  }

  /** The size field less the header, as a 16-bit value. */
  function BodySize(h: TcpHeader): nat {
    (h.size + 65536 - TCP_HEADER_SIZE) % 65536
  }

  /** The rest of the packet, given its header. Copying the command header out of a
      shorter body also runs past its end. */
  ghost function ParseBody(h: TcpHeader, data: Bytes, key: bv32): Outcome {
    var n := BodySize(h);
    if n == 0 || h.crypt > 4 then HeaderOnly(h)
    else if TCP_HEADER_SIZE + n > |data| || n < COMMAND_HEADER_SIZE then OutOfBounds
    else
      var body := Open(h.crypt, key, data[TCP_HEADER_SIZE..TCP_HEADER_SIZE + n]);
      Parsed(Message(h, ReadCommand(body[..COMMAND_HEADER_SIZE]), body[COMMAND_HEADER_SIZE..]))
  }

  /** The size argument is 16 bits wide; longer data is announced short. */
  ghost function Process(data: Bytes, key: bv32): Outcome {
    if |data| % 65536 < TCP_HEADER_SIZE then Ignored
    else ParseBody(ReadTcp(OpenHeader(key, data[..TCP_HEADER_SIZE])), data, key)
  }

  /** `ProcessMessage` behind a step that peels off the header mixing. */
  ghost function ProcessMixed(data: Bytes, key: bv32): Outcome {
    if |data| % 65536 < TCP_HEADER_SIZE then Ignored
    else ParseBody(ReadTcp(OpenMixedHeader(key, data[..TCP_HEADER_SIZE])), data, key)
  }

  // --------------------------------------------------------------- recovery

  /** What a recovered packet looks like. */
  function Delivered(m: Message, key: bv32, how: EncryptMethod): Message {
    Message(Stamp(m, key, how), m.command, m.payload)
  }

  /** The packets the header can describe: a size of eleven bits and a known cipher. */
  predicate Describable(m: Message, key: bv32, how: EncryptMethod) {
    MIN_SIZE + |m.payload| < 2048 && ChooseCrypt(m, key, how) <= 4
  }

  lemma StampFits(m: Message, key: bv32, how: EncryptMethod)
    requires Fits(m)
    ensures TcpFits(Stamp(m, key, how))
  {
  }

  lemma OpenOfSeal(crypt: nat, key: bv32, b: Bytes)
    ensures Open(crypt, key, Seal(crypt, key, b)) == b
  {
    hide Encrypted, Decrypted;
    RoundTrip(CipherFamily(crypt), CipherKey(crypt, key), b);
  }

  lemma OpenOfSealHeader(key: bv32, b: Bytes)
    requires |b| == TCP_HEADER_SIZE
    ensures OpenMixedHeader(key, SealHeader(key, b)) == b
  {
    hide Encrypted, Decrypted, MixBytes, UnmixBytes;
    RoundTrip(Rc5, 0, MixBytes(b));
    UnmixOfMix(b);
  }

  /** The receiver reads back the stamped header, whatever the key and the method. */
  lemma HeaderSurvives(m: Message, key: bv32, how: EncryptMethod)
    requires Fits(m)
    ensures ReadTcp(OpenMixedHeader(key, Wire(m, key, how)[..TCP_HEADER_SIZE])) == Stamp(m, key, how)
  {
    hide SealHeader, OpenMixedHeader, Seal, ReadTcp, TcpBytes;
    var h := Stamp(m, key, how);
    StampFits(m, key, how);
    assert Wire(m, key, how)[..TCP_HEADER_SIZE] == SealHeader(key, TcpBytes(h));
    OpenOfSealHeader(key, TcpBytes(h));
    ReadTcpOfTcpBytes(h);
  }

  /** A generated packet is recovered exactly when its header can describe it. */
  lemma Recovery(m: Message, key: bv32, how: EncryptMethod)
    requires Fits(m)
    ensures ProcessMixed(Wire(m, key, how), key) == Parsed(Delivered(m, key, how))
       <==> Describable(m, key, how)
  {
    hide SealHeader, OpenMixedHeader, Seal, Open, ReadTcp, TcpBytes, ReadCommand, CommandBytes;
    var w, h := Wire(m, key, how), Stamp(m, key, how);
    HeaderSurvives(m, key, how);
    if Describable(m, key, how) {
      var body := CommandBytes(m.command) + m.payload;
      assert w[TCP_HEADER_SIZE..TCP_HEADER_SIZE + BodySize(h)] == Seal(h.crypt, key, body);
      OpenOfSeal(h.crypt, key, body);
      assert body[..COMMAND_HEADER_SIZE] == CommandBytes(m.command) && body[COMMAND_HEADER_SIZE..] == m.payload;
      ReadCommandOfCommandBytes(m.command);
    } else if MIN_SIZE + |m.payload| >= 2048 {
      WrappedSize(m, key, how);
    }
  }

  /** A packet of 2048 bytes or more announces another size than it has. Sizes that
      wrap to less than four come back as 65532 and more, but then the packet is so
      long that its own length is announced as less than a header. */
  lemma WrappedSize(m: Message, key: bv32, how: EncryptMethod)
    requires MIN_SIZE + |m.payload| >= 2048
    ensures var h := Stamp(m, key, how);
      BodySize(h) == COMMAND_HEADER_SIZE + |m.payload| ==> (MIN_SIZE + |m.payload|) % 65536 < TCP_HEADER_SIZE
  {
    var total := MIN_SIZE + |m.payload|;
    var size := total % 2048;
    if size < 4 && 65532 + size == total - 4 {
      assert total == 65536 + size;
    }
  }

  /** What `ProcessMessage` makes of an encrypted packet's header: the stamped one, still mixed. */
  lemma MixedHeader(m: Message, key: bv32, how: EncryptMethod)
    requires !Negative(key)
    ensures OpenHeader(key, Wire(m, key, how)[..TCP_HEADER_SIZE]) == MixBytes(TcpBytes(Stamp(m, key, how)))
  {
    hide Encrypted, Decrypted, MixBytes, TcpBytes, Seal;
    var mixed := MixBytes(TcpBytes(Stamp(m, key, how)));
    assert Wire(m, key, how)[..TCP_HEADER_SIZE] == Encrypted(Rc5, 0, mixed);
    RoundTrip(Rc5, 0, mixed);
  }

  /** With encryption `ProcessMessage` as it stands recovers no generated packet: because it does not
      undo the mixing, the header it reads is never the one that was stamped. */
  lemma EncryptedNotRecovered(m: Message, key: bv32, how: EncryptMethod)
    requires !Negative(key)
    ensures var r := Process(Wire(m, key, how), key);
      && (r.HeaderOnly? ==> r.tcp != Stamp(m, key, how))
      && (r.Parsed? ==> r.message.tcp != Stamp(m, key, how))
      && r != Parsed(Delivered(m, key, how))
  {
    hide Wire, MixBytes, TcpBytes, ReadTcp, OpenHeader, Open;
    var b := TcpBytes(Stamp(m, key, how));
    MixedHeader(m, key, how);
    MixBytesMoves(b);
    TcpBytesOfReadTcp(MixBytes(b));
  }

  /** The same packet with its header encrypted but not mixed; without encryption it is the packet
      as `GenerateMessage` builds it. */
  ghost function UnmixedWire(m: Message, key: bv32, how: EncryptMethod): (w: Bytes)
    ensures |w| == MIN_SIZE + |m.payload|
    ensures Negative(key) ==> w == Wire(m, key, how)
  {
    var header := TcpBytes(Stamp(m, key, how));
    (if Negative(key) then header else Encrypted(Rc5, 0, header)) +
    Seal(ChooseCrypt(m, key, how), key, CommandBytes(m.command) + m.payload)
  }

  /** `ProcessMessage` and the read loop read the stamped header off such a packet. */
  lemma UnmixedHeader(m: Message, key: bv32, how: EncryptMethod)
    requires Fits(m)
    ensures ReadTcp(OpenHeader(key, UnmixedWire(m, key, how)[..TCP_HEADER_SIZE])) == Stamp(m, key, how)
  {
    hide Encrypted, Decrypted, TcpBytes, ReadTcp, Seal;
    var header := TcpBytes(Stamp(m, key, how));
    assert UnmixedWire(m, key, how)[..TCP_HEADER_SIZE] ==
           if Negative(key) then header else Encrypted(Rc5, 0, header);
    RoundTrip(Rc5, 0, header);
    StampFits(m, key, how);
    ReadTcpOfTcpBytes(Stamp(m, key, how));
  }

  /** `ProcessMessage` itself recovers it, under every key, exactly if its header can describe it. */
  lemma UnmixedRecovery(m: Message, key: bv32, how: EncryptMethod)
    requires Fits(m)
    ensures Process(UnmixedWire(m, key, how), key) == Parsed(Delivered(m, key, how)) <==> Describable(m, key, how)
  {
    hide SealHeader, OpenHeader, OpenMixedHeader, ReadTcp, Encrypted;
    var v, w := UnmixedWire(m, key, how), Wire(m, key, how);
    UnmixedHeader(m, key, how);
    HeaderSurvives(m, key, how);
    Recovery(m, key, how);
    SameBody(v, w, Stamp(m, key, how), key);
  }

  /** Only the bytes behind the header matter for the rest of the packet. */
  lemma SameBody(v: Bytes, w: Bytes, h: TcpHeader, key: bv32)
    requires |v| == |w| >= TCP_HEADER_SIZE && v[TCP_HEADER_SIZE..] == w[TCP_HEADER_SIZE..]
    ensures ParseBody(h, v, key) == ParseBody(h, w, key)
  {
    hide Open, ReadCommand;
    var n := BodySize(h);
    if TCP_HEADER_SIZE + n <= |v| {
      assert v[TCP_HEADER_SIZE..TCP_HEADER_SIZE + n] == v[TCP_HEADER_SIZE..][..n];
      assert w[TCP_HEADER_SIZE..TCP_HEADER_SIZE + n] == w[TCP_HEADER_SIZE..][..n];
    }
  }

  /** Without encryption `ProcessMessage` recovers what `GenerateMessage` builds. */
  lemma PlainRecovery(m: Message, key: bv32, how: EncryptMethod)
    requires Fits(m) && Negative(key)
    ensures Process(Wire(m, key, how), key) == Parsed(Delivered(m, key, how))
       <==> MIN_SIZE + |m.payload| < 2048
  {
    hide Process, Wire, UnmixedWire;
    UnmixedRecovery(m, key, how);
  }

  /** Equal bytes come from equal packets. */
  lemma WireInjective(m1: Message, m2: Message, key: bv32, how: EncryptMethod)
    requires Fits(m1) && Fits(m2) && Wire(m1, key, how) == Wire(m2, key, how)
    ensures m1.command == m2.command && m1.payload == m2.payload
    ensures m1.tcp.session == m2.tcp.session && m1.tcp.bogus == m2.tcp.bogus
  {
    hide SealHeader, OpenMixedHeader, Seal, Open, ReadTcp, TcpBytes, ReadCommand, CommandBytes;
    HeaderSurvives(m1, key, how);
    HeaderSurvives(m2, key, how);
    SealedBody(m1, key, how);
    SealedBody(m2, key, how);
    ReadCommandOfCommandBytes(m1.command);
    ReadCommandOfCommandBytes(m2.command);
  }

  lemma SealedBody(m: Message, key: bv32, how: EncryptMethod)
    ensures var body := Open(ChooseCrypt(m, key, how), key, Wire(m, key, how)[TCP_HEADER_SIZE..]);
      |body| == COMMAND_HEADER_SIZE + |m.payload| &&
      body[..COMMAND_HEADER_SIZE] == CommandBytes(m.command) && body[COMMAND_HEADER_SIZE..] == m.payload
  {
    hide SealHeader, Seal, Open, CommandBytes;
    var body, c := CommandBytes(m.command) + m.payload, ChooseCrypt(m, key, how);
    assert Wire(m, key, how)[TCP_HEADER_SIZE..] == Seal(c, key, body);
    OpenOfSeal(c, key, body);
  }

  // --------------------------------------------- which cipher and which key, on the wire

  /** What `GenerateMessage` does to a packet, in the ciphers' own terms. Without encryption nothing but the
      stamp of size and cipher zero. With it the header is mixed and encrypted under key zero; the body
      goes under RC5 below sixteen bytes and under RC6 from there on, with the session key for
      `User` and with zero for `Default`; without a method it goes under the cipher its header names. */
  lemma WireInClear(m: Message, key: bv32, how: EncryptMethod)
    ensures var body := CommandBytes(m.command) + m.payload; var w := Wire(m, key, how);
      var size := (8 + |m.payload|) % 2048;
      var plain := (header: TcpHeader) => if Negative(key) then TcpBytes(header) else Encrypted(Rc5, 0, MixBytes(TcpBytes(header)));
      var sent := (crypt: nat, sealed: Bytes) => w == plain(m.tcp.(size := size, crypt := crypt)) + sealed;
      && (Negative(key) ==> sent(0, body))
      && (!Negative(key) && how == User && |body| < 16 ==> sent(2, Encrypted(Rc5, key, body)))
      && (!Negative(key) && how == User && |body| >= 16 ==> sent(4, Encrypted(Rc6, key, body)))
      && (!Negative(key) && how == Default && |body| < 16 ==> sent(1, Encrypted(Rc5, 0, body)))
      && (!Negative(key) && how == Default && |body| >= 16 ==> sent(3, Encrypted(Rc6, 0, body)))
      && (!Negative(key) && how == NoEncryption && m.tcp.crypt == 0 ==> sent(0, body))
      && (!Negative(key) && how == NoEncryption && m.tcp.crypt == 1 ==> sent(1, Encrypted(Rc5, 0, body)))
      && (!Negative(key) && how == NoEncryption && m.tcp.crypt == 2 ==> sent(2, Encrypted(Rc5, key, body)))
      && (!Negative(key) && how == NoEncryption && m.tcp.crypt == 3 ==> sent(3, Encrypted(Rc6, 0, body)))
      && (!Negative(key) && how == NoEncryption && m.tcp.crypt == 4 ==> sent(4, Encrypted(Rc6, key, body)))
  {
    hide Encrypted, MixBytes, TcpBytes, CommandBytes;
  }

  /** What `ProcessMessage` reads a header from, and how many bytes it takes to follow. */
  lemma ProcessInClear(data: Bytes, key: bv32)
    requires |data| % 65536 >= 4
    ensures var h := ReadTcp(if Negative(key) then data[..4] else Decrypted(Rc5, 0, data[..4]));
      var n := if h.size >= 4 then h.size - 4 else h.size + 65532; var r := Process(data, key);
      if n == 0 || h.crypt > 4 then r == HeaderOnly(h)
      else if n < 4 || 4 + n > |data| then r == OutOfBounds
      else
        var sealed := data[4..4 + n];
        var gives := (body: Bytes) => |body| == n && r == Parsed(Message(h, ReadCommand(body[..4]), body[4..]));
        && (h.crypt == 0 ==> gives(sealed))
        && (h.crypt == 1 ==> gives(Decrypted(Rc5, 0, sealed)))
        && (h.crypt == 2 ==> gives(Decrypted(Rc5, key, sealed)))
        && (h.crypt == 3 ==> gives(Decrypted(Rc6, 0, sealed)))
        && (h.crypt == 4 ==> gives(Decrypted(Rc6, key, sealed)))
  {
    hide Decrypted, ReadCommand, LeNat;
  }

  // ----------------------------------------------------------------- bounds

  /** The key `onPacket` hands over. */
  function PacketKey(useEncryption: bool, sessionKey: bv32): bv32 {
    if useEncryption then sessionKey else 0xFFFF_FFFF
  }

  /** The size the read loop finds in a header. */
  ghost function FrameSize(useEncryption: bool, header: Bytes): nat
    requires |header| == TCP_HEADER_SIZE
  {
    ReadTcp(OpenHeader(if useEncryption then 0 else 0xFFFF_FFFF, header)).size
  }

  /** The header asks `ProcessMessage` for bytes that a packet of `n` bytes does not have. */
  predicate AsksTooMuch(h: TcpHeader, n: nat) {
    var size := BodySize(h);
    size != 0 && h.crypt <= 4 && (TCP_HEADER_SIZE + size > n || size < COMMAND_HEADER_SIZE)
  }

  /** A frame cut by the read loop is read past its end exactly on an encrypted session with a
      negative key, where the loop decrypts the header and `ProcessMessage` does not, if the
      header as it came asks for more than the frame. */
  lemma FramedPacketInBounds(data: Bytes, useEncryption: bool, sessionKey: bv32)
    requires MIN_SIZE <= |data| < 2047 && FrameSize(useEncryption, data[..TCP_HEADER_SIZE]) == |data|
    ensures Process(data, PacketKey(useEncryption, sessionKey)) == OutOfBounds
       <==> useEncryption && Negative(sessionKey) && AsksTooMuch(ReadTcp(data[..TCP_HEADER_SIZE]), |data|)
    ensures var r := Process(data, PacketKey(useEncryption, sessionKey));
      !(useEncryption && Negative(sessionKey)) ==>
        (r.Parsed? <==> ReadTcp(OpenHeader(PacketKey(useEncryption, sessionKey), data[..TCP_HEADER_SIZE])).crypt <= 4)
  {
    hide Decrypted, ReadTcp;
    assert !Negative(0) && Negative(0xFFFF_FFFF);
  }
}
