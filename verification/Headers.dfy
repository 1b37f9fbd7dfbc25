/** The two 4-byte packet headers: their bit layout and the mixing of the TCP header. */
module Headers {
  import opened Octets
  import opened Words

  // ---------------------------------------------------------------- layout

  datatype TcpHeader = TcpHeader(bogus: nat, session: nat, size: nat, crypt: nat)
  datatype CommandHeader = CommandHeader(bogus: nat, mission: nat, order: nat, extra: nat, option: nat)

  const TCP_HEADER_SIZE := 4
  const COMMAND_HEADER_SIZE := 4
  const MIN_SIZE := TCP_HEADER_SIZE + COMMAND_HEADER_SIZE

  /** Every field fits its bits: 4 + 14 + 11 + 3. */
  predicate TcpFits(h: TcpHeader) {
    h.bogus < 16 && h.session < 16384 && h.size < 2048 && h.crypt < 8
  }

  /** Every field fits its bits: 4 + 2 + 10 + 8 + 8. */
  predicate CommandFits(c: CommandHeader) {
    c.bogus < 16 && c.mission < 4 && c.order < 1024 && c.extra < 256 && c.option < 256
  }

  function PackTcp(h: TcpHeader): nat {
    h.bogus + 16 * (h.session + 16384 * (h.size + 2048 * h.crypt))
  }

  function UnpackTcp(w: nat): TcpHeader {
    TcpHeader(w % 16, w / 16 % 16384, w / 16 / 16384 % 2048, w / 16 / 16384 / 2048)
  }

  function PackCommand(c: CommandHeader): nat {
    c.bogus + 16 * (c.mission + 4 * (c.order + 1024 * (c.extra + 256 * c.option)))
  }

  function UnpackCommand(w: nat): CommandHeader {
    CommandHeader(w % 16, w / 16 % 4, w / 16 / 4 % 1024, w / 16 / 4 / 1024 % 256, w / 16 / 4 / 1024 / 256)
  }

  function TcpBytes(h: TcpHeader): (b: Bytes)
    ensures |b| == TCP_HEADER_SIZE
  {
    NatBytes(PackTcp(h), 4)
  }

  function ReadTcp(b: Bytes): TcpHeader
    requires |b| == TCP_HEADER_SIZE
  {
    UnpackTcp(LeNat(b))
  }

  function CommandBytes(c: CommandHeader): (b: Bytes)
    ensures |b| == COMMAND_HEADER_SIZE
  {
    NatBytes(PackCommand(c), 4)
  }

  function ReadCommand(b: Bytes): CommandHeader
    requires |b| == COMMAND_HEADER_SIZE
  {
    UnpackCommand(LeNat(b))
  }

  lemma ReadTcpOfTcpBytes(h: TcpHeader)
    requires TcpFits(h)
    ensures ReadTcp(TcpBytes(h)) == h
  {
    hide NatBytes, LeNat;
    var high := h.size + 2048 * h.crypt;
    Pow256Of4();
    LeNatOfNatBytes(PackTcp(h), 4);
    LowDigit(h.bogus, h.session + 16384 * high, 16);
    LowDigit(h.session, high, 16384);
    LowDigit(h.size, h.crypt, 2048);
  }

  lemma ReadCommandOfCommandBytes(c: CommandHeader)
    requires CommandFits(c)
    ensures ReadCommand(CommandBytes(c)) == c
  {
    hide NatBytes, LeNat;
    var top := c.extra + 256 * c.option;
    var high := c.order + 1024 * top;
    Pow256Of4();
    LeNatOfNatBytes(PackCommand(c), 4);
    LowDigit(c.bogus, c.mission + 4 * high, 16);
    LowDigit(c.mission, high, 4);
    LowDigit(c.order, top, 1024);
    LowDigit(c.extra, c.option, 256);
  }

  /** Whatever four bytes arrive, the fields fit, and the header stands for those bytes. */
  lemma TcpBytesOfReadTcp(b: Bytes)
    requires |b| == TCP_HEADER_SIZE
    ensures TcpFits(ReadTcp(b)) && TcpBytes(ReadTcp(b)) == b
  {
    hide NatBytes, LeNat;
    Pow256Of4();
    LeNatBound(b);
    NatBytesOfLeNat(b);
    var w := LeNat(b);
    assert w / 16 / 16384 / 2048 < 8;
  }

  lemma CommandBytesOfReadCommand(b: Bytes)
    requires |b| == COMMAND_HEADER_SIZE
    ensures CommandFits(ReadCommand(b)) && CommandBytes(ReadCommand(b)) == b
  {
    hide NatBytes, LeNat;
    Pow256Of4();
    LeNatBound(b);
    NatBytesOfLeNat(b);
    var w := LeNat(b);
    assert w / 16 / 4 / 1024 / 256 < 256;
  }

  lemma FourBytes(b0: nat, b1: nat, b2: nat, b3: nat)
    requires b0 < 256 && b1 < 256 && b2 < 256 && b3 < 256
    ensures NatBytes(b0 + 256 * b1 + 65536 * b2 + 16777216 * b3, 4) == [ByteOf(b0), ByteOf(b1), ByteOf(b2), ByteOf(b3)]
  {
    hide NatBytes, LeNat, ByteOf;
    var b: Bytes := [ByteOf(b0), ByteOf(b1), ByteOf(b2), ByteOf(b3)];
    LeNatOfFour(b);
    NatBytesOfLeNat(b);
    assert |b| == 4 && LeNat(b) == b0 + 256 * b1 + 65536 * b2 + 16777216 * b3;
  }

  /** Where the bits of the TCP header lie in its four bytes: four of the nibble, fourteen of the
      session, eleven of the size, three of the cipher, from the lowest bit of the first byte on. */
  lemma TcpLayout(h: TcpHeader)
    requires TcpFits(h)
    ensures TcpBytes(h) == [ByteOf(h.bogus + 16 * (h.session % 16)), ByteOf(h.session / 16 % 256),
                            ByteOf(h.session / 4096 + 4 * (h.size % 64)), ByteOf(h.size / 64 + 32 * h.crypt)]
  {
    hide NatBytes, ByteOf;
    var s0, s1, s2, z0, z1 := h.session % 16, h.session / 16 % 256, h.session / 4096, h.size % 64, h.size / 64;
    assert h.session == s0 + 16 * s1 + 4096 * s2 && s2 < 4 && h.size == z0 + 64 * z1 && z1 < 32;
    assert PackTcp(h) == (h.bogus + 16 * s0) + 256 * s1 + 65536 * (s2 + 4 * z0) + 16777216 * (z1 + 32 * h.crypt);
    FourBytes(h.bogus + 16 * s0, s1, s2 + 4 * z0, z1 + 32 * h.crypt);
  }

  /** And those of the command header: four of the nibble, two of the mission, ten of the order, and a
      byte each of extra and option. */
  lemma CommandLayout(c: CommandHeader)
    requires CommandFits(c)
    ensures CommandBytes(c) == [ByteOf(c.bogus + 16 * c.mission + 64 * (c.order % 4)), ByteOf(c.order / 4),
                                ByteOf(c.extra), ByteOf(c.option)]
  {
    hide NatBytes, ByteOf;
    var b0 := c.bogus + 16 * c.mission + 64 * (c.order % 4);
    assert PackCommand(c) == b0 + 256 * (c.order / 4) + 65536 * c.extra + 16777216 * c.option;
    FourBytes(b0, c.order / 4, c.extra, c.option);
  }

  // ---------------------------------------------------------------- mixing

  function Complement(x: bv32): bv32 {
    !x
  }

  function SwapNibbles(x: bv32): bv32 {
    ((x & 0xF0F0_F0F0) >> 4) | ((x & 0x0F0F_0F0F) << 4)
  }

  function SwapAltBits(x: bv32): bv32 {
    ((x & 0xAAAA_AAAA) >> 1) | ((x & 0x5555_5555) << 1)
  }

  function MixRshift16(x: bv32): bv32 {
    x ^ (x >> 16)
  }

  function EncryptTcpHeader(h: bv32): bv32 {
    var h1 := Xor32(Rotl32(Complement(h), 13), 0xA5A5_A5A5);
    var h2 := Plus32(SwapNibbles(h1), 0xCAFE_BABE);
    SwapAltBits(MixRshift16(Rotl32(h2, 7)))
  }

  function DecryptTcpHeader(e: bv32): bv32 {
    var e1 := Minus32(Rotr32(MixRshift16(SwapAltBits(e)), 7), 0xCAFE_BABE);
    Complement(Rotr32(Xor32(SwapNibbles(e1), 0xA5A5_A5A5), 13))
  }

  lemma ComplementTwice(x: bv32)
    ensures Complement(Complement(x)) == x
  {
  }

  lemma SwapNibblesTwice(x: bv32)
    ensures SwapNibbles(SwapNibbles(x)) == x
  {
  }

  lemma SwapAltBitsTwice(x: bv32)
    ensures SwapAltBits(SwapAltBits(x)) == x
  {
  }

  lemma MixRshift16Twice(x: bv32)
    ensures MixRshift16(MixRshift16(x)) == x
  {
    assert (x ^ (x >> 16)) >> 16 == x >> 16;
    assert MixRshift16(x ^ (x >> 16)) == x;
  }

  lemma PlusOfMinus32(x: bv32, y: bv32)
    ensures Plus32(Minus32(x, y), y) == x
  {
    assert Plus32(x - y, y) == x;
  }

  lemma DecryptOfEncryptTcpHeader(h: bv32)
    ensures DecryptTcpHeader(EncryptTcpHeader(h)) == h
  {
    hide Complement, SwapNibbles, SwapAltBits, MixRshift16, Rotl32, Rotr32, Plus32, Minus32, Xor32;
    var c := Complement(h);
    var h1 := Xor32(Rotl32(c, 13), 0xA5A5_A5A5);
    var h2 := Plus32(SwapNibbles(h1), 0xCAFE_BABE);
    SwapAltBitsTwice(MixRshift16(Rotl32(h2, 7)));
    MixRshift16Twice(Rotl32(h2, 7));
    Rotation32(h2, 7);
    MinusOfPlus32(SwapNibbles(h1), 0xCAFE_BABE);
    SwapNibblesTwice(h1);
    XorTwice32(Rotl32(c, 13), 0xA5A5_A5A5);
    Rotation32(c, 13);
    ComplementTwice(h);
  }

  lemma EncryptOfDecryptTcpHeader(e: bv32)
    ensures EncryptTcpHeader(DecryptTcpHeader(e)) == e
  {
    hide Complement, SwapNibbles, SwapAltBits, MixRshift16, Rotl32, Rotr32, Plus32, Minus32, Xor32;
    var m := MixRshift16(SwapAltBits(e));
    var e1 := Minus32(Rotr32(m, 7), 0xCAFE_BABE);
    var x := Xor32(SwapNibbles(e1), 0xA5A5_A5A5);
    ComplementTwice(Rotr32(x, 13));
    Rotation32Forth(x, 13);
    XorTwice32(SwapNibbles(e1), 0xA5A5_A5A5);
    SwapNibblesTwice(e1);
    PlusOfMinus32(Rotr32(m, 7), 0xCAFE_BABE);
    Rotation32Forth(m, 7);
    MixRshift16Twice(SwapAltBits(e));
    SwapAltBitsTwice(e);
  }

  /** No header is mixed to itself. */
  lemma MixingMoves(h: bv32)
    ensures EncryptTcpHeader(h) != h
  {
    hide Rotl32;
    var h1 := Xor32(Rotl32(Complement(h), 13), 0xA5A5_A5A5);
    TurnsOfMixing(Complement(h));
    TurnsOfMixing(Plus32(SwapNibbles(h1), 0xCAFE_BABE));
  }

  lemma TurnsOfMixing(x: bv32)
    ensures Rotl32(x, 13) == (x << 13) | (x >> 19)
    ensures Rotl32(x, 7) == (x << 7) | (x >> 25)
  {
  }

  /** The mixing applied to a header where it lies. */
  function MixBytes(b: Bytes): (r: Bytes)
    requires |b| == TCP_HEADER_SIZE
    ensures |r| == TCP_HEADER_SIZE
  {
    Bytes32(EncryptTcpHeader(Le32(b)))
  }

  function UnmixBytes(b: Bytes): (r: Bytes)
    requires |b| == TCP_HEADER_SIZE
    ensures |r| == TCP_HEADER_SIZE
  {
    Bytes32(DecryptTcpHeader(Le32(b)))
  }

  lemma UnmixOfMix(b: Bytes)
    requires |b| == TCP_HEADER_SIZE
    ensures UnmixBytes(MixBytes(b)) == b
  {
    hide Bytes32, Le32, EncryptTcpHeader, DecryptTcpHeader;
    DecryptOfEncryptTcpHeader(Le32(b));
    BytesOfLe32(b);
  }

  lemma MixBytesMoves(b: Bytes)
    requires |b| == TCP_HEADER_SIZE
    ensures MixBytes(b) != b
  {
    hide Bytes32, Le32, EncryptTcpHeader;
    MixingMoves(Le32(b));
  }

  /** The mixing of one header, step by step. */
  lemma MixedHeaderSample()
    ensures EncryptTcpHeader(0x2020_0000) == 0xA1A0_03D4
  {
    hide Rotl32, Plus32;
    assert Complement(0x2020_0000) == 0xDFDF_FFFF;
    TurnsOfMixing(0xDFDF_FFFF);
    assert SwapNibbles(Xor32(0xFFFF_FBFB, 0xA5A5_A5A5)) == 0xA5A5_E5E5;
    assert Plus32(0xA5A5_E5E5, 0xCAFE_BABE) == 0x70A4_A0A3 by { SumOfMixing(); }
    TurnsOfMixing(0x70A4_A0A3);
    assert MixRshift16(0x5250_51B8) == 0x5250_03E8;
  }

  lemma SumOfMixing()
    ensures Plus32(0xA5A5_E5E5, 0xCAFE_BABE) == 0x70A4_A0A3
  {
  }
}
