/** What the packet ciphers compute, as functions, and that decryption undoes
    encryption. The mutable tables they run on are in CipherMachine. */
module Cipher {
  import opened Words

  const RC5_TABLE := 26
  const RC5_ROUNDS := 12
  const RC6_TABLE := 84
  const RC6_ROUNDS := 40

  type Schedule5 = s: seq<bv32> | |s| == RC5_TABLE witness seq(RC5_TABLE, i => 0)
  type Schedule6 = s: seq<bv32> | |s| == RC6_TABLE witness seq(RC6_TABLE, i => 0)

  /** The serial key and the two key schedules that a run of a cipher reads. */
  datatype Keys = Keys(serial: bv32, s5: Schedule5, s6: Schedule6)

  datatype Family = Rc5 | Rc6

  datatype Pair16 = Pair16(a: bv16, b: bv16)
  datatype Pair = Pair(a: bv32, b: bv32)
  datatype Quad = Quad(a: bv32, b: bv32, c: bv32, d: bv32)

  // -------------------------------------------------- the 4-byte RC5 block

  /** One half of a round: mix `x` under the other word and add a key word. */
  function Half16(x: bv16, y: bv16, key: bv16): bv16 {
    Plus16(Rotl16(Xor16(x, y), y), key)
  }

  function Unhalf16(z: bv16, y: bv16, key: bv16): bv16 {
    Xor16(Rotr16(Minus16(z, key), y), y)
  }

  function Round16(s: Schedule5, j: nat, p: Pair16): Pair16
    requires 1 <= j <= RC5_ROUNDS
  {
    var a := Half16(p.a, p.b, Low16(s[2 * j]));
    var b := Half16(p.b, a, Low16(s[2 * j + 1]));
    Pair16(a, b)
  }

  function Unround16(s: Schedule5, j: nat, p: Pair16): Pair16
    requires 1 <= j <= RC5_ROUNDS
  {
    var b := Unhalf16(p.b, p.a, Low16(s[2 * j + 1]));
    var a := Unhalf16(p.a, b, Low16(s[2 * j]));
    Pair16(a, b)
  }

  /** Rounds 1 to n. */
  function Rounds16(s: Schedule5, n: nat, p: Pair16): Pair16
    requires n <= RC5_ROUNDS
  {
    if n == 0 then p else Round16(s, n, Rounds16(s, n - 1, p))
  }

  /** Rounds n down to 1, undone. */
  function Unrounds16(s: Schedule5, n: nat, p: Pair16): Pair16
    requires n <= RC5_ROUNDS
  {
    if n == 0 then p else Unrounds16(s, n - 1, Unround16(s, n, p))
  }

  function Encrypt16(k: Keys, p: Pair16): Pair16 {
    var q := Rounds16(k.s5, RC5_ROUNDS, Pair16(Plus16(p.a, Low16(k.s5[0])), Plus16(p.b, Low16(k.s5[1]))));
    Pair16(Xor16(q.a, Low16(k.serial)), Xor16(q.b, Low16(k.serial)))
  }

  function Decrypt16(k: Keys, p: Pair16): Pair16 {
    var q := Unrounds16(k.s5, RC5_ROUNDS, Pair16(Xor16(p.a, Low16(k.serial)), Xor16(p.b, Low16(k.serial))));
    Pair16(Minus16(q.a, Low16(k.s5[0])), Minus16(q.b, Low16(k.s5[1])))
  }

  lemma Unhalf16OfHalf16(x: bv16, y: bv16, key: bv16)
    ensures Unhalf16(Half16(x, y, key), y, key) == x
  {
    hide Rotl16, Rotr16, Plus16, Minus16, Xor16;
    MinusOfPlus16(Rotl16(Xor16(x, y), y), key);
    Rotation16(Xor16(x, y), y);
    XorTwice16(x, y);
  }

  lemma Unround16OfRound16(s: Schedule5, j: nat, p: Pair16)
    requires 1 <= j <= RC5_ROUNDS
    ensures Unround16(s, j, Round16(s, j, p)) == p
  {
    hide Half16, Unhalf16, Low16;
    Unhalf16OfHalf16(p.a, p.b, Low16(s[2 * j]));
    Unhalf16OfHalf16(p.b, Round16(s, j, p).a, Low16(s[2 * j + 1]));
  }

  lemma {:induction false} Unrounds16OfRounds16(s: Schedule5, n: nat, p: Pair16)
    requires n <= RC5_ROUNDS
    ensures Unrounds16(s, n, Rounds16(s, n, p)) == p
  {
    if n > 0 {
      Unround16OfRound16(s, n, Rounds16(s, n - 1, p));
      Unrounds16OfRounds16(s, n - 1, p);
    }
  }

  lemma Decrypt16OfEncrypt16(k: Keys, p: Pair16)
    ensures Decrypt16(k, Encrypt16(k, p)) == p
  {
    hide Low16, Rounds16, Unrounds16, Plus16, Minus16, Xor16;
    var start := Pair16(Plus16(p.a, Low16(k.s5[0])), Plus16(p.b, Low16(k.s5[1])));
    var q := Rounds16(k.s5, RC5_ROUNDS, start);
    XorTwice16(q.a, Low16(k.serial));
    XorTwice16(q.b, Low16(k.serial));
    Unrounds16OfRounds16(k.s5, RC5_ROUNDS, start);
    MinusOfPlus16(p.a, Low16(k.s5[0]));
    MinusOfPlus16(p.b, Low16(k.s5[1]));
  }

  // -------------------------------------------------- the 8-byte RC5 block

  function Half(x: bv32, y: bv32, amount: bv32, key: bv32): bv32 {
    Plus32(Rotl32(Xor32(x, y), amount), key)
  }

  function Unhalf(z: bv32, y: bv32, amount: bv32, key: bv32): bv32 {
    Xor32(Rotr32(Minus32(z, key), amount), y)
  }

  lemma UnhalfOfHalf(x: bv32, y: bv32, amount: bv32, key: bv32)
    ensures Unhalf(Half(x, y, amount, key), y, amount, key) == x
  {
    hide Rotl32, Rotr32, Plus32, Minus32, Xor32;
    MinusOfPlus32(Rotl32(Xor32(x, y), amount), key);
    Rotation32(Xor32(x, y), amount);
    XorTwice32(x, y);
  }

  function Round5(s: Schedule5, j: nat, p: Pair): Pair
    requires 1 <= j <= RC5_ROUNDS
  {
    var a := Half(p.a, p.b, p.b, s[2 * j]);
    var b := Half(p.b, a, a, s[2 * j + 1]);
    Pair(a, b)
  }

  function Unround5(s: Schedule5, j: nat, p: Pair): Pair
    requires 1 <= j <= RC5_ROUNDS
  {
    var b := Unhalf(p.b, p.a, p.a, s[2 * j + 1]);
    var a := Unhalf(p.a, b, b, s[2 * j]);
    Pair(a, b)
  }

  function Rounds5(s: Schedule5, n: nat, p: Pair): Pair
    requires n <= RC5_ROUNDS
  {
    if n == 0 then p else Round5(s, n, Rounds5(s, n - 1, p))
  }

  function Unrounds5(s: Schedule5, n: nat, p: Pair): Pair
    requires n <= RC5_ROUNDS
  {
    if n == 0 then p else Unrounds5(s, n - 1, Unround5(s, n, p))
  }

  function EncryptPair(k: Keys, p: Pair): Pair {
    var q := Rounds5(k.s5, RC5_ROUNDS, Pair(Plus32(p.a, k.s5[0]), Plus32(p.b, k.s5[1])));
    Pair(Xor32(q.a, k.serial), Xor32(q.b, k.serial))
  }

  function DecryptPair(k: Keys, p: Pair): Pair {
    var q := Unrounds5(k.s5, RC5_ROUNDS, Pair(Xor32(p.a, k.serial), Xor32(p.b, k.serial)));
    Pair(Minus32(q.a, k.s5[0]), Minus32(q.b, k.s5[1]))
  }

  lemma Unround5OfRound5(s: Schedule5, j: nat, p: Pair)
    requires 1 <= j <= RC5_ROUNDS
    ensures Unround5(s, j, Round5(s, j, p)) == p
  {
    hide Half, Unhalf;
    var a := Round5(s, j, p).a;
    UnhalfOfHalf(p.a, p.b, p.b, s[2 * j]);
    UnhalfOfHalf(p.b, a, a, s[2 * j + 1]);
  }

  lemma {:induction false} Unrounds5OfRounds5(s: Schedule5, n: nat, p: Pair)
    requires n <= RC5_ROUNDS
    ensures Unrounds5(s, n, Rounds5(s, n, p)) == p
  {
    hide Round5, Unround5;
    if n > 0 {
      Unround5OfRound5(s, n, Rounds5(s, n - 1, p));
      Unrounds5OfRounds5(s, n - 1, p);
    }
  }

  lemma DecryptPairOfEncryptPair(k: Keys, p: Pair)
    ensures DecryptPair(k, EncryptPair(k, p)) == p
  {
    hide Rounds5, Unrounds5, Plus32, Minus32, Xor32;
    var start := Pair(Plus32(p.a, k.s5[0]), Plus32(p.b, k.s5[1]));
    var q := Rounds5(k.s5, RC5_ROUNDS, start);
    XorTwice32(q.a, k.serial);
    XorTwice32(q.b, k.serial);
    Unrounds5OfRounds5(k.s5, RC5_ROUNDS, start);
    MinusOfPlus32(p.a, k.s5[0]);
    MinusOfPlus32(p.b, k.s5[1]);
  }

  // ------------------------------------------------- the 16-byte RC6 block

  /** The quadratic mixing value of RC6. */
  function Quadratic(x: bv32): bv32 {
    Rotl32(x * (2 * x + 1), 5)
  }

  function Round6(s: Schedule6, j: nat, q: Quad): Quad
    requires 1 <= j <= RC6_ROUNDS
  {
    var t := Quadratic(q.b);
    var u := Quadratic(q.d);
    Quad(q.b, Half(q.c, u, t, s[2 * j + 1]), q.d, Half(q.a, t, u, s[2 * j]))
  }

  function Unround6(s: Schedule6, j: nat, q: Quad): Quad
    requires 1 <= j <= RC6_ROUNDS
  {
    var u := Quadratic(q.c);
    var t := Quadratic(q.a);
    Quad(Unhalf(q.d, t, u, s[2 * j]), q.a, Unhalf(q.b, u, t, s[2 * j + 1]), q.c)
  }

  function Rounds6(s: Schedule6, n: nat, q: Quad): Quad
    requires n <= RC6_ROUNDS
  {
    if n == 0 then q else Round6(s, n, Rounds6(s, n - 1, q))
  }

  function Unrounds6(s: Schedule6, n: nat, q: Quad): Quad
    requires n <= RC6_ROUNDS
  {
    if n == 0 then q else Unrounds6(s, n - 1, Unround6(s, n, q))
  }

  function EncryptQuad(k: Keys, q: Quad): Quad {
    var e := Rounds6(k.s6, RC6_ROUNDS, Quad(q.a, Plus32(q.b, k.s6[0]), q.c, Plus32(q.d, k.s6[1])));
    Quad(Xor32(Plus32(e.a, k.s6[82]), k.serial), Xor32(e.b, k.serial),
         Xor32(Plus32(e.c, k.s6[83]), k.serial), Xor32(e.d, k.serial))
  }

  function DecryptQuad(k: Keys, q: Quad): Quad {
    var e := Unrounds6(k.s6, RC6_ROUNDS,
                       Quad(Minus32(Xor32(q.a, k.serial), k.s6[82]), Xor32(q.b, k.serial),
                            Minus32(Xor32(q.c, k.serial), k.s6[83]), Xor32(q.d, k.serial)));
    Quad(e.a, Minus32(e.b, k.s6[0]), e.c, Minus32(e.d, k.s6[1]))
  }

  lemma Unround6OfRound6(s: Schedule6, j: nat, q: Quad)
    requires 1 <= j <= RC6_ROUNDS
    ensures Unround6(s, j, Round6(s, j, q)) == q
  {
    hide Half, Unhalf, Quadratic;
    var t, u := Quadratic(q.b), Quadratic(q.d);
    UnhalfOfHalf(q.a, t, u, s[2 * j]);
    UnhalfOfHalf(q.c, u, t, s[2 * j + 1]);
  }

  lemma {:induction false} Unrounds6OfRounds6(s: Schedule6, n: nat, q: Quad)
    requires n <= RC6_ROUNDS
    ensures Unrounds6(s, n, Rounds6(s, n, q)) == q
  {
    hide Round6, Unround6;
    if n > 0 {
      Unround6OfRound6(s, n, Rounds6(s, n - 1, q));
      Unrounds6OfRounds6(s, n - 1, q);
    }
  }

  lemma DecryptQuadOfEncryptQuad(k: Keys, q: Quad)
    ensures DecryptQuad(k, EncryptQuad(k, q)) == q
  {
    hide Rounds6, Unrounds6, Plus32, Minus32, Xor32;
    var start := Quad(q.a, Plus32(q.b, k.s6[0]), q.c, Plus32(q.d, k.s6[1]));
    var e := Rounds6(k.s6, RC6_ROUNDS, start);
    XorTwice32(Plus32(e.a, k.s6[82]), k.serial);
    XorTwice32(e.b, k.serial);
    XorTwice32(Plus32(e.c, k.s6[83]), k.serial);
    XorTwice32(e.d, k.serial);
    MinusOfPlus32(e.a, k.s6[82]);
    MinusOfPlus32(e.c, k.s6[83]);
    Unrounds6OfRounds6(k.s6, RC6_ROUNDS, start);
    MinusOfPlus32(q.b, k.s6[0]);
    MinusOfPlus32(q.d, k.s6[1]);
  }

  // --------------------------------------------------------- byte strings

  function EncryptBlock4(k: Keys, b: Bytes): (e: Bytes)
    requires |b| == 4
    ensures |e| == 4
  {
    var p := Encrypt16(k, Pair16(Le16(b[..2]), Le16(b[2..])));
    Bytes16(p.a) + Bytes16(p.b)
  }

  function DecryptBlock4(k: Keys, e: Bytes): (b: Bytes)
    requires |e| == 4
    ensures |b| == 4
  {
    var p := Decrypt16(k, Pair16(Le16(e[..2]), Le16(e[2..])));
    Bytes16(p.a) + Bytes16(p.b)
  }

  function EncryptBlock8(k: Keys, b: Bytes): (e: Bytes)
    requires |b| == 8
    ensures |e| == 8
  {
    var p := EncryptPair(k, Pair(Le32(b[..4]), Le32(b[4..])));
    Bytes32(p.a) + Bytes32(p.b)
  }

  function DecryptBlock8(k: Keys, e: Bytes): (b: Bytes)
    requires |e| == 8
    ensures |b| == 8
  {
    var p := DecryptPair(k, Pair(Le32(e[..4]), Le32(e[4..])));
    Bytes32(p.a) + Bytes32(p.b)
  }

  function ReadQuad(b: Bytes): Quad
    requires |b| == 16
  {
    Quad(Le32(b[..4]), Le32(b[4..8]), Le32(b[8..12]), Le32(b[12..]))
  }

  function QuadBytes(q: Quad): (b: Bytes)
    ensures |b| == 16
  {
    Bytes32(q.a) + Bytes32(q.b) + Bytes32(q.c) + Bytes32(q.d)
  }

  function EncryptBlock16(k: Keys, b: Bytes): (e: Bytes)
    requires |b| == 16
    ensures |e| == 16
  {
    QuadBytes(EncryptQuad(k, ReadQuad(b)))
  }

  function DecryptBlock16(k: Keys, e: Bytes): (b: Bytes)
    requires |e| == 16
    ensures |b| == 16
  {
    QuadBytes(DecryptQuad(k, ReadQuad(e)))
  }

  /** A run of the RC5 cipher: 8-byte blocks, then one 4-byte block if it fits,
      then up to three bytes as they are. */
  function EncryptRc5(k: Keys, b: Bytes): (e: Bytes)
    ensures |e| == |b|
  {
    if |b| >= 8 then EncryptBlock8(k, b[..8]) + EncryptRc5(k, b[8..])
    else if |b| >= 4 then EncryptBlock4(k, b[..4]) + b[4..]
    else b
  }

  function DecryptRc5(k: Keys, e: Bytes): (b: Bytes)
    ensures |b| == |e|
  {
    if |e| >= 8 then DecryptBlock8(k, e[..8]) + DecryptRc5(k, e[8..])
    else if |e| >= 4 then DecryptBlock4(k, e[..4]) + e[4..]
    else e
  }

  /** A run of the RC6 cipher: 16-byte blocks, then RC5 on what is left. */
  function EncryptRc6(k: Keys, b: Bytes): (e: Bytes)
    ensures |e| == |b|
  {
    if |b| >= 16 then EncryptBlock16(k, b[..16]) + EncryptRc6(k, b[16..]) else EncryptRc5(k, b)
  }

  function DecryptRc6(k: Keys, e: Bytes): (b: Bytes)
    ensures |b| == |e|
  {
    if |e| >= 16 then DecryptBlock16(k, e[..16]) + DecryptRc6(k, e[16..]) else DecryptRc5(k, e)
  }

  lemma DecryptBlock4OfEncryptBlock4(k: Keys, b: Bytes)
    requires |b| == 4
    ensures DecryptBlock4(k, EncryptBlock4(k, b)) == b
  {
    hide Le16, Bytes16, Encrypt16, Decrypt16;
    var p := Pair16(Le16(b[..2]), Le16(b[2..]));
    var e := Encrypt16(k, p);
    assert (Bytes16(e.a) + Bytes16(e.b))[..2] == Bytes16(e.a);
    assert (Bytes16(e.a) + Bytes16(e.b))[2..] == Bytes16(e.b);
    Decrypt16OfEncrypt16(k, p);
    BytesOfLe16(b[..2]);
    BytesOfLe16(b[2..]);
    assert b == b[..2] + b[2..];
  }

  lemma DecryptBlock8OfEncryptBlock8(k: Keys, b: Bytes)
    requires |b| == 8
    ensures DecryptBlock8(k, EncryptBlock8(k, b)) == b
  {
    hide Le32, Bytes32, EncryptPair, DecryptPair;
    var p := Pair(Le32(b[..4]), Le32(b[4..]));
    var e := EncryptPair(k, p);
    assert (Bytes32(e.a) + Bytes32(e.b))[..4] == Bytes32(e.a);
    assert (Bytes32(e.a) + Bytes32(e.b))[4..] == Bytes32(e.b);
    DecryptPairOfEncryptPair(k, p);
    BytesOfLe32(b[..4]);
    BytesOfLe32(b[4..]);
    assert b == b[..4] + b[4..];
  }

  lemma ReadQuadOfQuadBytes(q: Quad)
    ensures ReadQuad(QuadBytes(q)) == q
  {
    hide Le32, Bytes32;
    var b := QuadBytes(q);
    assert b[..4] == Bytes32(q.a) && b[4..8] == Bytes32(q.b);
    assert b[8..12] == Bytes32(q.c) && b[12..] == Bytes32(q.d);
  }

  lemma QuadBytesOfReadQuad(b: Bytes)
    requires |b| == 16
    ensures QuadBytes(ReadQuad(b)) == b
  {
    hide Le32, Bytes32;
    BytesOfLe32(b[..4]);
    BytesOfLe32(b[4..8]);
    BytesOfLe32(b[8..12]);
    BytesOfLe32(b[12..]);
    assert b == b[..4] + b[4..8] + b[8..12] + b[12..];
  }

  lemma DecryptBlock16OfEncryptBlock16(k: Keys, b: Bytes)
    requires |b| == 16
    ensures DecryptBlock16(k, EncryptBlock16(k, b)) == b
  {
    hide ReadQuad, QuadBytes, EncryptQuad, DecryptQuad;
    ReadQuadOfQuadBytes(EncryptQuad(k, ReadQuad(b)));
    DecryptQuadOfEncryptQuad(k, ReadQuad(b));
    QuadBytesOfReadQuad(b);
  }

  /** RC5 decryption undoes RC5 encryption on byte strings of every length. */
  lemma {:induction false} DecryptRc5OfEncryptRc5(k: Keys, b: Bytes)
    ensures DecryptRc5(k, EncryptRc5(k, b)) == b
  {
    hide EncryptBlock8, DecryptBlock8, EncryptBlock4, DecryptBlock4;
    var e := EncryptRc5(k, b);
    if |b| >= 8 {
      assert e[..8] == EncryptBlock8(k, b[..8]) && e[8..] == EncryptRc5(k, b[8..]);
      DecryptBlock8OfEncryptBlock8(k, b[..8]);
      DecryptRc5OfEncryptRc5(k, b[8..]);
      assert b == b[..8] + b[8..];
    } else if |b| >= 4 {
      assert e[..4] == EncryptBlock4(k, b[..4]) && e[4..] == b[4..];
      DecryptBlock4OfEncryptBlock4(k, b[..4]);
      assert b == b[..4] + b[4..];
    }
  }

  /** And so does RC6, through its RC5 tail. */
  lemma {:induction false} DecryptRc6OfEncryptRc6(k: Keys, b: Bytes)
    ensures DecryptRc6(k, EncryptRc6(k, b)) == b
  {
    hide EncryptBlock16, DecryptBlock16, EncryptRc5, DecryptRc5;
    var e := EncryptRc6(k, b);
    if |b| >= 16 {
      assert e[..16] == EncryptBlock16(k, b[..16]) && e[16..] == EncryptRc6(k, b[16..]);
      DecryptBlock16OfEncryptBlock16(k, b[..16]);
      DecryptRc6OfEncryptRc6(k, b[16..]);
      assert b == b[..16] + b[16..];
    } else {
      DecryptRc5OfEncryptRc5(k, b);
    }
  }

  // -------------------------------------------------- the encryption, operator by operator

  lemma WordOperators(x: bv32, y: bv32, u: bv16, v: bv16)
    ensures Plus32(x, y) == x + y && Xor32(x, y) == x ^ y
    ensures Plus16(u, v) == u + v && Xor16(u, v) == u ^ v
  {
  }

  /** Both RC5 blocks: add the first two table words, twelve rounds, mask with the serial key. */
  lemma Rc5BlocksInClear(k: Keys, p: Pair, h: Pair16)
    ensures var q := Rounds5(k.s5, 12, Pair(Plus32(p.a, k.s5[0]), Plus32(p.b, k.s5[1])));
      EncryptPair(k, p) == Pair(Xor32(q.a, k.serial), Xor32(q.b, k.serial))
    ensures var q := Rounds16(k.s5, 12, Pair16(Plus16(h.a, Low16(k.s5[0])), Plus16(h.b, Low16(k.s5[1]))));
      Encrypt16(k, h) == Pair16(Xor16(q.a, Low16(k.serial)), Xor16(q.b, Low16(k.serial)))
  {
    hide Rounds5, Rounds16, Low16, Plus32, Xor32, Plus16, Xor16;
  }

  /** The RC6 block: add the first two words to the second and fourth, forty rounds, add the last two
      table words to the first and third, mask with the serial key. */
  lemma Rc6BlockInClear(k: Keys, q: Quad)
    ensures var e := Rounds6(k.s6, 40, Quad(q.a, Plus32(q.b, k.s6[0]), q.c, Plus32(q.d, k.s6[1])));
      EncryptQuad(k, q) == Quad(Xor32(Plus32(e.a, k.s6[82]), k.serial), Xor32(e.b, k.serial),
                                Xor32(Plus32(e.c, k.s6[83]), k.serial), Xor32(e.d, k.serial))
  {
    hide Rounds6, Plus32, Xor32;
  }

  lemma QuadraticSamples()
    ensures Quadratic(0x89AB_CDEF) == 0x7223_0635 && Quadratic(0x7654_3210) == 0xDD16_8217
  {
    assert Rotl32(0xAB91_1831, 5) == 0x7223_0635;
    assert (0x89AB_CDEF as bv32) * (2 * (0x89AB_CDEF as bv32) + 1) == 0xAB91_1831;
    assert Rotl32(0xBEE8_B410, 5) == 0xDD16_8217;
    assert (0x7654_3210 as bv32) * (2 * (0x7654_3210 as bv32) + 1) == 0xBEE8_B410;
  }

  /** One round of each block on one input, with the two table words that it uses. */
  lemma RoundSamples(s5: Schedule5, t5: Schedule5, s6: Schedule6)
    requires s5[2] == s6[2] == 0x1111_1111 && s5[3] == s6[3] == 0x2222_2222
    ensures Round5(s5, 1, Pair(0x0123_4567, 0x89AB_CDEF)) == Pair(0x5555_5555, 0x397D_C1F5)
    ensures Round16(s5, 1, Pair16(0x4567, 0xCDEF)) == Pair16(0x5555, 0x3975)
    ensures Round6(s6, 1, Quad(0x0123_4567, 0x89AB_CDEF, 0xFEDC_BA98, 0x7654_3210)) ==
            Quad(0x89AB_CDEF, 0x3406_9B69, 0x7654_3210, 0xBA4A_9132)
  {
    hide Quadratic, Half, Half16, Low16;
    QuadraticSamples();
    HalfSamples();
  }

  lemma HalfSamples()
    ensures Half(0x0123_4567, 0x89AB_CDEF, 0x89AB_CDEF, 0x1111_1111) == 0x5555_5555
    ensures Half(0x89AB_CDEF, 0x5555_5555, 0x5555_5555, 0x2222_2222) == 0x397D_C1F5
    ensures Half(0x0123_4567, 0x7223_0635, 0xDD16_8217, 0x1111_1111) == 0xBA4A_9132
    ensures Half(0xFEDC_BA98, 0xDD16_8217, 0x7223_0635, 0x2222_2222) == 0x3406_9B69
    ensures Low16(0x1111_1111) == 0x1111 && Low16(0x2222_2222) == 0x2222
    ensures Half16(0x4567, 0xCDEF, 0x1111) == 0x5555 && Half16(0xCDEF, 0x5555, 0x2222) == 0x3975
  {
  }

  /** A block is its words one after the other. */
  lemma BlocksOfWords(k: Keys, a: bv32, b: bv32, c: bv32, d: bv32, x: bv16, y: bv16)
    ensures var p := Encrypt16(k, Pair16(x, y));
      EncryptBlock4(k, Bytes16(x) + Bytes16(y)) == Bytes16(p.a) + Bytes16(p.b)
    ensures var p := EncryptPair(k, Pair(a, b));
      EncryptBlock8(k, Bytes32(a) + Bytes32(b)) == Bytes32(p.a) + Bytes32(p.b)
    ensures var q := EncryptQuad(k, Quad(a, b, c, d));
      EncryptBlock16(k, Bytes32(a) + Bytes32(b) + Bytes32(c) + Bytes32(d)) ==
      Bytes32(q.a) + Bytes32(q.b) + Bytes32(q.c) + Bytes32(q.d)
  {
    hide Encrypt16, EncryptPair, EncryptQuad, Bytes16, Bytes32, Le16, Le32;
    var h, l, m := Bytes16(x) + Bytes16(y), Bytes32(a) + Bytes32(b), Bytes32(a) + Bytes32(b) + Bytes32(c) + Bytes32(d);
    assert h[..2] == Bytes16(x) && h[2..] == Bytes16(y);
    assert l[..4] == Bytes32(a) && l[4..] == Bytes32(b);
    assert m[..4] == Bytes32(a) && m[4..8] == Bytes32(b) && m[8..12] == Bytes32(c) && m[12..] == Bytes32(d);
  }

  /** A string is encrypted block by block, and so is what is left. */
  lemma RunsInClear(k: Keys, block: Bytes, rest: Bytes)
    ensures |block| == 16 ==> EncryptRc6(k, block + rest) == EncryptBlock16(k, block) + EncryptRc6(k, rest)
    ensures |block| == 8 ==> EncryptRc5(k, block + rest) == EncryptBlock8(k, block) + EncryptRc5(k, rest)
    ensures |block| == 4 && |rest| < 4 ==> EncryptRc5(k, block + rest) == EncryptBlock4(k, block) + rest
    ensures |rest| < 16 ==> EncryptRc6(k, rest) == EncryptRc5(k, rest)
    ensures |rest| < 4 ==> EncryptRc5(k, rest) == rest
  {
    hide EncryptBlock16, EncryptBlock8, EncryptBlock4;
    var n := |block|;
    assert (block + rest)[..n] == block && (block + rest)[n..] == rest;
  }
}
