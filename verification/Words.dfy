/** A byte and its number. */
module Octets {

  /** The byte of a number, counted up so that no conversion into a bit vector is needed. */
  function ByteOf(n: nat): (b: bv8)
    requires n < 256
    ensures b as nat == n
  {
    if n == 0 then 0
    else
      Successor(ByteOf(n - 1));
      ByteOf(n - 1) + 1
  }

  lemma Successor(b: bv8)
    requires b != 255
    ensures (b + 1) as nat == b as nat + 1
  {
  }

  lemma SameNumber(x: bv8, y: bv8)
    requires x as nat == y as nat
    ensures x == y
  {
  }
}

/** Machine words: rotations, truncation and the little-endian byte layout that
    the ciphers and the wire formats share. */
module Words {
  import opened Octets

  type Bytes = seq<bv8>

  // ---------------------------------------------------------------- rotations

  function RotlBy(x: bv32, k: bv32): bv32
    requires k < 32
  {
    (x << k) | (x >> (32 - k))
  }

  function RotrBy(x: bv32, k: bv32): bv32
    requires k < 32
  {
    (x >> k) | (x << (32 - k))
  }

  /** `std::rotl` and `std::rotr` on 32 bits: only the low five bits of the amount matter. */
  function Rotl32(x: bv32, s: bv32): bv32 {
    RotlBy(x, s & 31)
  }

  function Rotr32(x: bv32, s: bv32): bv32 {
    RotrBy(x, s & 31)
  }

  function RotlBy16(x: bv16, k: bv16): bv16
    requires k < 16
  {
    (x << k) | (x >> (16 - k))
  }

  function RotrBy16(x: bv16, k: bv16): bv16
    requires k < 16
  {
    (x >> k) | (x << (16 - k))
  }

  function Rotl16(x: bv16, s: bv16): bv16 {
    RotlBy16(x, s & 15)
  }

  function Rotr16(x: bv16, s: bv16): bv16 {
    RotrBy16(x, s & 15)
  }

  // The amounts are split into four ranges to keep each query small.
  lemma BackBelow8(x: bv32, k: bv32)
    requires k < 8
    ensures RotrBy(RotlBy(x, k), k) == x
  {
  }

  lemma BackBelow16(x: bv32, k: bv32)
    requires 8 <= k < 16
    ensures RotrBy(RotlBy(x, k), k) == x
  {
  }

  lemma BackBelow24(x: bv32, k: bv32)
    requires 16 <= k < 24
    ensures RotrBy(RotlBy(x, k), k) == x
  {
  }

  lemma BackBelow32(x: bv32, k: bv32)
    requires 24 <= k < 32
    ensures RotrBy(RotlBy(x, k), k) == x
  {
  }

  lemma RotationBack(x: bv32, k: bv32)
    requires k < 32
    ensures RotrBy(RotlBy(x, k), k) == x
  {
    if k < 8 {
      BackBelow8(x, k);
    } else if k < 16 {
      BackBelow16(x, k);
    } else if k < 24 {
      BackBelow24(x, k);
    } else {
      BackBelow32(x, k);
    }
  }

  lemma OppositeRotation(x: bv32, k: bv32)
    requires 0 < k < 32
    ensures RotlBy(x, k) == RotrBy(x, 32 - k)
    ensures RotrBy(x, k) == RotlBy(x, 32 - k)
  {
  }

  lemma RotationForth(x: bv32, k: bv32)
    requires k < 32
    ensures RotlBy(RotrBy(x, k), k) == x
  {
    if k != 0 {
      OppositeRotation(x, k);
      OppositeRotation(RotrBy(x, k), k);
      RotationBack(x, 32 - k);
    }
  }

  lemma Rotation32(x: bv32, s: bv32)
    ensures Rotr32(Rotl32(x, s), s) == x
  {
    hide RotlBy, RotrBy;
    RotationBack(x, s & 31);
  }

  lemma Rotation32Forth(x: bv32, s: bv32)
    ensures Rotl32(Rotr32(x, s), s) == x
  {
    hide RotlBy, RotrBy;
    RotationForth(x, s & 31);
  }

  lemma RotationBack16(x: bv16, k: bv16)
    requires k < 16
    ensures RotrBy16(RotlBy16(x, k), k) == x
  {
  }

  lemma Rotation16(x: bv16, s: bv16)
    ensures Rotr16(Rotl16(x, s), s) == x
  {
    hide RotlBy16, RotrBy16;
    RotationBack16(x, s & 15);
  }

  // --------------------------------------------------- arithmetic modulo 2^32

  // The word operators have names so that a proof about a cipher can hide their
  // bits and use only the laws below.

  function Plus32(x: bv32, y: bv32): bv32 { x + y }

  function Minus32(x: bv32, y: bv32): bv32 { x - y }

  function Xor32(x: bv32, y: bv32): bv32 { x ^ y }

  function Plus16(x: bv16, y: bv16): bv16 { x + y }

  function Minus16(x: bv16, y: bv16): bv16 { x - y }

  function Xor16(x: bv16, y: bv16): bv16 { x ^ y }

  lemma MinusOfPlus32(x: bv32, y: bv32)
    ensures Minus32(Plus32(x, y), y) == x
  {
    assert Minus32(x + y, y) == x;
  }

  lemma MinusOfPlus16(x: bv16, y: bv16)
    ensures Minus16(Plus16(x, y), y) == x
  {
    assert Minus16(x + y, y) == x;
  }

  lemma XorTwice32(x: bv32, y: bv32)
    ensures Xor32(Xor32(x, y), y) == x
  {
  }

  lemma XorTwice16(x: bv16, y: bv16)
    ensures Xor16(Xor16(x, y), y) == x
  {
  }

  // -------------------------------------------------------- truncation and bytes

  /** The conversion to `uint16_t`. */
  function Low16(w: bv32): bv16 {
    (w & 0xFFFF) as bv16
  }

  function Le32(b: Bytes): bv32
    requires |b| == 4
  {
    (b[0] as bv32) | ((b[1] as bv32) << 8) | ((b[2] as bv32) << 16) | ((b[3] as bv32) << 24)
  }

  function Bytes32(w: bv32): (b: Bytes)
    ensures |b| == 4
    ensures Le32(b) == w
  {
    [(w & 0xFF) as bv8, ((w >> 8) & 0xFF) as bv8, ((w >> 16) & 0xFF) as bv8, ((w >> 24) & 0xFF) as bv8]
  }

  function Le16(b: Bytes): bv16
    requires |b| == 2
  {
    (b[0] as bv16) | ((b[1] as bv16) << 8)
  }

  function Bytes16(w: bv16): (b: Bytes)
    ensures |b| == 2
    ensures Le16(b) == w
  {
    [(w & 0xFF) as bv8, ((w >> 8) & 0xFF) as bv8]
  }

  /** The first byte is the lowest. */
  lemma ByteOrder()
    ensures Le32([0x78, 0x56, 0x34, 0x12]) == 0x1234_5678 && Bytes32(0x1234_5678) == [0x78, 0x56, 0x34, 0x12]
    ensures Le16([0x34, 0x12]) == 0x1234 && Bytes16(0x1234) == [0x34, 0x12]
  {
  }

  lemma BytesOfLe32(b: Bytes)
    requires |b| == 4
    ensures Bytes32(Le32(b)) == b
  {
  }

  lemma BytesOfLe16(b: Bytes)
    requires |b| == 2
    ensures Bytes16(Le16(b)) == b
  {
  }

  // ------------------------------------------- little-endian unsigned numbers

  /** The number a little-endian byte string denotes. */
  function LeNat(b: Bytes): nat {
    if |b| == 0 then 0 else b[0] as nat + 256 * LeNat(b[1..])
  }

  function Pow256(k: nat): (p: nat)
    ensures p >= 1
  {
    if k == 0 then 1 else 256 * Pow256(k - 1)
  }

  lemma Pow256Of4()
    ensures Pow256(4) == 0x1_0000_0000
  {
    assert Pow256(2) == 0x1_0000;
  }

  /** The low `k` bytes of `n`, as storing a wider integer into `k` bytes does. */
  function NatBytes(n: nat, k: nat): (b: Bytes)
    ensures |b| == k
  {
    if k == 0 then [] else [ByteOf(n % 256)] + NatBytes(n / 256, k - 1)
  }

  lemma {:induction false} LeNatOfNatBytes(n: nat, k: nat)
    requires n < Pow256(k)
    ensures LeNat(NatBytes(n, k)) == n
  {
    if k > 0 {
      LeNatOfNatBytes(n / 256, k - 1);
      var b := NatBytes(n, k);
      assert b[1..] == NatBytes(n / 256, k - 1);
      assert b[0] == ByteOf(n % 256);
    }
  }

  lemma Multiple(d: nat, x: int)
    requires d > 0
    ensures x >= 1 ==> d * x >= d
    ensures x <= -1 ==> d * x + d <= 0
  {
  }

  /** The lowest digit of a number in base `n`, and the rest. */
  lemma LowDigit(low: nat, high: nat, n: nat)
    requires low < n
    ensures (low + n * high) % n == low && (low + n * high) / n == high
  {
    var w := low + n * high;
    assert w == n * (w / n) + w % n;
    assert n * (high - w / n) == w % n - low;
    Multiple(n, high - w / n);
  }

  lemma ModSplit(n: nat, p: nat)
    requires p >= 1
    ensures n % (256 * p) == n % 256 + 256 * ((n / 256) % p)
  {
    var q := n / 256;
    var d, small := 256 * p, n % 256 + 256 * (q % p);
    var big, left := n / d, n % d;
    assert q == p * (q / p) + q % p;
    assert n == d * (q / p) + small == d * big + left;
    assert d * (q / p - big) == left - small;
    Multiple(d, q / p - big);
  }

  /** Storing a number into `k` bytes keeps it modulo 256^k. */
  lemma {:induction false} LeNatOfCutBytes(n: nat, k: nat)
    ensures LeNat(NatBytes(n, k)) == n % Pow256(k)
  {
    if k > 0 {
      LeNatOfCutBytes(n / 256, k - 1);
      var b := NatBytes(n, k);
      assert b[1..] == NatBytes(n / 256, k - 1);
      assert b[0] == ByteOf(n % 256);
      ModSplit(n, Pow256(k - 1));
    }
  }

  lemma LeNatOfOne(b: Bytes)
    ensures LeNat(b) == if |b| == 0 then 0 else b[0] as nat + 256 * LeNat(b[1..])
  {
  }

  lemma LeNatOfFour(b: Bytes)
    requires |b| == 4
    ensures LeNat(b) == b[0] as nat + 256 * b[1] as nat + 65536 * b[2] as nat + 16777216 * b[3] as nat
  {
    hide LeNat;
    LeNatOfOne(b);
    LeNatOfOne(b[1..]);
    LeNatOfOne(b[2..]);
    LeNatOfOne(b[3..]);
    LeNatOfOne([]);
    assert b[1..][1..] == b[2..] && b[2..][1..] == b[3..] && b[3..][1..] == [];
  }

  lemma {:induction false} LeNatBound(b: Bytes)
    ensures LeNat(b) < Pow256(|b|)
  {
    if |b| > 0 {
      LeNatBound(b[1..]);
    }
  }

  lemma {:induction false} NatBytesOfLeNat(b: Bytes)
    ensures NatBytes(LeNat(b), |b|) == b
  {
    hide LeNat, ByteOf;
    LeNatOfOne(b);
    if |b| > 0 {
      var low, high := b[0] as nat, LeNat(b[1..]);
      NatBytesOfLeNat(b[1..]);
      LowDigit(low, high, 256);
      SameNumber(ByteOf(low), b[0]);
      assert NatBytes(low + 256 * high, |b|) == [ByteOf(low)] + NatBytes(high, |b| - 1);
      assert b == [b[0]] + b[1..];
    }
  }
}
