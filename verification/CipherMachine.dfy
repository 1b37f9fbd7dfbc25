/** The packet ciphers as they run: key tables and the serial key are shared by
    every cipher object, and blocks are rewritten in the caller's buffers. */
module CipherMachine {
  import opened Words
  import opened Cipher
  import opened KeySchedule

  /** An index that the dispatch table has no entry for. */
  datatype ChangeResult = Changed | UnknownType

  /** The cipher types with an entry in the dispatch table, and its family for each. */
  const CRYPT_TYPES := 5

  function FamilyOf(index: nat): Family
    requires index < CRYPT_TYPES
  {
    if index < 3 then Rc5 else Rc6
  }

  // ------------------------------------------------- promoted 16-bit arithmetic

  // 16-bit words are promoted before they are added or XORed; the 4-byte encryption
  // keeps the promoted values and truncates them only to rotate or to store.

  function Promote(x: bv16): bv32 {
    x as bv32
  }

  /** The rotation amount a promoted word gives. */
  function Nibble(y: bv32): bv16 {
    Low16(y & 0x0F)
  }

  lemma PromotedSum(x: bv16, y: bv16)
    ensures Low16(Plus32(Promote(x), Promote(y))) == Plus16(x, y)
  {
    assert Low16(Promote(x) + Promote(y)) == Plus16(x, y);
  }

  lemma TruncatedXor(x: bv32, y: bv32)
    ensures Low16(Xor32(x, y)) == Xor16(Low16(x), Low16(y))
  {
  }

  lemma TruncatedPromotion(x: bv16)
    ensures Low16(Promote(x)) == x
  {
  }

  lemma NibbleAmount(x: bv16, y: bv32)
    ensures Rotl16(x, Nibble(y)) == Rotl16(x, Low16(y))
  {
    hide RotlBy16;
    assert Nibble(y) & 15 == Low16(y) & 15;
  }

  /** One half-round on promoted words. */
  function PromotedHalf(x: bv32, y: bv32, key: bv16): bv32 {
    Plus32(Promote(Rotl16(Low16(Xor32(x, y)), Nibble(y))), Promote(key))
  }

  /** It is the 16-bit half-round on the truncated words, whatever the high bits hold. */
  lemma PromotedHalfValue(x: bv32, y: bv32, key: bv16)
    ensures Low16(PromotedHalf(x, y, key)) == Half16(Low16(x), Low16(y), key)
  {
    hide Low16, Promote, Nibble, Rotl16, Plus16, Xor16, Plus32, Xor32;
    TruncatedXor(x, y);
    NibbleAmount(Low16(Xor32(x, y)), y);
    PromotedSum(Rotl16(Low16(Xor32(x, y)), Nibble(y)), key);
  }

  // ------------------------------------------------------------ shared tables

  /** The static members of the cipher class: one key schedule of each family,
      the 16-bit copy of the RC5 schedule and the serial key. */
  class Tables {
    const us5: array<bv16>
    const ui5: array<bv32>
    const ui6: array<bv32>
    var serial: bv32

    ghost predicate Valid()
      reads this
    {
      us5.Length == RC5_TABLE && ui5.Length == RC5_TABLE && ui6.Length == RC6_TABLE && ui5 != ui6
    }

    /** The serial key and the RC5 tables are those of `k`, the 16-bit table modulo 2^16. */
    ghost predicate Holds5(k: Keys)
      reads this, us5, ui5
      requires Valid()
    {
      && serial == k.serial
      && ui5[..] == k.s5
      && forall i :: 0 <= i < RC5_TABLE ==> us5[i] == Low16(k.s5[i])
    }

    ghost predicate Holds6(k: Keys)
      reads this, ui6
      requires Valid()
    {
      serial == k.serial && ui6[..] == k.s6
    }

    /** The tables an object of the family reads are those of `k`. */
    ghost predicate Holds(f: Family, k: Keys)
      reads this, us5, ui5, ui6
      requires Valid()
    {
      if f.Rc5? then Holds5(k) else Holds6(k)
    }

    /** An object of the family may be used: its tables belong to the current serial key. */
    ghost predicate Ready(f: Family)
      reads this, us5, ui5, ui6
      requires Valid()
    {
      Holds(f, KeysOf(serial))
    }

    constructor ()
      ensures Valid() && serial == 0
      ensures fresh(us5) && fresh(ui5) && fresh(ui6)
    {
      us5 := new bv16[RC5_TABLE](i => 0);
      ui5 := new bv32[RC5_TABLE](i => 0);
      ui6 := new bv32[RC6_TABLE](i => 0);
      serial := 0;
    }

    /** Pack the base key, salted with the serial key, into words. */
    method PackKey(f: Family) returns (l: array<bv32>)
      ensures fresh(l) && l[..] == KeyWords(f, serial)
    {
      hide Absorb, Bytes32, Packed, BaseKey, KeyWords;
      var key := BaseKey(f);
      var salt := Bytes32(serial);
      l := new bv32[KeyLength(f)](i => 0);
      var j, i := |key| - 1, 0;
      PackStart(f, serial);
      assert l[..] == Packed(key, serial, j);
      while j >= 0
        invariant -1 <= j < |key|
        invariant i == (|key| - 1 - j) % 4
        invariant l[..] == Packed(key, serial, j)
      {
        PackStep(key, serial, j);
        l[j / 4] := Absorb(l[j / 4], key[j], salt[i]);
        j, i := j - 1, (i + 1) % 4;
      }
      PackEnd(f, serial);
    }

    /** The arithmetic progression the mixing of the RC5 tables starts from. */
    method Fill5()
      requires Valid()
      modifies us5, ui5
      ensures ui5[..] == InitialTable(Rc5)
      ensures forall i :: 0 <= i < RC5_TABLE ==> us5[i] == Low16(ui5[i])
    {
      hide Low16, Plus32;
      us5[0], ui5[0] := Low16(P16), P16;
      for j := 1 to RC5_TABLE
        invariant ui5[..j] == Progression(P16, Q16, j)
        invariant forall i :: 0 <= i < j ==> us5[i] == Low16(ui5[i])
      {
        ProgressionGrows(P16, Q16, j);
        ui5[j] := Plus32(ui5[j - 1], Q16);
        us5[j] := Low16(ui5[j]);
        assert ui5[..j + 1] == ui5[..j] + [ui5[j]];
      }
      assert ui5[..] == ui5[..RC5_TABLE];
    }

    /** Rebuild the RC5 tables from the serial key, whatever they held. */
    method KeySetup5()
      requires Valid()
      modifies us5, ui5
      ensures Ready(Rc5)
    {
      hide Low16, KeysOf, Mix, MixTableWord, MixKeyWord, KeyWords, InitialTable;
      var words := PackKey(Rc5);
      Fill5();
      var a: bv32, b: bv32, j: nat, k: nat := 0, 0, 0, 0;
      ghost var start := InitialMixer(Rc5, serial);
      MixBegins(Rc5, start);
      for n := 0 to 3 * RC5_TABLE
        invariant j < RC5_TABLE && k < words.Length == 4
        invariant Mixer(ui5[..], words[..], a, b, j, k) == Mix(Rc5, n, start)
        invariant forall i :: 0 <= i < RC5_TABLE ==> us5[i] == Low16(ui5[i])
      {
        MixContinues(Rc5, n, start);
        a := MixTableWord(ui5[j], a, b);
        ui5[j] := a;
        us5[j] := Low16(a);
        b := MixKeyWord(words[k], a, b);
        words[k] := b;
        j := (j + 1) % 2 * 13;
        k := (k + 1) % 4;
      }
      TableOfMix(Rc5, serial, 3 * RC5_TABLE);
    }

    method Fill6()
      requires Valid()
      modifies ui6
      ensures ui6[..] == InitialTable(Rc6)
    {
      hide Plus32;
      ui6[0] := P32;
      for j := 1 to RC6_TABLE
        invariant ui6[..j] == Progression(P32, Q32, j)
      {
        ProgressionGrows(P32, Q32, j);
        ui6[j] := Plus32(ui6[j - 1], Q32);
        assert ui6[..j + 1] == ui6[..j] + [ui6[j]];
      }
      assert ui6[..] == ui6[..RC6_TABLE];
    }

    /** Rebuild the RC6 table from the serial key, whatever it held. */
    method KeySetup6()
      requires Valid()
      modifies ui6
      ensures Ready(Rc6)
    {
      hide KeysOf, Mix, MixTableWord, MixKeyWord, KeyWords, InitialTable;
      var words := PackKey(Rc6);
      Fill6();
      var a: bv32, b: bv32, j: nat, k: nat := 0, 0, 0, 0;
      ghost var start := InitialMixer(Rc6, serial);
      MixBegins(Rc6, start);
      for n := 0 to 3 * RC6_TABLE
        invariant j < RC6_TABLE && k < words.Length == 8
        invariant Mixer(ui6[..], words[..], a, b, j, k) == Mix(Rc6, n, start)
      {
        MixContinues(Rc6, n, start);
        a := MixTableWord(ui6[j], a, b);
        ui6[j] := a;
        b := MixKeyWord(words[k], a, b);
        words[k] := b;
        j := (j + 1) % RC6_TABLE;
        k := (k + 1) % 8;
      }
      TableOfMix(Rc6, serial, 3 * RC6_TABLE);
    }
  }

  // ----------------------------------------------------------------- buffers

  /** `s` with the bytes from `at` on overwritten by `b`. */
  function Splice(s: Bytes, at: nat, b: Bytes): (r: Bytes)
    requires at + |b| <= |s|
    ensures |r| == |s|
  {
    s[..at] + b + s[at + |b|..]
  }

  /** While a range is rewritten front to back, the part still to be read is the
      source's own, also when source and target are the same buffer. */
  lemma ReadAhead(before: Bytes, at: nat, done: Bytes, source: Bytes, from: nat, len: nat, n: nat,
                  now: Bytes, inPlace: bool)
    requires at + len <= |before| && from + len <= |source| && |done| + n <= len
    requires if inPlace then at == from && source == before && now == Splice(before, at, done) else now == source
    ensures now[from + |done|..from + |done| + n] == source[from..from + len][|done|..][..n]
  {
  }

  lemma MoreDone(done: Bytes, out: Bytes, rest: Bytes)
    ensures done + (out + rest) == done + out + rest
  {
  }

  lemma SpliceNothing(s: Bytes, at: nat)
    requires at <= |s|
    ensures Splice(s, at, []) == s
  {
  }

  lemma SpliceAppend(s: Bytes, at: nat, b: Bytes, c: Bytes)
    requires at + |b| + |c| <= |s|
    ensures Splice(Splice(s, at, b), at + |b|, c) == Splice(s, at, b + c)
  {
    var r := Splice(s, at, b);
    assert r[..at + |b|] == s[..at] + b;
    assert r[at + |b| + |c|..] == s[at + |b| + |c|..];
  }

  lemma SpliceOver(s: Bytes, at: nat, b: Bytes, c: Bytes)
    requires at + |b| <= |s| && |c| <= |b|
    ensures Splice(Splice(s, at, b), at, c) == Splice(s, at, c + b[|c|..])
  {
    var r := Splice(s, at, b);
    assert r[..at] == s[..at];
    assert r[at + |c|..] == b[|c|..] + s[at + |b|..];
  }

  /** Overwrite part of a buffer. */
  method Store(dst: array<bv8>, at: nat, b: Bytes)
    requires at + |b| <= dst.Length
    modifies dst
    ensures dst[..] == Splice(old(dst[..]), at, b)
  {
    forall i | 0 <= i < |b| {
      dst[at + i] := b[i];
    }
  }

  // The two directions of a cipher share their buffer loops.

  function RunBlock8(encrypt: bool, k: Keys, b: Bytes): (r: Bytes)
    requires |b| == 8
    ensures |r| == 8
  {
    if encrypt then EncryptBlock8(k, b) else DecryptBlock8(k, b)
  }

  function RunBlock16(encrypt: bool, k: Keys, b: Bytes): (r: Bytes)
    requires |b| == 16
    ensures |r| == 16
  {
    if encrypt then EncryptBlock16(k, b) else DecryptBlock16(k, b)
  }

  function RunRc5(encrypt: bool, k: Keys, b: Bytes): (r: Bytes)
    ensures |r| == |b|
  {
    if encrypt then EncryptRc5(k, b) else DecryptRc5(k, b)
  }

  function RunRc6(encrypt: bool, k: Keys, b: Bytes): (r: Bytes)
    ensures |r| == |b|
  {
    if encrypt then EncryptRc6(k, b) else DecryptRc6(k, b)
  }

  lemma RunRc5Step(encrypt: bool, k: Keys, b: Bytes)
    requires |b| >= 8
    ensures RunRc5(encrypt, k, b) == RunBlock8(encrypt, k, b[..8]) + RunRc5(encrypt, k, b[8..])
  {
    hide EncryptBlock8, DecryptBlock8;
  }

  lemma RunRc6Step(encrypt: bool, k: Keys, b: Bytes)
    requires |b| >= 16
    ensures RunRc6(encrypt, k, b) == RunBlock16(encrypt, k, b[..16]) + RunRc6(encrypt, k, b[16..])
  {
    hide EncryptBlock16, DecryptBlock16;
  }

  lemma RunRc6Tail(encrypt: bool, k: Keys, b: Bytes)
    requires |b| < 16
    ensures RunRc6(encrypt, k, b) == RunRc5(encrypt, k, b)
  {
    hide EncryptRc5, DecryptRc5;
  }

  // ------------------------------------------------------------ cipher objects

  /** A cipher object: the family it was switched to, over the shared tables. */
  class Crypt {
    const tables: Tables
    var family: Family

    ghost predicate Valid()
      reads this, tables
    {
      tables.Valid()
    }

    /** An index outside the dispatch table falls back to RC5. */
    constructor (tables: Tables, index: nat, key: bv32)
      requires tables.Valid()
      modifies tables, tables.us5, tables.ui5, tables.ui6
      ensures this.tables == tables && Valid()
      ensures tables.serial == key && tables.Ready(family)
      ensures family == if index == 3 || index == 4 then Rc6 else Rc5
    {
      this.tables := tables;
      family := Rc5;
      new;
      var r := ChangeType(index, key);
      if r.UnknownType? {
        r := ChangeType(1, key);
      }
    }

    method ChangeType(index: nat, key: bv32) returns (r: ChangeResult)
      requires Valid()
      modifies this, tables, tables.us5, tables.ui5, tables.ui6
      ensures Valid()
      ensures r.Changed? <==> index < CRYPT_TYPES
      ensures r.Changed? ==> family == (if index <= 2 then Rc5 else Rc6) && tables.serial == key && tables.Ready(family)
      ensures r.UnknownType? ==> unchanged(this) && unchanged(tables)
      ensures r.UnknownType? ==> unchanged(tables.us5) && unchanged(tables.ui5) && unchanged(tables.ui6)
    {
      if index >= CRYPT_TYPES {
        return UnknownType;
      }
      family := FamilyOf(index);
      Setup(key);
      return Changed;
    }

    method Setup(key: bv32)
      requires Valid()
      modifies tables, tables.us5, tables.ui5, tables.ui6
      ensures Valid() && tables.serial == key && tables.Ready(family)
    {
      tables.serial := key;
      if family.Rc5? {
        tables.KeySetup5();
      } else {
        tables.KeySetup6();
      }
    }

    // ---------------------------------------------------------- single blocks

    /** The 4-byte block, with its words promoted between the rounds. */
    method EncryptWords16(ghost k: Keys, x: bv16, y: bv16) returns (p: Pair16)
      requires Valid() && tables.Holds5(k)
      ensures p == Encrypt16(k, Pair16(x, y))
    {
      hide Low16, Promote, PromotedHalf, Half16, Plus16, Xor16, Plus32, Xor32;
      var key := 2;
      var a, b := Plus32(Promote(x), Promote(tables.us5[0])), Plus32(Promote(y), Promote(tables.us5[1]));
      PromotedSum(x, tables.us5[0]);
      PromotedSum(y, tables.us5[1]);
      ghost var start := Pair16(Plus16(x, Low16(k.s5[0])), Plus16(y, Low16(k.s5[1])));
      for round := 0 to RC5_ROUNDS
        invariant key == 2 + 2 * round
        invariant Pair16(Low16(a), Low16(b)) == Rounds16(k.s5, round, start)
      {
        PromotedHalfValue(a, b, tables.us5[key]);
        a := PromotedHalf(a, b, tables.us5[key]);
        PromotedHalfValue(b, a, tables.us5[key + 1]);
        b := PromotedHalf(b, a, tables.us5[key + 1]);
        key := key + 2;
      }
      var mask := Promote(Low16(tables.serial));
      TruncatedXor(a, mask);
      TruncatedXor(b, mask);
      TruncatedPromotion(Low16(tables.serial));
      p := Pair16(Low16(Xor32(a, mask)), Low16(Xor32(b, mask)));
    }

    method DecryptWords16(ghost k: Keys, x: bv16, y: bv16) returns (p: Pair16)
      requires Valid() && tables.Holds5(k)
      ensures p == Decrypt16(k, Pair16(x, y))
    {
      hide Low16, Rotr16, Minus16, Xor16;
      var a, b := Xor16(x, Low16(tables.serial)), Xor16(y, Low16(tables.serial));
      ghost var start := Pair16(a, b);
      var key := RC5_TABLE;
      for round := RC5_ROUNDS downto 0
        invariant key == 2 + 2 * round
        invariant Unrounds16(k.s5, round, Pair16(a, b)) == Unrounds16(k.s5, RC5_ROUNDS, start)
      {
        b := Xor16(Rotr16(Minus16(b, tables.us5[key - 1]), a), a);
        a := Xor16(Rotr16(Minus16(a, tables.us5[key - 2]), b), b);
        key := key - 2;
      }
      p := Pair16(Minus16(a, tables.us5[0]), Minus16(b, tables.us5[1]));
    }

    method EncryptWords(ghost k: Keys, p: Pair) returns (q: Pair)
      requires Valid() && tables.Holds5(k)
      ensures q == EncryptPair(k, p)
    {
      hide Rotl32, Plus32, Xor32;
      var a, b := Plus32(p.a, tables.ui5[0]), Plus32(p.b, tables.ui5[1]);
      ghost var start := Pair(a, b);
      for j := 1 to RC5_ROUNDS + 1
        invariant Pair(a, b) == Rounds5(k.s5, j - 1, start)
      {
        a := Plus32(Rotl32(Xor32(a, b), b), tables.ui5[2 * j]);
        b := Plus32(Rotl32(Xor32(b, a), a), tables.ui5[2 * j + 1]);
      }
      q := Pair(Xor32(a, tables.serial), Xor32(b, tables.serial));
    }

    method DecryptWords(ghost k: Keys, p: Pair) returns (q: Pair)
      requires Valid() && tables.Holds5(k)
      ensures q == DecryptPair(k, p)
    {
      hide Rotr32, Minus32, Xor32;
      var a, b := Xor32(p.a, tables.serial), Xor32(p.b, tables.serial);
      ghost var start := Pair(a, b);
      var j := RC5_ROUNDS;
      while j > 0
        invariant 0 <= j <= RC5_ROUNDS
        invariant Unrounds5(k.s5, j, Pair(a, b)) == Unrounds5(k.s5, RC5_ROUNDS, start)
      {
        b := Xor32(Rotr32(Minus32(b, tables.ui5[2 * j + 1]), a), a);
        a := Xor32(Rotr32(Minus32(a, tables.ui5[2 * j]), b), b);
        j := j - 1;
      }
      q := Pair(Minus32(a, tables.ui5[0]), Minus32(b, tables.ui5[1]));
    }

    method EncryptWords6(ghost k: Keys, p: Quad) returns (q: Quad)
      requires Valid() && tables.Holds6(k)
      ensures q == EncryptQuad(k, p)
    {
      hide Rotl32, Plus32, Xor32, Quadratic;
      var a, b, c, d := p.a, Plus32(p.b, tables.ui6[0]), p.c, Plus32(p.d, tables.ui6[1]);
      ghost var start := Quad(a, b, c, d);
      for j := 1 to RC6_ROUNDS + 1
        invariant Quad(a, b, c, d) == Rounds6(k.s6, j - 1, start)
      {
        var t, u := Quadratic(b), Quadratic(d);
        a := Plus32(Rotl32(Xor32(a, t), u), tables.ui6[2 * j]);
        c := Plus32(Rotl32(Xor32(c, u), t), tables.ui6[2 * j + 1]);
        a, b, c, d := b, c, d, a;
      }
      q := Quad(Xor32(Plus32(a, tables.ui6[82]), tables.serial), Xor32(b, tables.serial),
                Xor32(Plus32(c, tables.ui6[83]), tables.serial), Xor32(d, tables.serial));
    }

    method DecryptWords6(ghost k: Keys, p: Quad) returns (q: Quad)
      requires Valid() && tables.Holds6(k)
      ensures q == DecryptQuad(k, p)
    {
      hide Rotr32, Minus32, Xor32, Quadratic;
      var a, b := Minus32(Xor32(p.a, tables.serial), tables.ui6[82]), Xor32(p.b, tables.serial);
      var c, d := Minus32(Xor32(p.c, tables.serial), tables.ui6[83]), Xor32(p.d, tables.serial);
      ghost var start := Quad(a, b, c, d);
      var j := RC6_ROUNDS;
      while j > 0
        invariant 0 <= j <= RC6_ROUNDS
        invariant Unrounds6(k.s6, j, Quad(a, b, c, d)) == Unrounds6(k.s6, RC6_ROUNDS, start)
      {
        a, b, c, d := d, a, b, c;
        var u, t := Quadratic(d), Quadratic(b);
        c := Xor32(Rotr32(Minus32(c, tables.ui6[2 * j + 1]), t), u);
        a := Xor32(Rotr32(Minus32(a, tables.ui6[2 * j]), u), t);
        j := j - 1;
      }
      q := Quad(a, Minus32(b, tables.ui6[0]), c, Minus32(d, tables.ui6[1]));
    }

    // ---------------------------------------------------------------- buffers

    // A run reads `len` bytes of `src` and writes as many to `dst`; the two places
    // are the same or in different buffers.

    /** The 4-byte cipher. The callers leave it fewer than eight bytes, so its loop
        runs at most once; the bytes after the block are copied. */
    method RunTail(ghost k: Keys, encrypt: bool, src: array<bv8>, from: nat, dst: array<bv8>, at: nat, len: nat)
      requires Valid() && tables.Holds5(k) && len < 8
      requires from + len <= src.Length && at + len <= dst.Length && (src == dst ==> from == at)
      modifies dst
      ensures dst[..] == Splice(old(dst[..]), at, RunRc5(encrypt, k, old(src[from..from + len])))
    {
      hide Le16, Bytes16, Encrypt16, Decrypt16;
      var b := src[from..from + len];
      ghost var before := dst[..];
      if src != dst {
        Store(dst, at, b);
      }
      assert dst[..] == Splice(before, at, b);
      if len >= 4 {
        var p: Pair16;
        if encrypt {
          p := EncryptWords16(k, Le16(b[..4][..2]), Le16(b[..4][2..]));
        } else {
          p := DecryptWords16(k, Le16(b[..4][..2]), Le16(b[..4][2..]));
        }
        SpliceOver(before, at, b, Bytes16(p.a) + Bytes16(p.b));
        Store(dst, at, Bytes16(p.a) + Bytes16(p.b));
      }
    }

    /** The 8-byte cipher, with the 4-byte cipher on what is left. */
    method Run5(ghost k: Keys, encrypt: bool, src: array<bv8>, from: nat, dst: array<bv8>, at: nat, len: nat)
      requires Valid() && tables.Holds5(k)
      requires from + len <= src.Length && at + len <= dst.Length && (src == dst ==> from == at)
      modifies dst
      ensures dst[..] == Splice(old(dst[..]), at, RunRc5(encrypt, k, old(src[from..from + len])))
    {
      hide RunBlock8, RunRc5, Splice;
      ghost var source, input, before, done := src[..], src[from..from + len], dst[..], [];
      SpliceNothing(before, at);
      var i := 0;
      while len - i >= 8
        invariant i <= len && |done| == i
        invariant dst[..] == Splice(before, at, done)
        invariant src != dst ==> src[..] == source
        invariant done + RunRc5(encrypt, k, input[i..]) == RunRc5(encrypt, k, input)
      {
        ReadAhead(before, at, done, source, from, len, 8, src[..], src == dst);
        var block := src[from + i..from + i + 8];
        assert block == input[i..][..8] && input[i..][8..] == input[i + 8..];
        var out := RunOneBlock8(k, encrypt, block);
        RunRc5Step(encrypt, k, input[i..]);
        MoreDone(done, out, RunRc5(encrypt, k, input[i + 8..]));
        SpliceAppend(before, at, done, out);
        Store(dst, at + i, out);
        done := done + out;
        i := i + 8;
      }
      if len - i != 0 {
        ReadAhead(before, at, done, source, from, len, len - i, src[..], src == dst);
        assert input[i..][..len - i] == input[i..];
        RunTail(k, encrypt, src, from + i, dst, at + i, len - i);
        SpliceAppend(before, at, done, RunRc5(encrypt, k, input[i..]));
      } else {
        assert input[i..] == [] && done + RunRc5(encrypt, k, input[i..]) == done;
      }
    }

    method RunOneBlock8(ghost k: Keys, encrypt: bool, b: Bytes) returns (out: Bytes)
      requires Valid() && tables.Holds5(k) && |b| == 8
      ensures out == RunBlock8(encrypt, k, b)
    {
      hide Le32, Bytes32, EncryptPair, DecryptPair;
      var p: Pair;
      if encrypt {
        p := EncryptWords(k, Pair(Le32(b[..4]), Le32(b[4..])));
      } else {
        p := DecryptWords(k, Pair(Le32(b[..4]), Le32(b[4..])));
      }
      out := Bytes32(p.a) + Bytes32(p.b);
    }

    method RunOneBlock16(ghost k: Keys, encrypt: bool, b: Bytes) returns (out: Bytes)
      requires Valid() && tables.Holds6(k) && |b| == 16
      ensures out == RunBlock16(encrypt, k, b)
    {
      hide ReadQuad, QuadBytes, EncryptQuad, DecryptQuad;
      var q: Quad;
      if encrypt {
        q := EncryptWords6(k, ReadQuad(b));
      } else {
        q := DecryptWords6(k, ReadQuad(b));
      }
      out := QuadBytes(q);
    }

    /** The 16-byte blocks of a range; `i` bytes are done and `done` is what they became. */
    method RunBlocks6(ghost k: Keys, encrypt: bool, src: array<bv8>, from: nat, dst: array<bv8>, at: nat, len: nat)
      returns (i: nat, ghost done: Bytes)
      requires Valid() && tables.Holds6(k)
      requires from + len <= src.Length && at + len <= dst.Length && (src == dst ==> from == at)
      modifies dst
      ensures i <= len < i + 16 && |done| == i
      ensures dst[..] == Splice(old(dst[..]), at, done)
      ensures src != dst ==> src[..] == old(src[..])
      ensures var input := old(src[from..from + len]);
        done + RunRc6(encrypt, k, input[i..]) == RunRc6(encrypt, k, input)
    {
      hide RunBlock16, RunRc6, Splice;
      ghost var source, input, before := src[..], src[from..from + len], dst[..];
      done := [];
      SpliceNothing(before, at);
      i := 0;
      while len - i >= 16
        invariant i <= len && |done| == i
        invariant dst[..] == Splice(before, at, done)
        invariant src != dst ==> src[..] == source
        invariant done + RunRc6(encrypt, k, input[i..]) == RunRc6(encrypt, k, input)
      {
        ReadAhead(before, at, done, source, from, len, 16, src[..], src == dst);
        var block := src[from + i..from + i + 16];
        assert block == input[i..][..16] && input[i..][16..] == input[i + 16..];
        var out := RunOneBlock16(k, encrypt, block);
        RunRc6Step(encrypt, k, input[i..]);
        MoreDone(done, out, RunRc6(encrypt, k, input[i + 16..]));
        SpliceAppend(before, at, done, out);
        Store(dst, at + i, out);
        done := done + out;
        i := i + 16;
      }
    }

    /** The 16-byte cipher. What is left goes through RC5, whose tables are rebuilt first. */
    method Run6(ghost k: Keys, encrypt: bool, src: array<bv8>, from: nat, dst: array<bv8>, at: nat, len: nat)
      requires Valid() && tables.Holds6(k) && k == KeysOf(tables.serial)
      requires from + len <= src.Length && at + len <= dst.Length && (src == dst ==> from == at)
      modifies dst, tables.us5, tables.ui5
      ensures old(tables.Holds5(k)) ==> tables.Holds5(k)
      ensures dst[..] == Splice(old(dst[..]), at, RunRc6(encrypt, k, old(src[from..from + len])))
    {
      hide RunRc5, RunRc6, Splice, KeysOf;
      ghost var source, input, before := src[..], src[from..from + len], dst[..];
      var i;
      ghost var done;
      i, done := RunBlocks6(k, encrypt, src, from, dst, at, len);
      RunRc6Tail(encrypt, k, input[i..]);
      if len - i != 0 {
        tables.KeySetup5();
        ReadAhead(before, at, done, source, from, len, len - i, src[..], src == dst);
        assert input[i..][..len - i] == input[i..];
        Run5(k, encrypt, src, from + i, dst, at + i, len - i);
        SpliceAppend(before, at, done, RunRc5(encrypt, k, input[i..]));
      } else {
        assert input[i..] == [] && done + RunRc5(encrypt, k, input[i..]) == done;
      }
    }

    /** Encrypt a range. What it becomes depends on the family, the serial key and the
        bytes alone, and tables that were up to date stay so. */
    method Encrypt(src: array<bv8>, from: nat, dst: array<bv8>, at: nat, len: nat) returns (ok: bool)
      requires Valid() && tables.Ready(family)
      requires from + len <= src.Length && at + len <= dst.Length && (src == dst ==> from == at)
      modifies dst, tables.us5, tables.ui5
      ensures ok && (forall f: Family :: old(tables.Ready(f)) ==> tables.Ready(f))
      ensures dst[..] == Splice(old(dst[..]), at, Encrypted(family, tables.serial, old(src[from..from + len])))
    {
      hide EncryptRc5, EncryptRc6, Splice, KeysOf;
      if family.Rc5? {
        Run5(KeysOf(tables.serial), true, src, from, dst, at, len);
      } else {
        Run6(KeysOf(tables.serial), true, src, from, dst, at, len);
      }
      ok := true;
    }

    method Decrypt(src: array<bv8>, from: nat, dst: array<bv8>, at: nat, len: nat) returns (ok: bool)
      requires Valid() && tables.Ready(family)
      requires from + len <= src.Length && at + len <= dst.Length && (src == dst ==> from == at)
      modifies dst, tables.us5, tables.ui5
      ensures ok && (forall f: Family :: old(tables.Ready(f)) ==> tables.Ready(f))
      ensures dst[..] == Splice(old(dst[..]), at, Decrypted(family, tables.serial, old(src[from..from + len])))
    {
      hide DecryptRc5, DecryptRc6, Splice, KeysOf;
      if family.Rc5? {
        Run5(KeysOf(tables.serial), false, src, from, dst, at, len);
      } else {
        Run6(KeysOf(tables.serial), false, src, from, dst, at, len);
      }
      ok := true;
    }
  }

  /** How far, from the top, key word `w` is packed when the bytes above `j` have been absorbed. */
  function Absorbed(j: int, w: nat): nat
    requires j >= -1
  {
    if 4 * w > j then 0 else if 4 * w + 3 <= j then 4 else j + 1 - 4 * w
  }

  function Packed(key: Bytes, serial: bv32, j: int): (l: seq<bv32>)
    requires -1 <= j
    ensures |l| == |key| / 4
  {
    seq(|key| / 4, w requires 0 <= w < |key| / 4 => KeyWordFrom(key, serial, w, Absorbed(j, w)))
  }

  lemma PackStart(f: Family, serial: bv32)
    ensures Packed(BaseKey(f), serial, |BaseKey(f)| - 1) == seq(KeyLength(f), i => 0)
  {
  }

  lemma PackEnd(f: Family, serial: bv32)
    ensures Packed(BaseKey(f), serial, -1) == KeyWords(f, serial)
  {
    hide KeyWordFrom;
  }

  /** Going down one byte absorbs one more byte of one word, and none of the others. */
  lemma AbsorbedStep(j: nat, w: nat)
    ensures Absorbed(j, w) == Absorbed(j - 1, w) + if w == j / 4 then 1 else 0
    ensures w == j / 4 ==> Absorbed(j, w) == j % 4 + 1
  {
  }

  lemma PackStep(key: Bytes, serial: bv32, j: nat)
    requires j < |key| && |key| % 4 == 0
    ensures j / 4 < |key| / 4 && (|key| - 1 - j) % 4 == 3 - j % 4
    ensures Packed(key, serial, j - 1)
         == var l := Packed(key, serial, j); l[j / 4 := Absorb(l[j / 4], key[j], Bytes32(serial)[3 - j % 4])]
  {
    hide Absorb, Bytes32, Absorbed;
    var w0, r := j / 4, j % 4;
    assert j == 4 * w0 + r && 4 * w0 + 4 <= |key|;
    forall w: nat ensures Absorbed(j, w) == Absorbed(j - 1, w) + if w == w0 then 1 else 0 {
      AbsorbedStep(j, w);
    }
    AbsorbedStep(j, w0);
    assert KeyWordFrom(key, serial, w0, r)
        == Absorb(KeyWordFrom(key, serial, w0, r + 1), key[4 * w0 + r], Bytes32(serial)[3 - r]);
  }
}
