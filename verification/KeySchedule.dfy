/** The key expansions of the packet ciphers, as functions of the serial key alone. */
module KeySchedule {
  import opened Words
  import opened Cipher

  const RC5_KEY: Bytes := [0xc0, 0x58, 0x1e, 0x07, 0xd9, 0x39, 0x43, 0x12, 0x31, 0xd0, 0xce, 0x21, 0xdd, 0xaf, 0x90, 0xad]

  const RC6_KEY: Bytes := [
    0x55, 0x35, 0x34, 0xb1, 0x9f, 0x85, 0x46, 0x23, 0x46, 0x08, 0xb4, 0x75, 0xc3, 0xd4, 0x9e, 0x9c,
    0x66, 0x0d, 0xab, 0x76, 0x74, 0xe7, 0x74, 0xf1, 0x35, 0x4b, 0x53, 0xc7, 0x4d, 0xe6, 0x69, 0xfe]

  const P16: bv32 := 20835
  const Q16: bv32 := 31161
  const P32: bv32 := 3084996963
  const Q32: bv32 := 2654435769

  function BaseKey(f: Family): (key: Bytes)
    ensures |key| == 4 * KeyLength(f)
  {
    if f.Rc5? then RC5_KEY else RC6_KEY
  }

  function TableSize(f: Family): nat {
    if f.Rc5? then RC5_TABLE else RC6_TABLE
  }

  /** The number of 32-bit words in the base key. */
  function KeyLength(f: Family): nat {
    if f.Rc5? then 4 else 8
  }

  /** The conversion of a byte, read as `int8_t`, to 32 bits. */
  function SignExtend(b: bv8): bv32 {
    if b & 0x80 != 0 then (b as bv32) | 0xFFFF_FF00 else b as bv32
  }

  /** Shift a word left by a byte and add a key byte salted with a byte of the serial key. */
  function Absorb(word: bv32, key: bv8, salt: bv8): bv32 {
    (word << 8) + ((key as bv32) + SignExtend(salt))
  }

  /** The low `4 - from` bytes of key word `w`, most significant first: `from == 0` is the whole word. */
  function KeyWordFrom(key: Bytes, serial: bv32, w: nat, from: nat): bv32
    requires 4 * w + 4 <= |key| && from <= 4
    decreases 4 - from
  {
    if from == 4 then 0
    else Absorb(KeyWordFrom(key, serial, w, from + 1), key[4 * w + from], Bytes32(serial)[3 - from])
  }

  function KeyWords(f: Family, serial: bv32): (l: seq<bv32>)
    ensures |l| == KeyLength(f)
  {
    seq(KeyLength(f), w requires 0 <= w < KeyLength(f) => KeyWordFrom(BaseKey(f), serial, w, 0))
  }

  /** p, p + q, p + 2q, ... */
  function Progression(p: bv32, q: bv32, n: nat): (s: seq<bv32>)
    ensures |s| == n
  {
    if n == 0 then []
    else if n == 1 then [p]
    else var s := Progression(p, q, n - 1); s + [Plus32(s[n - 2], q)]
  }

  lemma {:induction false} ProgressionGrows(p: bv32, q: bv32, n: nat)
    requires n > 0
    ensures Progression(p, q, n + 1) == Progression(p, q, n) + [Plus32(Progression(p, q, n)[n - 1], q)]
  {
    hide Plus32;
  }

  /** The two constants a table is filled from. */
  function Magic(f: Family): (bv32, bv32) {
    if f.Rc5? then (P16, Q16) else (P32, Q32)
  }

  function InitialTable(f: Family): (s: seq<bv32>)
    ensures |s| == TableSize(f)
  {
    Progression(Magic(f).0, Magic(f).1, TableSize(f))
  }

  datatype Mixer = Mixer(s: seq<bv32>, l: seq<bv32>, a: bv32, b: bv32, j: nat, k: nat)

  predicate Fits(f: Family, m: Mixer) {
    |m.s| == TableSize(f) && |m.l| == KeyLength(f) && m.j < |m.s| && m.k < |m.l|
  }

  /** The next table index: RC5 goes back and forth between 0 and 13, RC6 goes round. */
  function NextSlot(f: Family, j: nat): nat {
    if f.Rc5? then (j + 1) % 2 * 13 else (j + 1) % RC6_TABLE
  }

  function MixTableWord(x: bv32, a: bv32, b: bv32): bv32 {
    Rotl32(x + a + b, 3)
  }

  function MixKeyWord(x: bv32, a: bv32, b: bv32): bv32 {
    Rotl32(x + a + b, a + b)
  }

  function MixStep(f: Family, m: Mixer): (m': Mixer)
    requires Fits(f, m)
    ensures Fits(f, m')
  {
    var a := MixTableWord(m.s[m.j], m.a, m.b);
    var b := MixKeyWord(m.l[m.k], a, m.b);
    Mixer(m.s[m.j := a], m.l[m.k := b], a, b, NextSlot(f, m.j), (m.k + 1) % KeyLength(f))
  }

  function Mix(f: Family, n: nat, m: Mixer): (m': Mixer)
    requires Fits(f, m)
    ensures Fits(f, m')
  {
    if n == 0 then m else MixStep(f, Mix(f, n - 1, m))
  }

  lemma MixBegins(f: Family, m: Mixer)
    requires Fits(f, m)
    ensures Mix(f, 0, m) == m
  {
  }

  lemma MixContinues(f: Family, n: nat, m: Mixer)
    requires Fits(f, m)
    ensures Mix(f, n + 1, m) == MixStep(f, Mix(f, n, m))
  {
    hide MixStep;
  }

  function InitialMixer(f: Family, serial: bv32): (m: Mixer)
    ensures Fits(f, m)
  {
    Mixer(InitialTable(f), KeyWords(f, serial), 0, 0, 0, 0)
  }

  /** The key schedule of a family under a serial key. */
  function Expand(f: Family, serial: bv32): (s: seq<bv32>)
    ensures |s| == TableSize(f)
  {
    Mix(f, 3 * TableSize(f), InitialMixer(f, serial)).s
  }

  function TableOf(f: Family, k: Keys): seq<bv32> {
    if f.Rc5? then k.s5 else k.s6
  }

  /** Both tables of `k` are the schedules of its serial key. The quantifier keeps
      the expansion folded until a proof names the mixing it is about. */
  ghost predicate Derived(k: Keys) {
    forall f: Family, n: nat :: n == 3 * TableSize(f) ==>
      TableOf(f, k) == Mix(f, n, InitialMixer(f, k.serial)).s
  }

  function Expansion(serial: bv32): (k: Keys)
    ensures k.serial == serial
  {
    Keys(serial, Expand(Rc5, serial), Expand(Rc6, serial))
  }

  lemma ExpansionIsDerived(serial: bv32)
    ensures Derived(Expansion(serial))
  {
    hide Mix, InitialMixer;
    var k := Expansion(serial);
    forall f: Family, n: nat | n == 3 * TableSize(f)
      ensures TableOf(f, k) == Mix(f, n, InitialMixer(f, k.serial)).s
    {
      match f { case Rc5 => case Rc6 => }
    }
  }

  /** Running the mixing to its end gives the table. */
  lemma TableOfMix(f: Family, serial: bv32, n: nat)
    requires n == 3 * TableSize(f)
    ensures TableOf(f, KeysOf(serial)) == Mix(f, n, InitialMixer(f, serial)).s
  {
    hide KeysOf, Mix, InitialMixer;
  }

  /** The keys that belong to a serial key. */
  ghost function KeysOf(serial: bv32): (k: Keys)
    ensures k.serial == serial && Derived(k)
  {
    ExpansionIsDerived(serial);
    var k: Keys :| k.serial == serial && Derived(k);
    k
  }

  /** They are the two expansions, and nothing else fits. */
  lemma KeysOfIsExpansion(serial: bv32)
    ensures KeysOf(serial) == Expansion(serial)
  {
    hide Mix, InitialMixer;
    var k := KeysOf(serial);
    var n5, n6 := 3 * TableSize(Rc5), 3 * TableSize(Rc6);
    assert TableOf(Rc5, k) == Mix(Rc5, n5, InitialMixer(Rc5, k.serial)).s;
    assert TableOf(Rc6, k) == Mix(Rc6, n6, InitialMixer(Rc6, k.serial)).s;
  }

  // -------------------------------------------------- the schedules, by their numbers

  /** A table starts as an arithmetic progression. */
  lemma TableStart(f: Family, i: nat)
    requires i < TableSize(f)
    ensures TableSize(f) == (if f.Rc5? then 26 else 84)
    ensures i == 0 ==> InitialTable(f)[0] == (if f.Rc5? then 20835 else 3084996963)
    ensures i > 0 ==> InitialTable(f)[i] == Plus32(InitialTable(f)[i - 1], if f.Rc5? then 31161 else 2654435769)
  {
    hide Progression, Plus32;
    ProgressionStep(Magic(f).0, Magic(f).1, TableSize(f), i);
  }

  lemma {:induction false} ProgressionStep(p: bv32, q: bv32, n: nat, i: nat)
    requires i < n
    ensures i == 0 ==> Progression(p, q, n)[0] == p
    ensures i > 0 ==> Progression(p, q, n)[i] == Plus32(Progression(p, q, n)[i - 1], q)
  {
    hide Plus32;
    if i < n - 1 {
      ProgressionStep(p, q, n - 1, i);
    }
  }

  lemma SignInClear(salt: bv8)
    ensures SignExtend(salt) == if salt >= 0x80 then (salt as bv32) | 0xFFFF_FF00 else salt as bv32
  {
  }

  lemma AbsorbInClear(word: bv32, key: bv8, salt: bv8)
    ensures Absorb(word, key, salt) == (word << 8) + ((key as bv32) + SignExtend(salt))
  {
    hide SignExtend;
  }

  /** The key words take the bytes of the base key most significant first, each with a byte of the serial key
      from the other end. */
  lemma KeyWordsInClear(f: Family, serial: bv32, w: nat)
    requires w < KeyLength(f)
    ensures var key := if f.Rc5? then RC5_KEY else RC6_KEY; var at, salt := 4 * w, Bytes32(serial);
      |key| == 4 * KeyLength(f) &&
      KeyWords(f, serial)[w] ==
      Absorb(Absorb(Absorb(Absorb(0, key[at + 3], salt[0]), key[at + 2], salt[1]), key[at + 1], salt[2]), key[at], salt[3])
  {
    hide Bytes32, Absorb, RC5_KEY, RC6_KEY;
    var key, at, salt := BaseKey(f), 4 * w, Bytes32(serial);
    assert KeyWordFrom(key, serial, w, 4) == 0;
    assert KeyWordFrom(key, serial, w, 3) == Absorb(0, key[at + 3], salt[0]);
    assert KeyWordFrom(key, serial, w, 2) == Absorb(KeyWordFrom(key, serial, w, 3), key[at + 2], salt[1]);
    assert KeyWordFrom(key, serial, w, 1) == Absorb(KeyWordFrom(key, serial, w, 2), key[at + 1], salt[2]);
  }

  /** One mixing step on one input: the first of the RC5 setup under serial key zero. */
  lemma MixSample(m: Mixer)
    requires Fits(Rc5, m) && m.j == m.k == 0 && m.a == m.b == 0 && m.s[0] == 20835 && m.l[0] == 0xC3D4_9E9C
    ensures MixStep(Rc5, m) ==
            Mixer(m.s[0 := 0x2_8B18], m.l[0 := 0xB4C3_D729], 0x2_8B18, 0xB4C3_D729, 13, 1)
  {
    assert MixTableWord(20835, 0, 0) == 0x2_8B18;
    assert MixKeyWord(0xC3D4_9E9C, 0x2_8B18, 0) == 0xB4C3_D729;
  }

  /** The RC5 setup mixes words 0 and 13 of its table in turn; the RC6 setup goes through its table word by
      word; both go through their key words in turn. */
  lemma {:induction false} SlotsMixed(f: Family, n: nat, m: Mixer)
    requires Fits(f, m) && m.j == m.k == 0
    ensures Mix(f, n, m).j == SlotAt(f, n) && Mix(f, n, m).k == n % KeyLength(f)
  {
    hide MixStep, Mix, Fits, SlotAt;
    if n == 0 {
      MixBegins(f, m);
      SlotsFollow(f, 0);
    } else {
      SlotsMixed(f, n - 1, m);
      MixContinues(f, n - 1, m);
      SlotStep(f, Mix(f, n - 1, m));
      SlotsFollow(f, n - 1);
      NextModulo(n - 1, KeyLength(f));
    }
  }

  /** The table index before step `n`. */
  function SlotAt(f: Family, n: nat): nat {
    if f.Rc6? then n % 84 else if n % 2 == 0 then 0 else 13
  }

  lemma SlotsFollow(f: Family, n: nat)
    ensures SlotAt(f, 0) == 0 && NextSlot(f, SlotAt(f, n)) == SlotAt(f, n + 1)
  {
    if f.Rc6? {
      NextModulo(n, 84);
    }
  }

  lemma SlotStep(f: Family, m: Mixer)
    requires Fits(f, m)
    ensures var t := MixStep(f, m);
      && t.k == (m.k + 1) % KeyLength(f) && t.j == NextSlot(f, m.j)
      && t.s == m.s[m.j := t.a] && t.l == m.l[m.k := t.b]
  {
    hide MixTableWord, MixKeyWord;
  }

  /** Every other word of the RC5 table is what the progression put there, under every serial key. */
  lemma {:induction false} OtherWordsStay(n: nat, m: Mixer, i: nat)
    requires Fits(Rc5, m) && m.j == m.k == 0 && i < 26 && i != 0 && i != 13
    ensures Mix(Rc5, n, m).s[i] == m.s[i]
  {
    hide MixTableWord, MixKeyWord;
    if n > 0 {
      OtherWordsStay(n - 1, m, i);
      SlotsMixed(Rc5, n - 1, m);
    }
  }

  lemma Rc5WordsWithoutKey(serial: bv32, i: nat)
    requires i < 26 && i != 0 && i != 13
    ensures KeysOf(serial).s5[i] == InitialTable(Rc5)[i]
  {
    hide Mix, KeysOf, KeyWords, InitialTable;
    TableOfMix(Rc5, serial, 78);
    OtherWordsStay(78, InitialMixer(Rc5, serial), i);
  }

  lemma NextModulo(n: nat, size: nat)
    requires size > 0
    ensures (n % size + 1) % size == (n + 1) % size
  {
    var q, r := n / size, n % size;
    NextMultiple(size, q);
    if r + 1 < size {
      LowDigit(r + 1, q, size);
      LowDigit(r + 1, 0, size);
      assert n + 1 == (r + 1) + size * q;
    } else {
      LowDigit(0, q + 1, size);
      LowDigit(0, 1, size);
      assert n + 1 == 0 + size * (q + 1);
    }
  }

  lemma NextMultiple(size: nat, q: nat)
    ensures size * (q + 1) == size * q + size
  {
  }

  // -------------------------------------------------------- whole ciphers

  /** What an object of a family makes of a byte string under a serial key. */
  ghost function Encrypted(f: Family, serial: bv32, b: Bytes): (e: Bytes)
    ensures |e| == |b|
  {
    if f.Rc5? then EncryptRc5(KeysOf(serial), b) else EncryptRc6(KeysOf(serial), b)
  }

  ghost function Decrypted(f: Family, serial: bv32, e: Bytes): (b: Bytes)
    ensures |b| == |e|
  {
    if f.Rc5? then DecryptRc5(KeysOf(serial), e) else DecryptRc6(KeysOf(serial), e)
  }

  /** For every family, serial key and byte string, decryption undoes encryption. */
  lemma RoundTrip(f: Family, serial: bv32, b: Bytes)
    ensures Decrypted(f, serial, Encrypted(f, serial, b)) == b
  {
    hide KeysOf, EncryptRc5, DecryptRc5, EncryptRc6, DecryptRc6;
    DecryptRc5OfEncryptRc5(KeysOf(serial), b);
    DecryptRc6OfEncryptRc6(KeysOf(serial), b);
  }

  lemma Behind(a: Bytes, b: Bytes, n: nat)
    requires |a| <= n <= |a| + |b|
    ensures (a + b)[n..] == b[n - |a|..]
  {
  }

  lemma {:induction false} TailOfRc5(k: Keys, b: Bytes)
    ensures EncryptRc5(k, b)[|b| - |b| % 4..] == b[|b| - |b| % 4..]
    ensures DecryptRc5(k, b)[|b| - |b| % 4..] == b[|b| - |b| % 4..]
  {
    hide EncryptBlock8, EncryptBlock4, DecryptBlock8, DecryptBlock4;
    if |b| >= 8 {
      var n := |b| - |b| % 4;
      TailOfRc5(k, b[8..]);
      assert |b[8..]| % 4 == |b| % 4;
      Behind(EncryptBlock8(k, b[..8]), EncryptRc5(k, b[8..]), n);
      Behind(DecryptBlock8(k, b[..8]), DecryptRc5(k, b[8..]), n);
    }
  }

  lemma {:induction false} TailOfRc6(k: Keys, b: Bytes)
    ensures EncryptRc6(k, b)[|b| - |b| % 4..] == b[|b| - |b| % 4..]
    ensures DecryptRc6(k, b)[|b| - |b| % 4..] == b[|b| - |b| % 4..]
  {
    hide EncryptBlock16, EncryptRc5, DecryptBlock16, DecryptRc5;
    if |b| >= 16 {
      var n := |b| - |b| % 4;
      TailOfRc6(k, b[16..]);
      assert |b[16..]| % 4 == |b| % 4;
      Behind(EncryptBlock16(k, b[..16]), EncryptRc6(k, b[16..]), n);
      Behind(DecryptBlock16(k, b[..16]), DecryptRc6(k, b[16..]), n);
    } else {
      TailOfRc5(k, b);
    }
  }

  /** The last zero to three bytes are never changed, by encryption or decryption. */
  lemma TailPassesThrough(f: Family, serial: bv32, b: Bytes)
    ensures Encrypted(f, serial, b)[|b| - |b| % 4..] == b[|b| - |b| % 4..]
    ensures Decrypted(f, serial, b)[|b| - |b| % 4..] == b[|b| - |b| % 4..]
  {
    hide KeysOf, EncryptRc5, EncryptRc6, DecryptRc5, DecryptRc6;
    TailOfRc5(KeysOf(serial), b);
    TailOfRc6(KeysOf(serial), b);
  }
}
