/** The binary table format: field names, field types, rows. */
module TableFile {
  import opened Options
  import opened Words

  const NAME_LEN := 30
  const WORD: nat := 0x1_0000_0000

  datatype FieldType = Uint8 | Bool | Uint16 | Enum | Uint32 | Str

  datatype Field = Field(kind: FieldType, size: nat, offset: nat, name: Bytes)

  /** A loaded file. */
  datatype Table = Table(fields: seq<Field>, rowSize: nat, rowCount: nat, data: Bytes)

  // --------------------------------------------------------------------- names

  /** The name in a buffer: up to a null byte, and at most `limit` bytes. */
  function Cut(b: Bytes, limit: nat): (name: Bytes)
    ensures |name| <= limit && |name| <= |b| && 0 !in name
  {
    if |b| == 0 || limit == 0 || b[0] == 0 then [] else [b[0]] + Cut(b[1..], limit - 1)
  }

  function Zeros(n: nat): (b: Bytes)
    ensures |b| == n
  {
    seq(n, _ => 0 as bv8)
  }

  /** A name in its field of the file. */
  function Pad(name: Bytes): Bytes {
    if |name| < NAME_LEN then name + Zeros(NAME_LEN - |name|) else name
  }

  lemma {:induction false} CutOfPadded(name: Bytes, zeros: Bytes, limit: nat)
    requires 0 !in name && |name| <= limit && |zeros| > 0 && zeros[0] == 0
    ensures Cut(name + zeros, limit) == name
  {
    if |name| > 0 {
      assert (name + zeros)[1..] == name[1..] + zeros;
      CutOfPadded(name[1..], zeros, limit - 1);
    }
  }

  /** A name that was read is read again from its padded form. */
  lemma CutOfPad(raw: Bytes)
    ensures |Pad(Cut(raw, NAME_LEN - 1))| == NAME_LEN
    ensures Cut(Pad(Cut(raw, NAME_LEN - 1)), NAME_LEN - 1) == Cut(raw, NAME_LEN - 1)
  {
    var name := Cut(raw, NAME_LEN - 1);
    CutOfPadded(name, Zeros(NAME_LEN - |name|), NAME_LEN - 1);
  }

  /** The padding is null bytes. */
  lemma PadInClear(name: Bytes, i: nat)
    requires |name| <= 30
    ensures |Pad(name)| == 30 && (i < |name| ==> Pad(name)[i] == name[i]) && (|name| <= i < 30 ==> Pad(name)[i] == 0)
  {
  }

  // -------------------------------------------------------------------- fields

  /** A type word above 4 is a string of that many bytes. */
  function TypeOf(raw: nat): FieldType {
    if raw > 4 then Str else [Uint8, Bool, Uint16, Enum, Uint32][raw]
  }

  function SizeOf(raw: nat): (size: nat)
    ensures size > 0
  {
    if raw > 4 then raw else [1, 1, 2, 4, 4][raw]
  }

  function ReadNames(b: Bytes, n: nat): (names: seq<Bytes>)
    requires |b| >= NAME_LEN * n
    ensures |names| == n
  {
    if n == 0 then [] else [b[..NAME_LEN]] + ReadNames(b[NAME_LEN..], n - 1)
  }

  function ReadTypes(b: Bytes, n: nat): (raws: seq<nat>)
    requires |b| >= 4 * n
    ensures |raws| == n
  {
    if n == 0 then [] else [LeNat(b[..4])] + ReadTypes(b[4..], n - 1)
  }

  /** Fields one after the other; offsets are 32-bit and wrap. */
  function Layout(names: seq<Bytes>, raws: seq<nat>, offset: nat): (fields: seq<Field>)
    requires |names| == |raws|
    ensures |fields| == |raws|
    decreases |raws|
  {
    if |raws| == 0 then []
    else
      [Field(TypeOf(raws[0]), SizeOf(raws[0]), offset, Cut(names[0], NAME_LEN - 1))]
      + Layout(names[1..], raws[1..], (offset + SizeOf(raws[0])) % WORD)
  }

  lemma {:induction false} SizesArePositive(names: seq<Bytes>, raws: seq<nat>, offset: nat)
    requires |names| == |raws|
    ensures forall f :: f in Layout(names, raws, offset) ==> f.size > 0
    decreases |raws|
  {
    hide TypeOf, Cut;
    if |raws| > 0 {
      SizesArePositive(names[1..], raws[1..], (offset + SizeOf(raws[0])) % WORD);
    }
  }

  /** Where the next field would start. */
  function EndOf(raws: seq<nat>, offset: nat): nat {
    if |raws| == 0 then offset else EndOf(raws[1..], (offset + SizeOf(raws[0])) % WORD)
  }

  // ---------------------------------------------------------------------- rows

  function Start(t: Table, row: nat): nat {
    t.rowSize * row
  }

  /** `GetData` finds the bytes of a field of a row. */
  predicate InData(t: Table, row: nat, f: Field) {
    Start(t, row) + f.offset + f.size <= |t.data|
  }

  predicate RowsFit(t: Table) {
    forall row: nat, j :: row < t.rowCount && 0 <= j < |t.fields| ==> InData(t, row, t.fields[j])
  }

  function Cell(t: Table, row: nat, f: Field): Bytes
    requires InData(t, row, f)
  {
    t.data[Start(t, row) + f.offset..Start(t, row) + f.offset + f.size]
  }

  /** A row as it is kept: the bytes of its first `n` fields by name, a later field of a name in
      the place of an earlier one. */
  function RowByName(t: Table, row: nat, n: nat): map<Bytes, Bytes>
    requires n <= |t.fields| && forall j :: 0 <= j < n ==> InData(t, row, t.fields[j])
  {
    if n == 0 then map[]
    else RowByName(t, row, n - 1)[t.fields[n - 1].name := Cell(t, row, t.fields[n - 1])]
  }

  /** Looking a name up in a row finds the bytes of the last field of that name. */
  lemma {:induction false} RowLookup(t: Table, row: nat, n: nat, j: nat)
    requires n <= |t.fields| && forall i :: 0 <= i < n ==> InData(t, row, t.fields[i])
    requires j < n && forall i :: j < i < n ==> t.fields[i].name != t.fields[j].name
    ensures t.fields[j].name in RowByName(t, row, n)
    ensures RowByName(t, row, n)[t.fields[j].name] == Cell(t, row, t.fields[j])
  {
    if j < n - 1 {
      RowLookup(t, row, n - 1, j);
    }
  }

  // ------------------------------------------------------------- load and save

  /** There is a field count that is not zero, and a name and a type word for every field. */
  predicate HasHeader(b: Bytes) {
    |b| >= 4 && LeNat(b[..4]) != 0 && |b| >= 4 + LeNat(b[..4]) * (NAME_LEN + 4)
  }

  /** The fields, the row size and the data behind them. */
  function Header(b: Bytes): (seq<Field>, nat, Bytes)
    requires HasHeader(b)
  {
    var n := LeNat(b[..4]);
    var names := ReadNames(b[4..], n);
    var raws := ReadTypes(b[4 + NAME_LEN * n..], n);
    (Layout(names, raws, 0), EndOf(raws, 0), b[4 + NAME_LEN * n + 4 * n..])
  }

  function Load(b: Bytes): Option<Table> {
    if !HasHeader(b) then None
    else
      var (fields, rowSize, data) := Header(b);
      if rowSize == 0 || |data| % rowSize != 0 then None
      else
        var t := Table(fields, rowSize, |data| / rowSize, data);
        if RowsFit(t) then Some(t) else None
  }

  function SaveNames(fields: seq<Field>): Bytes {
    if |fields| == 0 then [] else Pad(fields[0].name) + SaveNames(fields[1..])
  }

  function SaveSizes(fields: seq<Field>): Bytes {
    if |fields| == 0 then [] else NatBytes(fields[0].size, 4) + SaveSizes(fields[1..])
  }

  function Save(t: Table): Bytes {
    NatBytes(|t.fields|, 4) + SaveNames(t.fields) + SaveSizes(t.fields) + t.data
  }

  // ----------------------------------------------------------------- round trip

  /** A type read back from the size that `SaveCDB` writes for it. */
  function Reread(f: Field): Field {
    f.(kind := TypeOf(f.size))
  }

  function RereadAll(fields: seq<Field>): (r: seq<Field>)
    ensures |r| == |fields|
  {
    if |fields| == 0 then [] else [Reread(fields[0])] + RereadAll(fields[1..])
  }

  /** Types survive up to their size: uint8 becomes bool, enum becomes uint32. */
  lemma RereadType(raw: nat)
    ensures SizeOf(SizeOf(raw)) == SizeOf(raw)
    ensures TypeOf(SizeOf(raw)) == (match TypeOf(raw) case Uint8 => Bool case Enum => Uint32 case k => k)
  {
  }

  lemma {:induction false} ReadSavedNames(names: seq<Bytes>, raws: seq<nat>, offset: nat, rest: Bytes)
    requires |names| == |raws|
    ensures var fields := Layout(names, raws, offset);
      |SaveNames(fields)| == NAME_LEN * |fields| &&
      Layout(ReadNames(SaveNames(fields) + rest, |fields|), raws, offset) == fields
    decreases |raws|
  {
    hide TypeOf, SizeOf, Pad, Cut;
    if |raws| > 0 {
      var next := (offset + SizeOf(raws[0])) % WORD;
      var fields := Layout(names, raws, offset);
      assert fields[1..] == Layout(names[1..], raws[1..], next);
      ReadSavedNames(names[1..], raws[1..], next, rest);
      CutOfPad(names[0]);
      var b := SaveNames(fields) + rest;
      assert b[..NAME_LEN] == Pad(fields[0].name) && b[NAME_LEN..] == SaveNames(fields[1..]) + rest;
    }
  }

  /** The type words of a file that was saved: the sizes. */
  function Sizes(raws: seq<nat>): (r: seq<nat>)
    ensures |r| == |raws|
  {
    if |raws| == 0 then [] else [SizeOf(raws[0])] + Sizes(raws[1..])
  }

  predicate Fit32(raws: seq<nat>) {
    forall i :: 0 <= i < |raws| ==> raws[i] < WORD
  }

  lemma {:induction false} ReadSavedSizes(names: seq<Bytes>, raws: seq<nat>, offset: nat, rest: Bytes)
    requires |names| == |raws| && Fit32(raws)
    ensures var fields := Layout(names, raws, offset);
      |SaveSizes(fields)| == 4 * |fields| && ReadTypes(SaveSizes(fields) + rest, |fields|) == Sizes(raws)
    decreases |raws|
  {
    hide TypeOf, NatBytes, LeNat, Cut;
    if |raws| > 0 {
      var next := (offset + SizeOf(raws[0])) % WORD;
      var fields := Layout(names, raws, offset);
      assert fields[1..] == Layout(names[1..], raws[1..], next);
      ReadSavedSizes(names[1..], raws[1..], next, rest);
      var b := SaveSizes(fields) + rest;
      assert b[..4] == NatBytes(SizeOf(raws[0]), 4) && b[4..] == SaveSizes(fields[1..]) + rest;
      FourBytesOf(SizeOf(raws[0]));
    }
  }

  lemma FourBytesOf(n: nat)
    requires n < WORD
    ensures LeNat(NatBytes(n, 4)) == n
  {
    Pow256Of4();
    LeNatOfNatBytes(n, 4);
  }

  lemma {:induction false} TypesAreWords(b: Bytes, n: nat)
    requires |b| >= 4 * n
    ensures Fit32(ReadTypes(b, n))
  {
    if n > 0 {
      TypesAreWords(b[4..], n - 1);
      LeNatBound(b[..4]);
      Pow256Of4();
    }
  }

  lemma {:induction false} LayoutOfSizes(names: seq<Bytes>, raws: seq<nat>, offset: nat)
    requires |names| == |raws|
    ensures Layout(names, Sizes(raws), offset) == RereadAll(Layout(names, raws, offset))
    ensures EndOf(Sizes(raws), offset) == EndOf(raws, offset)
    decreases |raws|
  {
    hide TypeOf, SizeOf, Cut;
    if |raws| > 0 {
      var next := (offset + SizeOf(raws[0])) % WORD;
      RereadType(raws[0]);
      LayoutOfSizes(names[1..], raws[1..], next);
      assert Sizes(raws)[1..] == Sizes(raws[1..]);
      assert Layout(names, raws, offset)[1..] == Layout(names[1..], raws[1..], next);
    }
  }

  lemma {:induction false} RereadKeeps(fields: seq<Field>)
    ensures SaveNames(RereadAll(fields)) == SaveNames(fields) && SaveSizes(RereadAll(fields)) == SaveSizes(fields)
    ensures forall j :: 0 <= j < |fields| ==> RereadAll(fields)[j] == Reread(fields[j])
  {
    if |fields| > 0 {
      RereadKeeps(fields[1..]);
      assert RereadAll(fields)[1..] == RereadAll(fields[1..]);
    }
  }

  function Reloaded(t: Table): Table {
    t.(fields := RereadAll(t.fields))
  }

  /** Loading what was saved restores every name, offset, size and row byte; types come back
      up to their size, and saving again gives the same bytes. */
  lemma LoadOfSave(b: Bytes)
    requires Load(b).Some?
    ensures Load(Save(Load(b).value)) == Some(Reloaded(Load(b).value))
    ensures Save(Reloaded(Load(b).value)) == Save(Load(b).value)
  {
    hide ReadNames, ReadTypes, Layout, EndOf, SaveNames, SaveSizes, RereadAll, Sizes, LeNat, NatBytes;
    var t, n := Load(b).value, LeNat(b[..4]);
    var names, raws := ReadNames(b[4..], n), ReadTypes(b[4 + NAME_LEN * n..], n);
    LeNatBound(b[..4]);
    Pow256Of4();
    FourBytesOf(n);
    TypesAreWords(b[4 + NAME_LEN * n..], n);
    var sn, ss := SaveNames(t.fields), SaveSizes(t.fields);
    ReadSavedNames(names, raws, 0, ss + t.data);
    ReadSavedSizes(names, raws, 0, t.data);
    var saved := Save(t);
    assert saved[..4] == NatBytes(n, 4);
    assert saved[4..] == sn + (ss + t.data);
    assert saved[4 + NAME_LEN * n..] == ss + t.data;
    assert saved[4 + NAME_LEN * n + 4 * n..] == t.data;
    LayoutOfSizes(ReadNames(sn + (ss + t.data), n), raws, 0);
    RereadKeeps(t.fields);
    assert RowsFit(Reloaded(t)) by {
      forall row: nat, j | row < t.rowCount && 0 <= j < |t.fields| ensures InData(Reloaded(t), row, Reloaded(t).fields[j]) {
        assert InData(t, row, t.fields[j]);
      }
    }
  }

  predicate Padded(names: seq<Bytes>) {
    forall i :: 0 <= i < |names| ==> names[i] == Pad(Cut(names[i], NAME_LEN - 1))
  }

  predicate TypesAreSizes(raws: seq<nat>) {
    forall i :: 0 <= i < |raws| ==> raws[i] == SizeOf(raws[i])
  }

  /** The bytes of a file that `SaveCDB` could have written: padded names, and type words that are sizes. */
  predicate Canonical(b: Bytes)
    requires Load(b).Some?
  {
    var n := LeNat(b[..4]);
    Padded(ReadNames(b[4..], n)) && TypesAreSizes(ReadTypes(b[4 + NAME_LEN * n..], n))
  }

  lemma NothingPadded()
    ensures Padded([])
  {
  }

  lemma PaddedFirst(names: seq<Bytes>)
    requires |names| > 0
    ensures Padded(names) <==> names[0] == Pad(Cut(names[0], NAME_LEN - 1)) && Padded(names[1..])
  {
    hide Pad, Cut;
    assert forall i :: 0 < i < |names| ==> names[i] == names[1..][i - 1];
  }

  lemma {:induction false} NamesReproduced(b: Bytes, n: nat, raws: seq<nat>, offset: nat)
    requires |b| >= NAME_LEN * n && |raws| == n
    ensures var names := ReadNames(b, n); var saved := SaveNames(Layout(names, raws, offset));
      |saved| == NAME_LEN * n && (saved == b[..NAME_LEN * n] <==> Padded(names))
    decreases n
  {
    hide Pad, Cut, SizeOf, TypeOf, Padded;
    if n == 0 {
      NothingPadded();
    } else {
      var names, rest := ReadNames(b, n), b[NAME_LEN..];
      var next := (offset + SizeOf(raws[0])) % WORD;
      var fields := Layout(names, raws, offset);
      NamesReproduced(rest, n - 1, raws[1..], next);
      CutOfPad(names[0]);
      assert names[1..] == ReadNames(rest, n - 1) && fields[1..] == Layout(names[1..], raws[1..], next);
      PaddedFirst(names);
      var saved := SaveNames(fields);
      assert saved[..NAME_LEN] == Pad(fields[0].name) && saved[NAME_LEN..] == SaveNames(fields[1..]);
      assert b[..NAME_LEN * n][..NAME_LEN] == names[0] && b[..NAME_LEN * n][NAME_LEN..] == rest[..NAME_LEN * (n - 1)];
      SplitEqual(saved, b[..NAME_LEN * n], NAME_LEN);
    }
  }

  lemma NoSizes()
    ensures TypesAreSizes([])
  {
  }

  lemma SizesFirst(raws: seq<nat>)
    requires |raws| > 0
    ensures TypesAreSizes(raws) <==> raws[0] == SizeOf(raws[0]) && TypesAreSizes(raws[1..])
  {
    hide SizeOf;
    assert forall i :: 0 < i < |raws| ==> raws[i] == raws[1..][i - 1];
  }

  lemma {:induction false} SizesReproduced(names: seq<Bytes>, b: Bytes, n: nat, offset: nat)
    requires |b| >= 4 * n && |names| == n
    ensures var raws := ReadTypes(b, n); var saved := SaveSizes(Layout(names, raws, offset));
      |saved| == 4 * n && (saved == b[..4 * n] <==> TypesAreSizes(raws))
    decreases n
  {
    hide TypeOf, SizeOf, Cut, NatBytes, LeNat, TypesAreSizes;
    if n == 0 {
      NoSizes();
    } else {
      var raws, rest := ReadTypes(b, n), b[4..];
      var next := (offset + SizeOf(raws[0])) % WORD;
      var fields := Layout(names, raws, offset);
      SizesReproduced(names[1..], rest, n - 1, next);
      assert raws[1..] == ReadTypes(rest, n - 1) && fields[1..] == Layout(names[1..], raws[1..], next);
      SizesFirst(raws);
      SizeReproduced(b[..4]);
      var saved := SaveSizes(fields);
      assert saved[..4] == NatBytes(SizeOf(raws[0]), 4) && saved[4..] == SaveSizes(fields[1..]);
      assert b[..4 * n][..4] == b[..4] && b[..4 * n][4..] == rest[..4 * (n - 1)];
      SplitEqual(saved, b[..4 * n], 4);
    }
  }

  lemma SizeReproduced(word: Bytes)
    requires |word| == 4
    ensures NatBytes(SizeOf(LeNat(word)), 4) == word <==> LeNat(word) == SizeOf(LeNat(word))
  {
    LeNatBound(word);
    Pow256Of4();
    NatBytesOfLeNat(word);
    FourBytesOf(SizeOf(LeNat(word)));
  }

  lemma SplitEqual(a: Bytes, b: Bytes, n: nat)
    requires |a| == |b| >= n
    ensures a == b <==> a[..n] == b[..n] && a[n..] == b[n..]
  {
    assert a == a[..n] + a[n..] && b == b[..n] + b[n..];
  }

  /** Saving a file that was loaded reproduces it exactly if it is canonical. */
  lemma SaveOfLoad(b: Bytes)
    requires Load(b).Some?
    ensures Save(Load(b).value) == b <==> Canonical(b)
  {
    hide ReadNames, ReadTypes, Layout, EndOf, SaveNames, SaveSizes, LeNat, NatBytes, Padded, TypesAreSizes, RowsFit;
    var t, n := Load(b).value, LeNat(b[..4]);
    var b1, b2 := b[4..], b[4 + NAME_LEN * n..];
    var names, raws := ReadNames(b1, n), ReadTypes(b2, n);
    NatBytesOfLeNat(b[..4]);
    NamesReproduced(b1, n, raws, 0);
    SizesReproduced(names, b2, n, 0);
    var saved := Save(t);
    SplitEqual(saved, b, 4);
    assert saved[..4] == b[..4];
    assert saved[4..] == SaveNames(t.fields) + (SaveSizes(t.fields) + t.data);
    SplitEqual(saved[4..], b1, NAME_LEN * n);
    assert saved[4..][..NAME_LEN * n] == SaveNames(t.fields) && saved[4..][NAME_LEN * n..] == SaveSizes(t.fields) + t.data;
    assert b1[NAME_LEN * n..] == b2;
    SplitEqual(SaveSizes(t.fields) + t.data, b2, 4 * n);
    assert (SaveSizes(t.fields) + t.data)[..4 * n] == SaveSizes(t.fields);
    assert (SaveSizes(t.fields) + t.data)[4 * n..] == t.data;
    assert b2[4 * n..] == t.data;
  }

  // --------------------------------------------------------------------- tiling

  function Sum(fields: seq<Field>): nat {
    if |fields| == 0 then 0 else fields[0].size + Sum(fields[1..])
  }

  /** While every field ends before `limit`, the sizes sum up to no more. */
  lemma {:induction false} SumWithin(names: seq<Bytes>, raws: seq<nat>, offset: nat, limit: nat)
    requires |names| == |raws| && offset <= limit < WORD
    requires forall f :: f in Layout(names, raws, offset) ==> f.offset + f.size <= limit
    ensures offset + Sum(Layout(names, raws, offset)) <= limit
    decreases |raws|
  {
    hide TypeOf, SizeOf, Cut;
    if |raws| > 0 {
      var fields := Layout(names, raws, offset);
      var next := (offset + SizeOf(raws[0])) % WORD;
      assert fields[0] in fields && fields[0].offset == offset && fields[0].size == SizeOf(raws[0]);
      assert next == offset + fields[0].size;
      assert fields[1..] == Layout(names[1..], raws[1..], next);
      SumWithin(names[1..], raws[1..], next, limit);
    }
  }

  /** Each field starts where the one before it ends, the first at `offset`. */
  predicate Chained(fields: seq<Field>, offset: nat) {
    |fields| == 0 || (fields[0].offset == offset && Chained(fields[1..], offset + fields[0].size))
  }

  function Join(parts: seq<Bytes>): Bytes {
    if |parts| == 0 then [] else parts[0] + Join(parts[1..])
  }

  /** The cells of a row, for the fields from `from` on. */
  function Cells(t: Table, row: nat, from: nat): seq<Bytes>
    requires row < t.rowCount && from <= |t.fields| && RowsFit(t)
    decreases |t.fields| - from
  {
    if from == |t.fields| then []
    else
      assert InData(t, row, t.fields[from]);
      [Cell(t, row, t.fields[from])] + Cells(t, row, from + 1)
  }

  function Rows(t: Table, from: nat): seq<Bytes>
    requires from <= t.rowCount && RowsFit(t)
    decreases t.rowCount - from
  {
    if from == t.rowCount then [] else [Join(Cells(t, from, 0))] + Rows(t, from + 1)
  }

  lemma {:induction false} CellsTile(t: Table, row: nat, from: nat, offset: nat)
    requires row < t.rowCount && from <= |t.fields| && RowsFit(t)
    requires Chained(t.fields[from..], offset) && offset + Sum(t.fields[from..]) == t.rowSize
    requires Start(t, row) + t.rowSize <= |t.data|
    ensures Join(Cells(t, row, from)) == t.data[Start(t, row) + offset..Start(t, row) + t.rowSize]
    decreases |t.fields| - from
  {
    if from < |t.fields| {
      var f := t.fields[from];
      assert t.fields[from..][1..] == t.fields[from + 1..] && InData(t, row, f);
      CellsTile(t, row, from + 1, offset + f.size);
      var cells := Cells(t, row, from);
      assert cells[1..] == Cells(t, row, from + 1);
    }
  }

  lemma NextStart(size: nat, row: nat, count: nat)
    requires row < count
    ensures size * row + size == size * (row + 1) <= size * count
  {
    NonNegative(size, count - (row + 1));
    assert size * count == size * (row + 1) + size * (count - (row + 1));
  }

  lemma NonNegative(a: nat, b: nat)
    ensures a * b >= 0
  {
  }

  lemma {:induction false} RowsTile(t: Table, from: nat)
    requires from <= t.rowCount && RowsFit(t) && |t.data| == t.rowSize * t.rowCount
    requires Chained(t.fields, 0) && Sum(t.fields) == t.rowSize
    ensures Start(t, from) <= |t.data| && Join(Rows(t, from)) == t.data[Start(t, from)..]
    decreases t.rowCount - from
  {
    hide Cells;
    if from < t.rowCount {
      NextStart(t.rowSize, from, t.rowCount);
      assert t.fields[0..] == t.fields;
      CellsTile(t, from, 0, 0);
      RowsTile(t, from + 1);
      assert Rows(t, from)[1..] == Rows(t, from + 1);
    }
  }

  /** Without a wrap the sizes sum up to the end of the last field; with one they do not. */
  lemma {:induction false} EndIsSum(names: seq<Bytes>, raws: seq<nat>, offset: nat)
    requires |names| == |raws| && offset < WORD
    ensures var fields := Layout(names, raws, offset);
      && EndOf(raws, offset) < WORD
      && (offset + Sum(fields) < WORD ==> EndOf(raws, offset) == offset + Sum(fields) && Chained(fields, offset))
    decreases |raws|
  {
    hide TypeOf, SizeOf, Cut;
    if |raws| > 0 {
      var fields := Layout(names, raws, offset);
      var next := (offset + SizeOf(raws[0])) % WORD;
      assert fields[1..] == Layout(names[1..], raws[1..], next);
      EndIsSum(names[1..], raws[1..], next);
    }
  }

  /** The fields lie side by side from the start of a row to its end. */
  predicate Tiled(t: Table) {
    Chained(t.fields, 0) && Sum(t.fields) == t.rowSize
  }

  /** In a file that loads, with rows or without, the fields tile a row exactly if their sizes sum
      up to less than 2^32; and then the cells, row by row, are all of the data. */
  lemma LoadedTiles(b: Bytes)
    requires Load(b).Some?
    ensures var t := Load(b).value;
      && (Tiled(t) <==> Sum(t.fields) < WORD)
      && |t.data| == t.rowSize * t.rowCount
      && (Tiled(t) ==> Join(Rows(t, 0)) == t.data)
  {
    hide ReadNames, ReadTypes, Layout, EndOf, LeNat, Rows, Join, Chained, Sum;
    var t, n := Load(b).value, LeNat(b[..4]);
    EndIsSum(ReadNames(b[4..], n), ReadTypes(b[4 + NAME_LEN * n..], n), 0);
    assert |t.data| == t.rowSize * (|t.data| / t.rowSize) + |t.data| % t.rowSize;
    if Tiled(t) {
      RowsTile(t, 0);
      assert Start(t, 0) == 0;
    }
  }

  /** A file under 4 GiB with at least one row meets the condition: were an offset to wrap, the
      field before it would end behind the data. */
  lemma RowsPreventWrap(b: Bytes)
    requires Load(b).Some? && |b| < WORD && Load(b).value.rowCount > 0
    ensures Sum(Load(b).value.fields) < WORD
  {
    hide ReadNames, ReadTypes, Layout, EndOf, LeNat, Chained, Sum;
    var t, n := Load(b).value, LeNat(b[..4]);
    forall f | f in t.fields ensures f.offset + f.size <= |t.data| {
      var j :| 0 <= j < |t.fields| && t.fields[j] == f;
      assert InData(t, 0, t.fields[j]);
      assert Start(t, 0) == 0;
    }
    SumWithin(ReadNames(b[4..], n), ReadTypes(b[4 + NAME_LEN * n..], n), 0, |t.data|);
  }
}
