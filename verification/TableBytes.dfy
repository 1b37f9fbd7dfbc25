/** Which byte strings are tables, and what they are tables of, read off the bytes alone. */
module TableBytes {
  import opened Options
  import opened Words
  import opened TableFile

  /** The 32-bit little-endian word at a position. */
  function WordAt(b: Bytes, i: nat): nat
    requires i + 4 <= |b|
  {
    b[i] as nat + 0x100 * b[i + 1] as nat + 0x1_0000 * b[i + 2] as nat + 0x100_0000 * b[i + 3] as nat
  }

  /** A field count that is not zero, 30 bytes of name for every field, and a type word for every field. */
  predicate WholeHeader(b: Bytes) {
    |b| >= 4 && WordAt(b, 0) > 0 && |b| >= 4 + 34 * WordAt(b, 0)
  }

  function TypeWord(b: Bytes, i: nat): nat
    requires WholeHeader(b) && i < WordAt(b, 0)
  {
    WordAt(b, 4 + 30 * WordAt(b, 0) + 4 * i)
  }

  function SizeAt(b: Bytes, i: nat): nat
    requires WholeHeader(b) && i < WordAt(b, 0)
  {
    var word := TypeWord(b, i);
    if word <= 1 then 1 else if word == 2 then 2 else if word <= 4 then 4 else word
  }

  /** How many bytes of a row come before a field. */
  function Before(b: Bytes, i: nat): nat
    requires WholeHeader(b) && i <= WordAt(b, 0)
  {
    if i == 0 then 0 else Before(b, i - 1) + SizeAt(b, i - 1)
  }

  function RowSize(b: Bytes): nat
    requires WholeHeader(b)
  {
    Before(b, WordAt(b, 0))
  }

  /** The bytes behind the header. */
  function Data(b: Bytes): Bytes
    requires WholeHeader(b)
  {
    b[4 + 34 * WordAt(b, 0)..]
  }

  // --------------------------------------------------- the loader's readers, by position

  lemma LeNatIsWord(b: Bytes, i: nat)
    requires i + 4 <= |b|
    ensures LeNat(b[i..i + 4]) == WordAt(b, i)
  {
    hide LeNat;
    var w := b[i..i + 4];
    LeNatOfFour(w);
    assert w[0] == b[i] && w[1] == b[i + 1] && w[2] == b[i + 2] && w[3] == b[i + 3];
  }

  lemma {:induction false} ReadTypesAt(b: Bytes, n: nat, i: nat)
    requires |b| >= 4 * n && i < n
    ensures ReadTypes(b, n)[i] == WordAt(b, 4 * i)
  {
    hide LeNat;
    LeNatIsWord(b, 0);
    if i > 0 {
      ReadTypesAt(b[4..], n - 1, i - 1);
      assert b[4..][4 * (i - 1)..] == b[4 * i..];
      SameWord(b[4..], 4 * (i - 1), b, 4 * i);
    }
  }

  lemma SameWord(a: Bytes, i: nat, b: Bytes, j: nat)
    requires i + 4 <= |a| && j + 4 <= |b| && a[i..] == b[j..]
    ensures WordAt(a, i) == WordAt(b, j)
  {
    assert a[i..][0] == a[i] && a[i..][1] == a[i + 1] && a[i..][2] == a[i + 2] && a[i..][3] == a[i + 3];
    assert b[j..][0] == b[j] && b[j..][1] == b[j + 1] && b[j..][2] == b[j + 2] && b[j..][3] == b[j + 3];
  }

  lemma {:induction false} ReadNamesAt(b: Bytes, n: nat, i: nat)
    requires |b| >= 30 * n && i < n
    ensures ReadNames(b, n)[i] == b[30 * i..30 * i + 30]
  {
    if i > 0 {
      ReadNamesAt(b[30..], n - 1, i - 1);
      assert b[30..][30 * (i - 1)..30 * (i - 1) + 30] == b[30 * i..30 * i + 30];
    }
  }

  /** The name in a buffer is the bytes up to the first null byte, and no more than the limit. */
  lemma {:induction false} CutInClear(b: Bytes, limit: nat)
    requires limit < |b|
    ensures var name := Cut(b, limit);
      name == b[..|name|] && 0 !in name && |name| <= limit && (|name| == limit || b[|name|] == 0)
  {
    if limit > 0 && b[0] != 0 {
      CutInClear(b[1..], limit - 1);
    }
  }

  /** The offset of field `i`, and its other parts. */
  function Offset(raws: seq<nat>, start: nat, i: nat): nat
    requires i <= |raws|
  {
    if i == 0 then start else (Offset(raws, start, i - 1) + SizeOf(raws[i - 1])) % WORD
  }

  lemma {:induction false} OffsetShifts(raws: seq<nat>, start: nat, i: nat)
    requires 0 < i <= |raws|
    ensures Offset(raws, start, i) == Offset(raws[1..], (start + SizeOf(raws[0])) % WORD, i - 1)
  {
    hide SizeOf;
    if i > 1 {
      OffsetShifts(raws, start, i - 1);
      assert raws[1..][i - 2] == raws[i - 1];
    }
  }

  lemma {:induction false} LayoutAt(names: seq<Bytes>, raws: seq<nat>, start: nat, i: nat)
    requires |names| == |raws| && i < |raws|
    ensures Layout(names, raws, start)[i] ==
            Field(TypeOf(raws[i]), SizeOf(raws[i]), Offset(raws, start, i), Cut(names[i], 29))
    decreases i
  {
    hide SizeOf, TypeOf, Cut;
    if i > 0 {
      LayoutAt(names[1..], raws[1..], (start + SizeOf(raws[0])) % WORD, i - 1);
      OffsetShifts(raws, start, i);
    }
  }

  lemma {:induction false} EndIsOffset(raws: seq<nat>, start: nat)
    ensures EndOf(raws, start) == Offset(raws, start, |raws|)
    decreases |raws|
  {
    hide SizeOf;
    if |raws| > 0 {
      EndIsOffset(raws[1..], (start + SizeOf(raws[0])) % WORD);
      OffsetShifts(raws, start, |raws|);
    }
  }

  // ------------------------------------------------------------------ what loads

  /** The names and type words that the loader reads. */
  function Names(b: Bytes): (names: seq<Bytes>)
    requires WholeHeader(b)
    ensures |names| == WordAt(b, 0)
  {
    ReadNames(b[4..], WordAt(b, 0))
  }

  function Raws(b: Bytes): (raws: seq<nat>)
    requires WholeHeader(b)
    ensures |raws| == WordAt(b, 0)
  {
    ReadTypes(b[4 + 30 * WordAt(b, 0)..], WordAt(b, 0))
  }

  lemma RawsAt(b: Bytes, i: nat)
    requires WholeHeader(b) && i < WordAt(b, 0)
    ensures Raws(b)[i] == TypeWord(b, i) && SizeOf(Raws(b)[i]) == SizeAt(b, i) > 0
  {
    hide WordAt, ReadTypes, SizeOf;
    var n := WordAt(b, 0);
    var types := b[4 + 30 * n..];
    ReadTypesAt(types, n, i);
    assert types[4 * i..] == b[4 + 30 * n + 4 * i..];
    SameWord(types, 4 * i, b, 4 + 30 * n + 4 * i);
    SizeOfWord(TypeWord(b, i));
  }

  lemma SizeOfWord(word: nat)
    ensures SizeOf(word) == if word <= 1 then 1 else if word == 2 then 2 else if word <= 4 then 4 else word
  {
  }

  lemma {:induction false} OffsetIsBefore(b: Bytes, i: nat)
    requires WholeHeader(b) && i <= WordAt(b, 0)
    ensures Offset(Raws(b), 0, i) == Before(b, i) % WORD
  {
    hide SizeOf, SizeAt, Raws;
    if i > 0 {
      OffsetIsBefore(b, i - 1);
      RawsAt(b, i - 1);
      SumModulo(Before(b, i - 1), SizeAt(b, i - 1));
    }
  }

  lemma SumModulo(x: nat, y: nat)
    ensures (x % WORD + y) % WORD == (x + y) % WORD
  {
  }

  lemma HeaderIsWhole(b: Bytes)
    ensures HasHeader(b) <==> WholeHeader(b)
    ensures WholeHeader(b) ==> LeNat(b[..4]) == WordAt(b, 0)
  {
    hide LeNat;
    if |b| >= 4 {
      LeNatIsWord(b, 0);
      assert b[0..0 + 4] == b[..4];
    }
  }

  lemma HeaderParts(b: Bytes)
    requires WholeHeader(b)
    ensures HasHeader(b) && Header(b) == (Layout(Names(b), Raws(b), 0), EndOf(Raws(b), 0), Data(b))
  {
    hide LeNat, Layout, EndOf, ReadNames, ReadTypes, WordAt;
    HeaderIsWhole(b);
    var n := WordAt(b, 0);
    assert LeNat(b[..4]) == n && 4 + NAME_LEN * n + 4 * n == 4 + 34 * n;
  }

  /** A field as the bytes have it. */
  predicate FieldRead(b: Bytes, i: nat, f: Field)
    requires WholeHeader(b) && i < WordAt(b, 0)
  {
    var at := 4 + 30 * i;
    && f.size == SizeAt(b, i) && f.offset == Before(b, i) % WORD
    && f.kind == (match TypeWord(b, i)
                  case 0 => Uint8 case 1 => Bool case 2 => Uint16 case 3 => Enum case 4 => Uint32 case _ => Str)
    && |f.name| <= 29 && 0 !in f.name && f.name == b[at..at + |f.name|]
    && (|f.name| == 29 || b[at + |f.name|] == 0)
  }

  lemma FieldsRead(b: Bytes, i: nat)
    requires WholeHeader(b) && i < WordAt(b, 0)
    ensures FieldRead(b, i, Layout(Names(b), Raws(b), 0)[i])
  {
    hide Layout, Raws, SizeAt, WordAt, Before, Cut, SizeOf;
    var n := WordAt(b, 0);
    LayoutAt(Names(b), Raws(b), 0, i);
    RawsAt(b, i);
    OffsetIsBefore(b, i);
    ReadNamesAt(b[4..], n, i);
    assert b[4..][30 * i..30 * i + 30] == b[4 + 30 * i..4 + 30 * i + 30];
    CutInClear(b[4 + 30 * i..4 + 30 * i + 30], 29);
  }

  lemma {:induction false} BeforeGrows(b: Bytes, i: nat, j: nat)
    requires WholeHeader(b) && i <= j <= WordAt(b, 0)
    ensures Before(b, i) + (j - i) <= Before(b, j)
    decreases j
  {
    hide SizeAt, WordAt;
    if i < j {
      RawsAt(b, j - 1);
      BeforeGrows(b, i, j - 1);
    }
  }

  /** Rows of the row size that the data has room for are all found. */
  lemma RowsOfWhole(b: Bytes)
    requires WholeHeader(b) && RowSize(b) < WORD && RowSize(b) > 0 && |Data(b)| % RowSize(b) == 0
    ensures RowsFit(Table(Layout(Names(b), Raws(b), 0), RowSize(b), |Data(b)| / RowSize(b), Data(b)))
  {
    hide Layout, Raws, SizeAt, WordAt, Names, FieldRead, Before, Data;
    var n, size, count := WordAt(b, 0), RowSize(b), |Data(b)| / RowSize(b);
    var t := Table(Layout(Names(b), Raws(b), 0), size, count, Data(b));
    forall row: nat, j | row < count && 0 <= j < n ensures InData(t, row, t.fields[j]) {
      FieldEnds(b, j);
      NextStart(size, row, count);
    }
  }

  lemma FieldEnds(b: Bytes, j: nat)
    requires WholeHeader(b) && j < WordAt(b, 0) && RowSize(b) < WORD
    ensures var f := Layout(Names(b), Raws(b), 0)[j];
      f.offset == Before(b, j) && f.size == SizeAt(b, j) && f.offset + f.size <= RowSize(b)
  {
    hide Layout, Raws, SizeAt, WordAt, Names;
    FieldsRead(b, j);
    BeforeGrows(b, j + 1, WordAt(b, 0));
  }

  /** The file of a table under 4 GiB: a whole header, and data that is rows of the sum of the sizes, or, if
      that does not fit 32 bits, no data and a sum that does not wrap to zero. */
  predicate IsTable(b: Bytes) {
    WholeHeader(b) &&
    if RowSize(b) < WORD then RowSize(b) > 0 && |Data(b)| % RowSize(b) == 0
    else RowSize(b) % WORD != 0 && |Data(b)| == 0
  }

  lemma LoadOfHeader(b: Bytes)
    requires WholeHeader(b)
    ensures var size, data := RowSize(b) % WORD, Data(b);
      Load(b) ==
      if size == 0 || |data| % size != 0 then None
      else
        var t := Table(Layout(Names(b), Raws(b), 0), size, |data| / size, data);
        if RowsFit(t) then Some(t) else None
  {
    hide Layout, EndOf, Raws, Names, Before, Data, WordAt, RowsFit;
    HeaderParts(b);
    EndIsOffset(Raws(b), 0);
    OffsetIsBefore(b, WordAt(b, 0));
  }

  /** If the first row fits, no offset wraps. */
  lemma {:induction false} FirstRowPreventsWrap(b: Bytes, t: Table, i: nat)
    requires WholeHeader(b) && i <= WordAt(b, 0) && t.fields == Layout(Names(b), Raws(b), 0)
    requires RowsFit(t) && t.rowCount > 0 && |t.data| < WORD
    ensures Before(b, i) <= |t.data|
  {
    hide Layout, Raws, SizeAt, WordAt, Names;
    if i > 0 {
      FirstRowPreventsWrap(b, t, i - 1);
      FieldsRead(b, i - 1);
      assert InData(t, 0, t.fields[i - 1]);
      assert Start(t, 0) == 0;
    }
  }

  lemma LoadsUnwrapped(b: Bytes)
    requires WholeHeader(b) && RowSize(b) < WORD
    ensures RowSize(b) > 0 && (Load(b).Some? <==> |Data(b)| % RowSize(b) == 0)
  {
    hide Layout, Raws, Names, Before, Data, WordAt, RowsFit, Load;
    LoadOfHeader(b);
    BeforeGrows(b, 0, WordAt(b, 0));
    if |Data(b)| % RowSize(b) == 0 {
      RowsOfWhole(b);
    }
  }

  lemma LoadsWrapped(b: Bytes)
    requires WholeHeader(b) && RowSize(b) >= WORD && |b| < WORD
    ensures Load(b).Some? <==> RowSize(b) % WORD != 0 && |Data(b)| == 0
  {
    hide Layout, Raws, Names, Before, Data, WordAt, RowsFit, Load;
    LoadOfHeader(b);
    DataIsPart(b);
    var size := RowSize(b) % WORD;
    if size != 0 && |Data(b)| % size == 0 {
      var t := Table(Layout(Names(b), Raws(b), 0), size, |Data(b)| / size, Data(b));
      if |Data(b)| == 0 {
        NoRowsFit(t);
      } else if RowsFit(t) {
        assert t.rowCount > 0;
        FirstRowPreventsWrap(b, t, WordAt(b, 0));
      }
    }
  }

  /** Under 4 GiB exactly the files of tables load. */
  lemma LoadsExactly(b: Bytes)
    requires |b| < WORD
    ensures Load(b).Some? <==> IsTable(b)
  {
    hide RowSize, Data, WordAt, Load;
    HeaderIsWhole(b);
    if !WholeHeader(b) {
      NothingLoaded(b);
    } else if RowSize(b) < WORD {
      LoadsUnwrapped(b);
    } else {
      LoadsWrapped(b);
    }
  }

  lemma NothingLoaded(b: Bytes)
    requires !HasHeader(b)
    ensures Load(b) == None
  {
  }

  lemma DataIsPart(b: Bytes)
    requires WholeHeader(b)
    ensures |Data(b)| <= |b|
  {
  }

  lemma NoRowsFit(t: Table)
    requires t.rowCount == 0
    ensures RowsFit(t)
  {
  }

  /** What is loaded: the fields as the bytes have them, and the bytes behind them. */
  lemma LoadedInClear(b: Bytes, i: nat)
    requires Load(b).Some?
    ensures WholeHeader(b)
    ensures var t := Load(b).value;
      && |t.fields| == WordAt(b, 0) && t.data == Data(b) && t.rowSize == RowSize(b) % WORD > 0
      && t.rowCount == |Data(b)| / t.rowSize
      && (i < WordAt(b, 0) ==> FieldRead(b, i, t.fields[i]))
  {
    hide Layout, Raws, Names, Before, Data, WordAt, RowsFit, Load, FieldRead;
    HeaderIsWhole(b);
    if !WholeHeader(b) {
      NothingLoaded(b);
    } else {
      LoadOfHeader(b);
      if i < WordAt(b, 0) {
        FieldsRead(b, i);
      }
    }
  }

  predicate PartIs(b: Bytes, at: nat, part: Bytes) {
    at + |part| <= |b| && part == b[at..at + |part|]
  }

  function RowStart(size: nat, row: nat): nat {
    NonNegative(size, row);
    size * row
  }

  /** The bytes of a field of a row, at its place behind the header. */
  predicate CellRead(b: Bytes, row: nat, i: nat, cell: Bytes)
    requires WholeHeader(b) && i < WordAt(b, 0)
  {
    |cell| == SizeAt(b, i) && PartIs(Data(b), RowStart(RowSize(b), row) + Before(b, i), cell)
  }

  /** The cells of a loaded table are found there. */
  lemma CellInClear(b: Bytes, t: Table, row: nat, i: nat)
    requires Load(b) == Some(t) && WholeHeader(b) && RowSize(b) < WORD && row < t.rowCount && i < WordAt(b, 0)
    ensures |t.fields| == WordAt(b, 0) && InData(t, row, t.fields[i]) && CellRead(b, row, i, Cell(t, row, t.fields[i]))
  {
    hide Layout, Raws, Names, Before, WordAt, SizeAt, Load, Data;
    LoadOfHeader(b);
    FieldEnds(b, i);
    NextStart(RowSize(b), row, t.rowCount);
  }
}
