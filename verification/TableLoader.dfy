/** The table object: loading a file field by field and row by row, and saving it again. */
module TableLoader {
  import opened Options
  import opened Words
  import opened TableFile

  class CDBM {
    var fieldCount: nat
    var rowCount: nat
    var rowSize: nat
    var box: seq<Field>
    var data: Bytes
    var dataRows: seq<map<Bytes, Bytes>>     // the bytes of every field of every row, by name

    ghost function View(): Table
      reads this
    {
      Table(box, rowSize, rowCount, data)
    }

    ghost predicate Loaded()
      reads this
    {
      && fieldCount == |box| && RowsFit(View()) && |dataRows| == rowCount
      && forall i :: 0 <= i < rowCount ==> RowRead(View(), i, dataRows[i], |box|)
    }

    constructor ()
      ensures Loaded() && View() == Table([], 0, 0, [])
    {
      fieldCount, rowCount, rowSize, box, data, dataRows := 0, 0, 0, [], [], [];
    }

    static method Names(contents: Bytes, n: nat) returns (names: seq<Bytes>, lastPos: nat)
      requires |contents| >= 4 + NAME_LEN * n
      ensures names == ReadNames(contents[4..], n) && lastPos == 4 + NAME_LEN * n
    {
      lastPos, names := 4, [];
      for i := 0 to n
        invariant lastPos == 4 + NAME_LEN * i
        invariant names + ReadNames(contents[lastPos..], n - i) == ReadNames(contents[4..], n)
      {
        var here := contents[lastPos..];
        assert here[NAME_LEN..] == contents[lastPos + NAME_LEN..];
        names := names + [here[..NAME_LEN]];
        lastPos := lastPos + NAME_LEN;
      }
    }

    static method Types(contents: Bytes, from: nat, n: nat) returns (raws: seq<nat>, lastPos: nat)
      requires |contents| >= from + 4 * n
      ensures raws == ReadTypes(contents[from..], n) && lastPos == from + 4 * n
    {
      hide LeNat;
      lastPos, raws := from, [];
      for i := 0 to n
        invariant lastPos == from + 4 * i
        invariant raws + ReadTypes(contents[lastPos..], n - i) == ReadTypes(contents[from..], n)
      {
        var here := contents[lastPos..];
        assert here[4..] == contents[lastPos + 4..];
        raws := raws + [LeNat(here[..4])];
        lastPos := lastPos + 4;
      }
    }

    /** The types, sizes and offsets of the fields. No type word has size zero. */
    static method LayOut(names: seq<Bytes>, raws: seq<nat>) returns (fields: seq<Field>, offset: nat)
      requires |names| == |raws|
      ensures fields == Layout(names, raws, 0) && offset == EndOf(raws, 0)
    {
      hide Cut, TypeOf, SizeOf;
      offset, fields := 0, [];
      for i := 0 to |raws|
        invariant fields + Layout(names[i..], raws[i..], offset) == Layout(names, raws, 0)
        invariant EndOf(raws[i..], offset) == EndOf(raws, 0)
      {
        assert raws[i..][1..] == raws[i + 1..] && names[i..][1..] == names[i + 1..];
        var field := Field(TypeOf(raws[i]), SizeOf(raws[i]), offset, Cut(names[i], NAME_LEN - 1));
        fields := fields + [field];
        offset := (offset + field.size) % WORD;
      }
    }

    /** `GetData`: the bytes at an offset of a row, or nothing if the data ends before. */
    method GetData(row: nat, f: Field) returns (bytes: Bytes)
      ensures bytes == if rowSize * row + f.offset + f.size <= |data|
                       then data[rowSize * row + f.offset..rowSize * row + f.offset + f.size] else []
    {
      var start := rowSize * row + f.offset;
      if start + f.size > |data| {
        return [];
      }
      bytes := data[start..start + f.size];
    }

    /** `LoadCDB`. A load that fails may leave the object half filled: without a header only the field
        count has changed; fields that do not make up a row, or data that is not rows, stand beside
        the rows from before; and rows are read up to the first that the data ends in. */
    method LoadCDB(contents: Bytes) returns (ok: bool)
      modifies this
      ensures ok <==> Load(contents).Some?
      ensures ok ==> View() == Load(contents).value && Loaded()
      ensures |contents| >= 4 ==> fieldCount == LeNat(contents[..4])
      ensures !ok && !HasHeader(contents) ==> View() == old(View()) && dataRows == old(dataRows)
      ensures !ok && HasHeader(contents) ==>
                var (fields, size, bytes) := Header(contents);
                && box == fields && rowSize == size
                && data == (if size == 0 then old(data) else bytes)
                && if size == 0 || |bytes| % size != 0 then rowCount == old(rowCount) && dataRows == old(dataRows)
                   else rowCount == |bytes| / size && ReadSoFar() && |dataRows| < rowCount && !RowInData(|dataRows|)
    {
      hide ReadNames, ReadTypes, Layout, EndOf, LeNat;
      if |contents| < 4 {
        return false;
      }
      fieldCount := LeNat(contents[..4]);
      if fieldCount == 0 {
        return false;
      }
      if |contents| < 4 + fieldCount * (NAME_LEN + 4) {
        return false;
      }
      var names, lastPos := Names(contents, fieldCount);
      var raws;
      raws, lastPos := Types(contents, lastPos, fieldCount);
      box, rowSize := LayOut(names, raws);
      SizesArePositive(names, raws, 0);
      if rowSize == 0 {
        return false;
      }
      data := contents[lastPos..];
      if |data| % rowSize != 0 {
        return false;
      }
      rowCount := |data| / rowSize;
      ok := ReadRows();
    }

    /** Every field of the row ends before the data does. */
    ghost predicate RowInData(row: nat)
      reads this
    {
      forall j :: 0 <= j < |box| ==> InData(View(), row, box[j])
    }

    /** The rows read are the first rows of the data. */
    ghost predicate ReadSoFar()
      reads this
    {
      |dataRows| <= rowCount && forall i :: 0 <= i < |dataRows| ==> RowRead(View(), i, dataRows[i], |box|)
    }

    method ReadRows() returns (ok: bool)
      requires fieldCount == |box| && forall f :: f in box ==> f.size > 0
      modifies this`dataRows
      ensures ok <==> RowsFit(View())
      ensures ok ==> Loaded()
      ensures !ok ==> ReadSoFar() && |dataRows| < rowCount && !RowInData(|dataRows|)
    {
      dataRows := [];
      for i := 0 to rowCount
        invariant |dataRows| == i
        invariant forall row, j :: 0 <= row < i && 0 <= j < |box| ==> InData(View(), row, box[j])
        invariant forall k :: 0 <= k < i ==> RowRead(View(), k, dataRows[k], |box|)
      {
        var row: map<Bytes, Bytes> := map[];
        ghost var before := dataRows;
        for j := 0 to fieldCount
          invariant RowRead(View(), i, row, j) && dataRows == before
        {
          var cell := GetData(i, box[j]);
          if |cell| != box[j].size {
            assert !InData(View(), i, box[j]);
            return false;
          }
          row := row[box[j].name := cell];
        }
        dataRows := dataRows + [row];
      }
      ok := true;
    }

    /** `SaveCDB`, up to writing the bytes to a file. */
    method SaveCDB() returns (out: Bytes)
      requires Loaded()
      ensures out == Save(View())
    {
      hide NatBytes, Pad;
      out := NatBytes(fieldCount, 4);
      var head := out;
      for i := 0 to fieldCount
        invariant out + SaveNames(box[i..]) == head + SaveNames(box)
      {
        assert box[i..][1..] == box[i + 1..];
        out := out + Pad(box[i].name);
      }
      ghost var named := out;
      assert box[fieldCount..] == [] && named == head + SaveNames(box);
      for i := 0 to fieldCount
        invariant out + SaveSizes(box[i..]) == named + SaveSizes(box)
      {
        assert box[i..][1..] == box[i + 1..];
        out := out + NatBytes(box[i].size, 4);
      }
      out := out + data;
    }
  }

  /** The first `n` fields of a row have been read. */
  ghost predicate RowRead(t: Table, row: nat, cells: map<Bytes, Bytes>, n: nat) {
    && n <= |t.fields| && (forall j :: 0 <= j < n ==> InData(t, row, t.fields[j]))
    && cells == RowByName(t, row, n)
  }
}
