/** Item patches: many patches of many items merged into one CASE update. */
module ItemPatches {

  /** The columns a patch can set, in the order the statement names them. */
  datatype Column = ItemId | ExpirationDate | Repair | Energy | IsEquipped | CharacterId

  const COLUMNS: seq<Column> := [ItemId, ExpirationDate, Repair, Energy, IsEquipped, CharacterId]

  type Patch = map<Column, nat>

  /** The columns of a row that patches can reach. */
  datatype Row = Row(itemId: nat, expirationDate: nat, repair: nat, energy: nat, isEquipped: nat, characterId: nat)

  function Get(row: Row, c: Column): nat {
    match c
    case ItemId => row.itemId
    case ExpirationDate => row.expirationDate
    case Repair => row.repair
    case Energy => row.energy
    case IsEquipped => row.isEquipped
    case CharacterId => row.characterId
  }

  function Set(row: Row, c: Column, v: nat): Row {
    match c
    case ItemId => row.(itemId := v)
    case ExpirationDate => row.(expirationDate := v)
    case Repair => row.(repair := v)
    case Energy => row.(energy := v)
    case IsEquipped => row.(isEquipped := v)
    case CharacterId => row.(characterId := v)
  }

  function Pick(patch: Patch, c: Column, otherwise: nat): nat {
    if c in patch then patch[c] else otherwise
  }

  function Patched(row: Row, p: Patch): Row {
    Row(Pick(p, ItemId, row.itemId), Pick(p, ExpirationDate, row.expirationDate), Pick(p, Repair, row.repair),
        Pick(p, Energy, row.energy), Pick(p, IsEquipped, row.isEquipped), Pick(p, CharacterId, row.characterId))
  }

  lemma PatchedTwice(row: Row, p: Patch, q: Patch)
    ensures Patched(Patched(row, p), q) == Patched(row, p + q)
    ensures Patched(row, map[]) == row && map[] + p == p
  {
  }

  datatype ItemKey = ItemKey(player: int, serial: nat)
  type Items = map<ItemKey, Row>

  datatype SerialPatch = SerialPatch(serial: nat, patch: Patch)

  // ---------------------------------------------------------- one patch at a time

  /** `UPDATE player_items SET ... WHERE PlayerId = aid AND SerialInfo = serial` for one patch. */
  function Apply(items: Items, aid: int, p: SerialPatch): Items {
    var k := ItemKey(aid, p.serial);
    if k in items then items[k := Patched(items[k], p.patch)] else items
  }

  function ApplyAll(items: Items, aid: int, ps: seq<SerialPatch>): Items {
    if |ps| == 0 then items else Apply(ApplyAll(items, aid, ps[..|ps| - 1]), aid, ps[|ps| - 1])
  }

  /** The last value each column of each item got. */
  function Merged(ps: seq<SerialPatch>): map<nat, Patch> {
    if |ps| == 0 then map[]
    else
      var m, p := Merged(ps[..|ps| - 1]), ps[|ps| - 1];
      m[p.serial := (if p.serial in m then m[p.serial] else map[]) + p.patch]
  }

  /** Applied one by one, the patches give every item its merged patch. */
  lemma {:induction false} ApplyAllIsMerged(items: Items, aid: int, ps: seq<SerialPatch>)
    ensures ApplyAll(items, aid, ps).Keys == items.Keys
    ensures forall k :: k in items ==>
              ApplyAll(items, aid, ps)[k] ==
              (if k.player == aid && k.serial in Merged(ps) then Patched(items[k], Merged(ps)[k.serial]) else items[k])
  {
    hide Patched;
    if |ps| > 0 {
      var n := |ps| - 1;
      ApplyAllIsMerged(items, aid, ps[..n]);
      var m, p := Merged(ps[..n]), ps[n];
      var k := ItemKey(aid, p.serial);
      if k in items {
        PatchedTwice(items[k], if p.serial in m then m[p.serial] else map[], p.patch);
      }
    }
  }

  // ------------------------------------------------------------- the one update

  /** `WHEN serial THEN value`, and `column = CASE SerialInfo <arms> ELSE column END`. */
  datatype Arm = When(serial: nat, value: nat)
  datatype Clause = SetCase(column: Column, arms: seq<Arm>)

  function Case(arms: seq<Arm>, serial: nat, otherwise: nat): nat {
    if |arms| == 0 then otherwise
    else if arms[0].serial == serial then arms[0].value
    else Case(arms[1..], serial, otherwise)
  }

  /** The assignments of a row, left to right. */
  function Assign(row: Row, clauses: seq<Clause>, serial: nat): Row
    decreases |clauses|
  {
    if |clauses| == 0 then row
    else
      var c := clauses[0].column;
      Assign(Set(row, c, Case(clauses[0].arms, serial, Get(row, c))), clauses[1..], serial)
  }

  predicate Hit(k: ItemKey, aid: int, serials: seq<nat>) {
    k.player == aid && k.serial in serials
  }

  /** `UPDATE player_items SET <clauses> WHERE PlayerId = aid AND SerialInfo IN (<serials>)`. */
  function Execute(items: Items, clauses: seq<Clause>, aid: int, serials: seq<nat>): Items {
    map k | k in items :: if Hit(k, aid, serials) then Assign(items[k], clauses, k.serial) else items[k]
  }

  function Affected(items: Items, aid: int, serials: seq<nat>): set<ItemKey> {
    set k | k in items && Hit(k, aid, serials)
  }

  /** The arms of a column: one for every listed item whose merged patch sets the column. */
  function Arms(serials: seq<nat>, m: map<nat, Patch>, c: Column): seq<Arm>
    requires forall s :: s in serials ==> s in m
  {
    if |serials| == 0 then []
    else
      var s := serials[|serials| - 1];
      Arms(serials[..|serials| - 1], m, c) + if c in m[s] then [When(s, m[s][c])] else []
  }

  /** A column is named only if it has an arm. */
  function Clauses(columns: seq<Column>, serials: seq<nat>, m: map<nat, Patch>): seq<Clause>
    requires forall s :: s in serials ==> s in m
  {
    if |columns| == 0 then []
    else
      var arms := Arms(serials, m, columns[0]);
      (if |arms| > 0 then [SetCase(columns[0], arms)] else []) + Clauses(columns[1..], serials, m)
  }

  lemma {:induction false} CaseAppend(arms: seq<Arm>, more: seq<Arm>, serial: nat, otherwise: nat)
    ensures Case(arms + more, serial, otherwise) == Case(arms, serial, Case(more, serial, otherwise))
  {
    if |arms| > 0 {
      assert (arms + more)[1..] == arms[1..] + more;
      CaseAppend(arms[1..], more, serial, otherwise);
    } else {
      assert arms + more == more;
    }
  }

  /** In whatever order the items are listed, a CASE yields the item's own value, or keeps the column. */
  lemma {:induction false} CaseFinds(serials: seq<nat>, m: map<nat, Patch>, c: Column, serial: nat, otherwise: nat)
    requires forall s :: s in serials ==> s in m
    ensures Case(Arms(serials, m, c), serial, otherwise) ==
            (if serial in serials && c in m[serial] then m[serial][c] else otherwise)
    ensures |Arms(serials, m, c)| > 0 <==> exists s :: s in serials && c in m[s]
  {
    if |serials| > 0 {
      var n := |serials| - 1;
      var s := serials[n];
      var more := if c in m[s] then [When(s, m[s][c])] else [];
      CaseAppend(Arms(serials[..n], m, c), more, serial, otherwise);
      CaseFinds(serials[..n], m, c, serial, Case(more, serial, otherwise));
      assert serials == serials[..n] + [s];
      assert more == [] || more[1..] == [];
    }
  }

  lemma {:induction false} AssignClauses(row: Row, columns: seq<Column>, serials: seq<nat>, m: map<nat, Patch>, serial: nat)
    requires (forall s :: s in serials ==> s in m) && serial in serials
    ensures forall c :: c !in columns ==> Get(Assign(row, Clauses(columns, serials, m), serial), c) == Get(row, c)
    ensures forall c :: c in columns ==>
              Get(Assign(row, Clauses(columns, serials, m), serial), c) == Pick(m[serial], c, Get(row, c))
    decreases |columns|
  {
    hide Case, Arms;
    if |columns| > 0 {
      var c := columns[0];
      var arms := Arms(serials, m, c);
      var rest := Clauses(columns[1..], serials, m);
      CaseFinds(serials, m, c, serial, Get(row, c));
      if |arms| > 0 {
        var next := Set(row, c, Case(arms, serial, Get(row, c)));
        assert ([SetCase(c, arms)] + rest)[1..] == rest;
        AssignClauses(next, columns[1..], serials, m, serial);
      } else {
        assert Clauses(columns, serials, m) == rest;
        AssignClauses(row, columns[1..], serials, m, serial);
      }
    }
  }

  lemma AllColumns()
    ensures forall c: Column :: c in COLUMNS
  {
    forall c: Column ensures c in COLUMNS {
      match c
      case ItemId => assert COLUMNS[0] == c;
      case ExpirationDate => assert COLUMNS[1] == c;
      case Repair => assert COLUMNS[2] == c;
      case Energy => assert COLUMNS[3] == c;
      case IsEquipped => assert COLUMNS[4] == c;
      case CharacterId => assert COLUMNS[5] == c;
    }
  }

  lemma SameColumns(r: Row, s: Row)
    requires forall c :: c in COLUMNS ==> Get(r, c) == Get(s, c)
    ensures r == s
  {
    AllColumns();
    assert Get(r, ItemId) == Get(s, ItemId) && Get(r, ExpirationDate) == Get(s, ExpirationDate)
        && Get(r, Repair) == Get(s, Repair) && Get(r, Energy) == Get(s, Energy)
        && Get(r, IsEquipped) == Get(s, IsEquipped) && Get(r, CharacterId) == Get(s, CharacterId);
  }

  /** The statement built from a merge, with the items listed in any order, does what the
      patches do one by one. */
  lemma UpdateAppliesAll(items: Items, aid: int, ps: seq<SerialPatch>, serials: seq<nat>)
    requires forall s :: s in serials <==> s in Merged(ps)
    ensures Execute(items, Clauses(COLUMNS, serials, Merged(ps)), aid, serials) == ApplyAll(items, aid, ps)
  {
    hide Assign, Clauses, ApplyAll, Merged;
    ApplyAllIsMerged(items, aid, ps);
    var m := Merged(ps);
    forall k | k in items && Hit(k, aid, serials)
      ensures Assign(items[k], Clauses(COLUMNS, serials, m), k.serial) == Patched(items[k], m[k.serial])
    {
      AssignClauses(items[k], COLUMNS, serials, m, k.serial);
      SameColumns(Assign(items[k], Clauses(COLUMNS, serials, m), k.serial), Patched(items[k], m[k.serial]));
    }
  }

  lemma {:induction false} NoClauses(columns: seq<Column>, serials: seq<nat>, m: map<nat, Patch>)
    requires forall s :: s in serials ==> s in m
    ensures Clauses(columns, serials, m) == [] <==> forall s, c :: s in serials && c in columns ==> c !in m[s]
  {
    hide Arms;
    if |columns| > 0 {
      CaseFinds(serials, m, columns[0], 0, 0);
      NoClauses(columns[1..], serials, m);
      var arms := Arms(serials, m, columns[0]);
      assert forall c :: c in columns <==> c == columns[0] || c in columns[1..];
      if |arms| > 0 {
        var s :| s in serials && columns[0] in m[s];
        assert Clauses(columns, serials, m)[0] == SetCase(columns[0], arms);
        assert s in serials && columns[0] in columns && columns[0] in m[s];
      } else {
        assert Clauses(columns, serials, m) == Clauses(columns[1..], serials, m);
      }
    }
  }

  /** A statement without clauses, or one that hits no row, would change nothing. */
  lemma NothingToDo(items: Items, aid: int, clauses: seq<Clause>, serials: seq<nat>)
    requires clauses == [] || Affected(items, aid, serials) == {}
    ensures Execute(items, clauses, aid, serials) == items
  {
    forall k | k in items ensures !Hit(k, aid, serials) || clauses == [] {
      if Hit(k, aid, serials) {
        assert k in Affected(items, aid, serials) || clauses == [];
      }
    }
  }

  // ------------------------------------------------------------- the table

  datatype Outcome = Ok | NoRowsAffected

  function Only(p: Patch, cs: seq<Column>): Patch {
    map c | c in p && c in cs :: p[c]
  }

  class ItemTable {
    var items: Items

    constructor (items: Items)
      ensures this.items == items
    {
      this.items := items;
    }

    static method MergeInto(existing: Patch, p: Patch) returns (merged: Patch)
      ensures merged == existing + p
    {
      hide COLUMNS;
      merged := existing;
      for i := 0 to |COLUMNS|
        invariant merged == existing + Only(p, COLUMNS[..i])
      {
        assert COLUMNS[..i + 1] == COLUMNS[..i] + [COLUMNS[i]];
        if COLUMNS[i] in p {
          merged := merged[COLUMNS[i] := p[COLUMNS[i]]];
        }
      }
      AllColumns();
      assert COLUMNS[..|COLUMNS|] == COLUMNS;
      assert Only(p, COLUMNS) == p;
    }

    static method Merge(patches: seq<SerialPatch>) returns (merged: map<nat, Patch>)
      ensures merged == Merged(patches)
    {
      merged := map[];
      for i := 0 to |patches|
        invariant merged == Merged(patches[..i])
      {
        var p := patches[i];
        assert patches[..i + 1][..i] == patches[..i];
        var existing := if p.serial in merged then merged[p.serial] else map[];
        existing := MergeInto(existing, p.patch);
        merged := merged[p.serial := existing];
      }
      assert patches[..|patches|] == patches;
    }

    /** List the merged items in the order the map gives them, and collect the arms of a column. */
    static method ListSerials(merged: map<nat, Patch>) returns (serials: seq<nat>)
      ensures forall s :: s in serials <==> s in merged
      ensures forall i, j :: 0 <= i < j < |serials| ==> serials[i] != serials[j]
    {
      serials := [];
      var left := merged.Keys;
      while left != {}
        invariant left <= merged.Keys && forall s :: s in serials <==> s in merged && s !in left
        invariant forall i, j :: 0 <= i < j < |serials| ==> serials[i] != serials[j]
        decreases |left|
      {
        var s :| s in left;
        serials := serials + [s];
        left := left - {s};
      }
    }

    static method CollectArms(serials: seq<nat>, merged: map<nat, Patch>, c: Column) returns (arms: seq<Arm>)
      requires forall s :: s in serials ==> s in merged
      ensures arms == Arms(serials, merged, c)
    {
      arms := [];
      for i := 0 to |serials|
        invariant arms == Arms(serials[..i], merged, c)
      {
        assert serials[..i + 1][..i] == serials[..i];
        var s := serials[i];
        if c in merged[s] {
          arms := arms + [When(s, merged[s][c])];
        }
      }
      assert serials[..|serials|] == serials;
    }

    static method BuildClauses(columns: seq<Column>, serials: seq<nat>, merged: map<nat, Patch>) returns (sets: seq<Clause>)
      requires forall s :: s in serials ==> s in merged
      ensures sets == Clauses(columns, serials, merged)
    {
      hide Arms;
      sets := [];
      for i := 0 to |columns|
        invariant sets + Clauses(columns[i..], serials, merged) == Clauses(columns, serials, merged)
      {
        assert columns[i..][1..] == columns[i + 1..];
        ghost var rest := Clauses(columns[i + 1..], serials, merged);
        ghost var before := sets;
        var arms := CollectArms(serials, merged, columns[i]);
        if |arms| > 0 {
          sets := sets + [SetCase(columns[i], arms)];
          assert sets + rest == before + ([SetCase(columns[i], arms)] + rest);
        } else {
          assert Clauses(columns[i..], serials, merged) == rest;
        }
      }
    }

    /** `PersistItemPatches`: whatever the outcome, the table is what the patches give one by one;
        an error says that there was something to set and no item of the account to set it on. */
    method PersistItemPatches(aid: int, patches: seq<SerialPatch>)
      returns (r: Outcome, patchedRows: nat, patchedSerials: seq<nat>)
      modifies this
      ensures items == ApplyAll(old(items), aid, patches)
      ensures r == NoRowsAffected <==>
              && (exists p :: p in patches && p.patch != map[])
              && forall p :: p in patches ==> ItemKey(aid, p.serial) !in old(items)
      ensures patchedSerials != [] <==> r == Ok && exists p :: p in patches && p.patch != map[]
      ensures patchedSerials != [] ==>
                && (forall s :: s in patchedSerials <==> exists p :: p in patches && p.serial == s)
                && patchedRows == |Affected(old(items), aid, patchedSerials)| > 0
    {
      hide Merged, ApplyAll, Clauses, Execute, COLUMNS;
      r, patchedRows, patchedSerials := Ok, 0, [];
      MergedKnows(patches);
      var merged := Merge(patches);
      var serials := ListSerials(merged);
      UpdateAppliesAll(items, aid, patches, serials);
      SomethingToSet(patches, serials);
      if |serials| == 0 {
        NothingToDo(items, aid, [], serials);
        return;
      }
      var sets := BuildClauses(COLUMNS, serials, merged);
      if |sets| == 0 {
        NothingToDo(items, aid, sets, serials);
        return;
      }
      NothingHit(items, aid, patches, serials);
      patchedRows := |Affected(items, aid, serials)|;
      if patchedRows == 0 {
        NothingToDo(items, aid, sets, serials);
        return NoRowsAffected, 0, [];
      }
      items := Execute(items, sets, aid, serials);
      patchedSerials := serials;
    }
  }

  lemma SomethingToSet(ps: seq<SerialPatch>, serials: seq<nat>)
    requires forall s :: s in serials <==> s in Merged(ps)
    ensures Clauses(COLUMNS, serials, Merged(ps)) == [] <==> forall p :: p in ps ==> p.patch == map[]
    ensures serials == [] ==> ps == []
  {
    hide Merged, Clauses, COLUMNS;
    MergedKnows(ps);
    AllColumns();
    NoClauses(COLUMNS, serials, Merged(ps));
    forall p | p in ps && p.patch != map[] ensures Clauses(COLUMNS, serials, Merged(ps)) != [] {
      var c :| c in p.patch;
      assert p.serial in serials && c in COLUMNS && c in Merged(ps)[p.serial];
    }
    if |ps| > 0 {
      assert ps[0].serial in serials;
    }
  }

  lemma NothingHit(items: Items, aid: int, ps: seq<SerialPatch>, serials: seq<nat>)
    requires forall s :: s in serials <==> exists p :: p in ps && p.serial == s
    ensures Affected(items, aid, serials) == {} <==> forall p :: p in ps ==> ItemKey(aid, p.serial) !in items
  {
    var hit := Affected(items, aid, serials);
    forall p | p in ps && ItemKey(aid, p.serial) in items ensures hit != {} {
      assert ItemKey(aid, p.serial) in hit;
    }
    forall k | k in hit ensures exists p :: p in ps && ItemKey(aid, p.serial) in items {
      var p :| p in ps && p.serial == k.serial;
      assert ItemKey(aid, p.serial) == k;
    }
  }

  lemma {:induction false} MergedKnows(ps: seq<SerialPatch>)
    ensures forall s :: s in Merged(ps) <==> exists p :: p in ps && p.serial == s
    ensures forall s, c :: s in Merged(ps) ==> (c in Merged(ps)[s] <==> exists p :: p in ps && p.serial == s && c in p.patch)
  {
    if |ps| > 0 {
      var n := |ps| - 1;
      MergedKnows(ps[..n]);
      assert ps == ps[..n] + [ps[n]];
    }
  }
}
