/** Account patches: many patches merged into one parameterised update. */
module AccountPatches {
  import opened AccountLines

  // ------------------------------------------------------ what the update means

  /** The values of a patch, at the columns they are for. */
  function InColumns(p: Patch): Row {
    map c: Column | FieldAt(c) in p :: p[FieldAt(c)]
  }

  lemma InColumnsOfBoth(p: Patch, q: Patch)
    ensures InColumns(p + q) == InColumns(p) + InColumns(q)
  {
    hide FieldAt;
  }

  /** Patches applied to a row one after the other. */
  function ApplyAll(row: Row, ps: seq<Patch>): Row
    decreases |ps|
  {
    if |ps| == 0 then row else ApplyAll(row + InColumns(ps[0]), ps[1..])
  }

  /** The last value each member got. */
  function Merged(ps: seq<Patch>): Patch {
    if |ps| == 0 then map[] else Merged(ps[..|ps| - 1]) + ps[|ps| - 1]
  }

  lemma {:induction false} ApplyAllAppend(row: Row, ps: seq<Patch>, p: Patch)
    ensures ApplyAll(row, ps + [p]) == ApplyAll(row, ps) + InColumns(p)
    decreases |ps|
  {
    hide InColumns;
    if |ps| > 0 {
      assert (ps + [p])[1..] == ps[1..] + [p];
      ApplyAllAppend(row + InColumns(ps[0]), ps[1..], p);
    } else {
      assert [p][1..] == [];
    }
  }

  lemma AddTwice(row: Row, p: Row, q: Row)
    ensures row + p + q == row + (p + q)
  {
  }

  lemma InColumnsOfNothing(row: Row)
    ensures row + InColumns(map[]) == row
  {
    hide FieldAt;
  }

  /** One merged patch does what the patches did one by one. */
  lemma {:induction false} MergedAppliesAll(row: Row, ps: seq<Patch>)
    ensures ApplyAll(row, ps) == row + InColumns(Merged(ps))
  {
    hide InColumns;
    if |ps| > 0 {
      var n := |ps| - 1;
      MergedAppliesAll(row, ps[..n]);
      ApplyAllAppend(row, ps[..n], ps[n]);
      assert ps == ps[..n] + [ps[n]];
      InColumnsOfBoth(Merged(ps[..n]), ps[n]);
      AddTwice(row, InColumns(Merged(ps[..n])), InColumns(ps[n]));
    } else {
      InColumnsOfNothing(row);
    }
  }

  /** `UPDATE accounts SET c1 = ?, ..., cn = ? WHERE Id = ?`, by its columns. */
  datatype Statement = Update(columns: seq<Column>)

  /** The k-th placeholder sets the k-th column. */
  function Assign(row: Row, columns: seq<Column>, params: seq<Value>): Row
    requires |columns| <= |params|
    decreases |columns|
  {
    if |columns| == 0 then row else Assign(row[columns[0] := params[0]], columns[1..], params[1..])
  }

  /** What the database does with a statement and its bound parameters; the second result counts the rows. */
  function Execute(accounts: Accounts, s: Statement, params: seq<Value>): (Accounts, nat)
    requires |params| == |s.columns| + 1
  {
    match params[|s.columns|]
    case Number(id) =>
      if id in accounts then (accounts[id := Assign(accounts[id], s.columns, params)], 1) else (accounts, 0)
    case _ => (accounts, 0)
  }

  /** The locals hold the values of a patch, those that some of the lines merge. */
  predicate Merges(lines: seq<Line>, locals: Locals, m: Patch) {
    forall r :: r in lines ==> (r.into in locals <==> r.field in m) && (r.field in m ==> locals[r.into] == m[r.field])
  }

  predicate HasColumn(lines: seq<Line>, c: Column) {
    exists r :: r in lines && r.column == c
  }

  predicate HasField(lines: seq<Line>, f: Field) {
    exists r :: r in lines && r.field == f
  }

  /** Every column and every member has a line. */
  ghost predicate Complete(lines: seq<Line>) {
    (forall c :: HasColumn(lines, c)) && (forall f :: HasField(lines, f))
  }

  lemma LinesAreComplete()
    ensures AllRight(LINES) && Complete(LINES)
  {
    hide LINES, OneLocal, OwnColumn;
    PassagesAgree();
    forall c ensures HasColumn(LINES, c) {
      ColumnReached(c);
    }
    forall f ensures HasField(LINES, f) {
      FieldReached(f);
    }
  }

  predicate AllRight(lines: seq<Line>) {
    forall r :: r in lines ==> OneLocal(r) && OwnColumn(r)
  }

  function Named(lines: seq<Line>, locals: Locals): seq<Column> {
    if |lines| == 0 then [] else (if lines[0].when in locals then [lines[0].column] else []) + Named(lines[1..], locals)
  }

  function Bound(lines: seq<Line>, locals: Locals): seq<Value>
    requires AllRight(lines)
  {
    if |lines| == 0 then []
    else
      assert OneLocal(lines[0]);
      (if lines[0].bound in locals then [locals[lines[0].value]] else []) + Bound(lines[1..], locals)
  }

  /** For every subset of present members the k-th parameter is the value of the member that the
      k-th named column is for. */
  lemma {:induction false} ParametersMatch(lines: seq<Line>, locals: Locals, m: Patch)
    requires AllRight(lines) && Merges(lines, locals, m)
    ensures |Named(lines, locals)| == |Bound(lines, locals)|
    ensures forall k :: 0 <= k < |Named(lines, locals)| ==>
              var f := FieldAt(Named(lines, locals)[k]); f in m && Bound(lines, locals)[k] == m[f]
    ensures forall c :: c in Named(lines, locals) <==> exists r :: r in lines && r.column == c && r.field in m
  {
    hide FieldAt, FieldOf;
    if |lines| > 0 {
      ParametersMatch(lines[1..], locals, m);
      var r := lines[0];
      assert r in lines && OneLocal(r) && OwnColumn(r);
      assert forall q :: q in lines <==> q == r || q in lines[1..];
    }
  }

  lemma {:induction false} AssignPatch(row: Row, columns: seq<Column>, params: seq<Value>, m: Row)
    requires |columns| <= |params|
    requires forall k :: 0 <= k < |columns| ==> columns[k] in m && params[k] == m[columns[k]]
    ensures Assign(row, columns, params).Keys == row.Keys + set c | c in columns
    ensures forall c :: c in row && c !in columns ==> Assign(row, columns, params)[c] == row[c]
    ensures forall c :: c in columns ==> Assign(row, columns, params)[c] == m[c]
    decreases |columns|
  {
    if |columns| > 0 {
      AssignPatch(row[columns[0] := params[0]], columns[1..], params[1..], m);
    }
  }

  lemma NamedAreSet(lines: seq<Line>, locals: Locals, m: Patch, c: Column)
    requires AllRight(lines) && Complete(lines) && Merges(lines, locals, m)
    ensures c in Named(lines, locals) <==> c in InColumns(m)
  {
    hide FieldAt, FieldOf;
    ParametersMatch(lines, locals, m);
    assert HasColumn(lines, c);
    assert forall r :: r in lines ==> OwnColumn(r);
  }

  /** The statement built from a merge, with the parameters bound for it, applies the merge to one account. */
  lemma StatementAppliesMerge(accounts: Accounts, aid: int, lines: seq<Line>, locals: Locals, m: Patch)
    requires AllRight(lines) && Complete(lines) && Merges(lines, locals, m)
    ensures |Bound(lines, locals)| == |Named(lines, locals)|
    ensures Execute(accounts, Update(Named(lines, locals)), Bound(lines, locals) + [Number(aid)]) ==
            if aid in accounts then (accounts[aid := accounts[aid] + InColumns(m)], 1) else (accounts, 0)
  {
    hide FieldAt, FieldOf, Named, Bound, Assign, Merges, AllRight;
    ParametersMatch(lines, locals, m);
    if aid in accounts {
      var columns, params := Named(lines, locals), Bound(lines, locals) + [Number(aid)];
      forall c: Column ensures c in columns <==> c in InColumns(m) {
        NamedAreSet(lines, locals, m, c);
      }
      AssignPatch(accounts[aid], columns, params, InColumns(m));
      assert Assign(accounts[aid], columns, params) == accounts[aid] + InColumns(m);
    }
  }

  // ------------------------------------------------------------- the table

  datatype Outcome = Ok | NoRowsAffected

  predicate Assigned(done: seq<Line>, l: Local) {
    exists q :: q in done && q.into == l
  }

  /** Half-way through merging `p` into locals that hold `m`. */
  predicate Midway(lines: seq<Line>, locals: Locals, m: Patch, p: Patch, done: seq<Line>) {
    forall r :: r in lines ==>
      var v := if Assigned(done, r.into) then m + p else m;
      (r.into in locals <==> r.field in v) && (r.field in v ==> locals[r.into] == v[r.field])
  }

  /** Two members never share a local, so setting one leaves the others alone. */
  lemma MergeStep(lines: seq<Line>, locals: Locals, m: Patch, p: Patch, done: seq<Line>, line: Line)
    requires AllRight(lines) && Midway(lines, locals, m, p, done) && line in lines
    ensures Midway(lines, if line.field in p then locals[line.into := p[line.field]] else locals, m, p, done + [line])
  {
    hide FieldAt, FieldOf;
    forall r | r in lines
      ensures Assigned(done + [line], r.into) == (Assigned(done, r.into) || r.into == line.into)
      ensures r.into == line.into ==> r.field == line.field
    {
      assert OneLocal(r) && OneLocal(line);
      assert forall q :: q in done + [line] <==> q in done || q == line;
    }
  }

  lemma MergeBegins(lines: seq<Line>, locals: Locals, m: Patch, p: Patch)
    requires Merges(lines, locals, m)
    ensures Midway(lines, locals, m, p, [])
  {
  }

  lemma MergeEnds(lines: seq<Line>, locals: Locals, m: Patch, p: Patch)
    requires Midway(lines, locals, m, p, lines)
    ensures Merges(lines, locals, m + p)
  {
    assert forall r :: r in lines ==> Assigned(lines, r.into);
  }

  class AccountTable {
    var accounts: Accounts

    constructor (accounts: Accounts)
      ensures this.accounts == accounts
    {
      this.accounts := accounts;
    }

    static method MergeInto(lines: seq<Line>, before: Locals, ghost m: Patch, p: Patch) returns (locals: Locals)
      requires AllRight(lines) && Merges(lines, before, m)
      ensures Merges(lines, locals, m + p)
    {
      hide Merges, AllRight, Midway;
      locals := before;
      MergeBegins(lines, locals, m, p);
      for j := 0 to |lines|
        invariant Midway(lines, locals, m, p, lines[..j])
      {
        var line := lines[j];
        assert lines[..j + 1] == lines[..j] + [line];
        MergeStep(lines, locals, m, p, lines[..j], line);
        if line.field in p {
          locals := locals[line.into := p[line.field]];
        }
      }
      assert lines[..|lines|] == lines;
      MergeEnds(lines, locals, m, p);
    }

    static method Merge(lines: seq<Line>, patches: seq<Patch>) returns (locals: Locals)
      requires AllRight(lines)
      ensures Merges(lines, locals, Merged(patches))
    {
      hide AllRight;
      locals := map[];
      for i := 0 to |patches|
        invariant Merges(lines, locals, Merged(patches[..i]))
      {
        assert patches[..i + 1][..i] == patches[..i];
        locals := MergeInto(lines, locals, Merged(patches[..i]), patches[i]);
      }
      assert patches[..|patches|] == patches;
    }

    static method IsBlank(lines: seq<Line>, locals: Locals, ghost m: Patch) returns (blank: bool)
      requires AllRight(lines) && Complete(lines) && Merges(lines, locals, m)
      ensures blank == (m == map[])
    {
      hide FieldAt, FieldOf;
      blank := true;
      for i := 0 to |lines|
        invariant blank == forall k :: 0 <= k < i ==> lines[k].tested !in locals
      {
        if lines[i].tested in locals {
          blank := false;
        }
      }
      AllTested(lines, locals, m);
    }

    static method AddSets(lines: seq<Line>, locals: Locals) returns (columns: seq<Column>)
      ensures columns == Named(lines, locals)
    {
      columns := [];
      for i := 0 to |lines|
        invariant columns + Named(lines[i..], locals) == Named(lines, locals)
      {
        assert lines[i..][1..] == lines[i + 1..];
        ghost var before, rest := columns, Named(lines[i + 1..], locals);
        if lines[i].when in locals {
          columns := columns + [lines[i].column];
          assert columns + rest == before + ([lines[i].column] + rest);
        } else {
          assert Named(lines[i..], locals) == rest;
        }
      }
    }

    static method BindParameters(lines: seq<Line>, locals: Locals) returns (params: seq<Value>)
      requires AllRight(lines)
      ensures params == Bound(lines, locals)
    {
      hide FieldAt, FieldOf;
      params := [];
      for i := 0 to |lines|
        invariant params + Bound(lines[i..], locals) == Bound(lines, locals)
      {
        assert lines[i..][1..] == lines[i + 1..] && OneLocal(lines[i]);
        ghost var before, rest := params, Bound(lines[i + 1..], locals);
        if lines[i].bound in locals {
          var value := locals[lines[i].value];
          params := params + [value];
          assert params + rest == before + ([value] + rest);
        } else {
          assert Bound(lines[i..], locals) == rest;
        }
      }
    }

    /** `PersistAccountInfoPatches`. */
    method PersistAccountInfoPatches(aid: int, patches: seq<Patch>) returns (r: Outcome)
      modifies this
      ensures Merged(patches) == map[] ==> r == Ok && accounts == old(accounts)
      ensures Merged(patches) != map[] && aid !in old(accounts) ==> r == NoRowsAffected && accounts == old(accounts)
      ensures Merged(patches) != map[] && aid in old(accounts) ==>
                r == Ok && accounts == old(accounts)[aid := ApplyAll(old(accounts)[aid], patches)]
    {
      hide LINES, Merged, ApplyAll, Named, Bound, Execute, Merges, AllRight, Complete, InColumns;
      MergedOfNothing();
      if |patches| == 0 {
        return Ok;
      }
      LinesAreComplete();
      var locals := Merge(LINES, patches);
      var blank := IsBlank(LINES, locals, Merged(patches));
      if blank {
        return Ok;
      }
      var columns := AddSets(LINES, locals);
      var params := BindParameters(LINES, locals);
      params := params + [Number(aid)];
      StatementAppliesMerge(accounts, aid, LINES, locals, Merged(patches));
      if aid in accounts {
        MergedAppliesAll(accounts[aid], patches);
      }
      var (table, affected) := Execute(accounts, Update(columns), params);
      accounts := table;
      r := if affected == 0 then NoRowsAffected else Ok;
    }
  }

  lemma AllTested(lines: seq<Line>, locals: Locals, m: Patch)
    requires AllRight(lines) && Complete(lines) && Merges(lines, locals, m)
    ensures m == map[] <==> forall k :: 0 <= k < |lines| ==> lines[k].tested !in locals
  {
    hide FieldAt, FieldOf;
    forall r | r in lines ensures r.tested in locals <==> r.field in m {
      assert OneLocal(r);
    }
    forall f | f in m ensures exists r :: r in lines && r.tested in locals {
      assert HasField(lines, f);
      var r :| r in lines && r.field == f;
      assert r.tested in locals;
    }
    assert forall r :: r in lines ==> exists k :: 0 <= k < |lines| && lines[k] == r;
  }

  lemma MergedOfNothing()
    ensures Merged([]) == map[]
  {
  }
}
