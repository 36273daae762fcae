/** The CRUD query builders (datasource/crud.go): every placeholder denotes the
argument appended for it, and every WHERE means the conjunction it stands for. */
module Crud {
  import opened Options
  import opened Keyset
  import opened Sql
  import Like

  /** CRUDField; `textual` says that the field filters by a list of values. */
  datatype Field = Field(name: string, column: string, textual: bool, primaryKey: bool, tenantKey: bool, immutable: bool)

  datatype ListSpec = ListSpec(
    filters: seq<string>, search: seq<string>, sorts: seq<string>,
    defaultSort: string, defaultDirection: string, maxPageSize: int)

  datatype Spec = Spec(fields: seq<Field>, list: ListSpec)

  /** The parts of a WHERE and the values appended for their placeholders. */
  datatype Clause<V> = Clause(parts: seq<Expr>, cells: seq<Cell<V>>)

  function Join<V>(a: Clause<V>, b: Clause<V>): Clause<V> {
    Clause(a.parts + b.parts, a.cells + b.cells)
  }

  lemma JoinMeaning<V(!new)>(db: Db<V>, a: Clause<V>, b: Clause<V>, start: nat, args: seq<Arg<V>>, row: Row<V>)
    requires Passes(args, start, Join(a, b).cells)
    ensures Passes(args, start, a.cells) && Passes(args, start + |a.cells|, b.cells)
    ensures AllHold(db, args, row, Join(a, b).parts) <==> AllHold(db, args, row, a.parts) && AllHold(db, args, row, b.parts)
  {
    PassesParts(args, start, a.cells, b.cells);
    AllConcat(db, args, row, a.parts, b.parts);
  }

  /** Some primary key column tells two rows apart. */
  predicate Apart<V(==)>(fields: seq<Field>, a: Row<V>, b: Row<V>) {
    exists field :: field in fields && field.primaryKey && CellOf(a, field.column) != CellOf(b, field.column)
  }

  /** No two rows of a table share a primary key. */
  ghost predicate Keyed<V(!new)>(fields: seq<Field>, table: seq<Row<V>>) {
    forall i, j :: 0 <= i < j < |table| ==> Apart(fields, table[i], table[j])
  }

  datatype Scope = TenantScope | KeyScope

  predicate Includes(scope: Scope, field: Field) {
    field.tenantKey || (scope == KeyScope && field.primaryKey)
  }

  // ----- crudWhereFrom -----

  /** Equality on every included field; None when the input misses one. */
  function WhereFrom<V>(fields: seq<Field>, values: map<string, Cell<V>>, start: nat, scope: Scope): Option<Clause<V>> {
    if fields == [] then Some(Clause([], []))
    else if !Includes(scope, fields[0]) then WhereFrom(fields[1..], values, start, scope)
    else if fields[0].name !in values then None
    else
      match WhereFrom(fields[1..], values, start + 1, scope)
      case None => None
      case Some(rest) => Some(Clause([Equal(fields[0].column, start)] + rest.parts, [values[fields[0].name]] + rest.cells))
  }

  /** The row has, in every included column, the given value, which is not NULL. */
  predicate Scoped<V(==)>(fields: seq<Field>, values: map<string, Cell<V>>, scope: Scope, row: Row<V>) {
    forall field :: field in fields && (field.tenantKey || (scope == KeyScope && field.primaryKey)) ==>
      field.name in values && values[field.name].Some? && CellOf(row, field.column) == values[field.name]
  }

  /** Only a missing value refuses. */
  lemma {:induction false} WhereMissing<V(!new)>(fields: seq<Field>, values: map<string, Cell<V>>, start: nat, scope: Scope)
    ensures WhereFrom(fields, values, start, scope).None? <==>
            exists field :: field in fields && (field.tenantKey || (scope == KeyScope && field.primaryKey)) && field.name !in values
  {
    if fields != [] {
      WhereMissing(fields[1..], values, start, scope);
      WhereMissing(fields[1..], values, start + 1, scope);
      assert forall field :: field in fields <==> field == fields[0] || field in fields[1..];
    }
  }

  lemma {:induction false} WhereMeaning<V(!new)>(db: Db<V>, fields: seq<Field>, values: map<string, Cell<V>>, start: nat, scope: Scope, args: seq<Arg<V>>, row: Row<V>)
    requires WhereFrom(fields, values, start, scope).Some?
    requires Passes(args, start, WhereFrom(fields, values, start, scope).value.cells)
    ensures AllHold(db, args, row, WhereFrom(fields, values, start, scope).value.parts) <==> Scoped(fields, values, scope, row)
  {
    if fields != [] {
      var head, tail := fields[0], fields[1..];
      assert fields == [head] + tail;
      if Includes(scope, head) {
        var clause := WhereFrom(fields, values, start, scope).value;
        var rest := WhereFrom(tail, values, start + 1, scope).value;
        PassesParts(args, start, [values[head.name]], rest.cells);
        PassesAt(args, start, [values[head.name]], 0);
        WhereMeaning(db, tail, values, start + 1, scope, args, row);
        AllConcat(db, args, row, [Equal(head.column, start)], rest.parts);
        AllOne(db, args, row, Equal(head.column, start));
      } else {
        WhereMeaning(db, tail, values, start, scope, args, row);
      }
    }
  }

  /** crudWhereFrom, as the loop that grows both slices. */
  method BuildWhere<V>(fields: seq<Field>, values: map<string, Cell<V>>, start: nat, scope: Scope) returns (clause: Option<Clause<V>>)
    ensures clause == WhereFrom(fields, values, start, scope)
  {
    var parts: seq<Expr> := [];
    var cells: seq<Cell<V>> := [];
    assert fields[0..] == fields;
    ghost var whole := WhereFrom(fields, values, start, scope);
    assert whole.Some? ==> parts + whole.value.parts == whole.value.parts && cells + whole.value.cells == whole.value.cells;
    for i := 0 to |fields|
      invariant var rest := WhereFrom(fields[i..], values, start + |cells|, scope);
                WhereFrom(fields, values, start, scope) ==
                if rest.None? then None else Some(Clause(parts + rest.value.parts, cells + rest.value.cells))
    {
      var field := fields[i];
      assert fields[i..][0] == field && fields[i..][1..] == fields[i + 1..];
      if !Includes(scope, field) {
        continue;
      }
      if field.name !in values {
        return None;
      }
      ghost var rest := WhereFrom(fields[i + 1..], values, start + |cells| + 1, scope);
      assert rest.Some? ==> parts + ([Equal(field.column, start + |cells|)] + rest.value.parts) == parts + [Equal(field.column, start + |cells|)] + rest.value.parts;
      assert rest.Some? ==> cells + ([values[field.name]] + rest.value.cells) == cells + [values[field.name]] + rest.value.cells;
      parts := parts + [Equal(field.column, start + |cells|)];
      cells := cells + [values[field.name]];
    }
    assert fields[|fields|..] == [];
    assert parts + [] == parts && cells + [] == cells;
    return Some(Clause(parts, cells));
  }

  // ----- crudCursorClause -----

  function Beside(column: string, desc: bool, ph: nat): Expr {
    Any([if desc then Less(column, ph) else Greater(column, ph), IsNull(column)])
  }

  function PrefixParts(order: seq<string>, base: nat, n: nat): seq<Expr>
    requires n <= |order|
  {
    if n == 0 then [] else PrefixParts(order, base, n - 1) + [NotDistinct(order[n - 1], base + n - 1)]
  }

  /** The branches of the cursor clause for the first n order columns: a column
      whose cursor value is NULL is last already and gets none. */
  function Branches<V>(order: seq<string>, desc: bool, cursor: seq<Cell<V>>, start: nat, n: nat): Clause<V>
    requires n <= |order| == |cursor|
  {
    if n == 0 then Clause([], [])
    else
      var before := Branches(order, desc, cursor, start, n - 1);
      if cursor[n - 1].None? then before
      else
        var base := start + |before.cells|;
        Clause(before.parts + [All(PrefixParts(order, base, n - 1) + [Beside(order[n - 1], desc, base + n - 1)])],
               before.cells + cursor[..n])
  }

  function CursorClause<V>(order: seq<string>, desc: bool, cursor: seq<Cell<V>>, start: nat): Clause<V>
    requires |order| == |cursor|
  {
    var branches := Branches(order, desc, cursor, start, |order|);
    Clause([if branches.parts == [] then Never else Any(branches.parts)], branches.cells)
  }

  lemma {:induction false} PrefixMeaning<V(!new)>(db: Db<V>, order: seq<string>, cursor: seq<Cell<V>>, base: nat, n: nat, args: seq<Arg<V>>, row: Row<V>)
    requires n <= |order| == |cursor| && Passes(args, base, cursor[..n])
    ensures AllHold(db, args, row, PrefixParts(order, base, n)) <==> cursor[..n] == KeyOf(order, row)[..n]
  {
    if n > 0 {
      assert cursor[..n] == cursor[..n - 1] + [cursor[n - 1]];
      PassesParts(args, base, cursor[..n - 1], [cursor[n - 1]]);
      PrefixMeaning(db, order, cursor, base, n - 1, args, row);
      PassesAt(args, base, cursor[..n], n - 1);
      var last := NotDistinct(order[n - 1], base + n - 1);
      AllConcat(db, args, row, PrefixParts(order, base, n - 1), [last]);
      AllOne(db, args, row, last);
      var key := KeyOf(order, row);
      assert key[..n] == key[..n - 1] + [key[n - 1]];
    }
  }

  lemma BesideMeaning<V(!new)>(db: Db<V>, column: string, desc: bool, ph: nat, args: seq<Arg<V>>, row: Row<V>)
    requires Value(args, ph).Some?
    ensures Holds(db, args, row, Beside(column, desc, ph)) <==> CellBefore(db.lt, desc, Value(args, ph), CellOf(row, column))
  {
    var first := if desc then Less(column, ph) else Greater(column, ph);
    AnyConcat(db, args, row, [first], [IsNull(column)]);
    AnyOne(db, args, row, first);
    AnyOne(db, args, row, IsNull(column));
    assert [first] + [IsNull(column)] == [first, IsNull(column)];
    assert Eval(db, args, row, Beside(column, desc, ph)) == EvalAny(db, args, row, [first, IsNull(column)]);
  }

  lemma BranchMeaning<V(!new)>(db: Db<V>, order: seq<string>, desc: bool, cursor: seq<Cell<V>>, base: nat, n: nat, args: seq<Arg<V>>, row: Row<V>)
    requires 0 < n <= |order| == |cursor| && cursor[n - 1].Some? && Passes(args, base, cursor[..n])
    ensures Holds(db, args, row, All(PrefixParts(order, base, n - 1) + [Beside(order[n - 1], desc, base + n - 1)])) <==>
            Differs(db.lt, desc, cursor, KeyOf(order, row), n - 1)
  {
    assert cursor[..n] == cursor[..n - 1] + [cursor[n - 1]];
    PassesParts(args, base, cursor[..n - 1], [cursor[n - 1]]);
    PassesAt(args, base, cursor[..n], n - 1);
    PrefixMeaning(db, order, cursor, base, n - 1, args, row);
    var beside := Beside(order[n - 1], desc, base + n - 1);
    BesideMeaning(db, order[n - 1], desc, base + n - 1, args, row);
    var prefix := PrefixParts(order, base, n - 1);
    AllConcat(db, args, row, prefix, [beside]);
    AllOne(db, args, row, beside);
    assert Eval(db, args, row, All(prefix + [beside])) == EvalAll(db, args, row, prefix + [beside]);
  }

  /** Some of the first n columns tells the cursor from the row. */
  predicate Parted<V(==)>(lt: (V, V) -> bool, desc: bool, cursor: seq<Cell<V>>, key: seq<Cell<V>>, n: nat)
    requires n <= |cursor| == |key|
  {
    exists i :: 0 <= i < n && Differs(lt, desc, cursor, key, i)
  }

  lemma PartedStep<V(!new)>(lt: (V, V) -> bool, desc: bool, cursor: seq<Cell<V>>, key: seq<Cell<V>>, n: nat)
    requires 0 < n <= |cursor| == |key|
    ensures Parted(lt, desc, cursor, key, n) <==> Parted(lt, desc, cursor, key, n - 1) || Differs(lt, desc, cursor, key, n - 1)
  {
  }

  lemma {:induction false} BranchesMeaning<V(!new)>(db: Db<V>, order: seq<string>, desc: bool, cursor: seq<Cell<V>>, start: nat, n: nat, args: seq<Arg<V>>, row: Row<V>)
    requires n <= |order| == |cursor| && Passes(args, start, Branches(order, desc, cursor, start, n).cells)
    ensures AnyHolds(db, args, row, Branches(order, desc, cursor, start, n).parts) <==> Parted(db.lt, desc, cursor, KeyOf(order, row), n)
  {
    if n > 0 {
      var before := Branches(order, desc, cursor, start, n - 1);
      var key := KeyOf(order, row);
      PartedStep(db.lt, desc, cursor, key, n);
      if cursor[n - 1].None? {
        BranchesMeaning(db, order, desc, cursor, start, n - 1, args, row);
        assert !Differs(db.lt, desc, cursor, key, n - 1);
      } else {
        LastBranch(db, order, desc, cursor, start, n, args, row);
        BranchesMeaning(db, order, desc, cursor, start, n - 1, args, row);
      }
    }
  }

  lemma LastBranch<V(!new)>(db: Db<V>, order: seq<string>, desc: bool, cursor: seq<Cell<V>>, start: nat, n: nat, args: seq<Arg<V>>, row: Row<V>)
    requires 0 < n <= |order| == |cursor| && cursor[n - 1].Some?
    requires Passes(args, start, Branches(order, desc, cursor, start, n).cells)
    ensures Passes(args, start, Branches(order, desc, cursor, start, n - 1).cells)
    ensures AnyHolds(db, args, row, Branches(order, desc, cursor, start, n).parts) <==>
            AnyHolds(db, args, row, Branches(order, desc, cursor, start, n - 1).parts) || Differs(db.lt, desc, cursor, KeyOf(order, row), n - 1)
  {
    var before := Branches(order, desc, cursor, start, n - 1);
    var base := start + |before.cells|;
    PassesParts(args, start, before.cells, cursor[..n]);
    var branch := All(PrefixParts(order, base, n - 1) + [Beside(order[n - 1], desc, base + n - 1)]);
    BranchMeaning(db, order, desc, cursor, base, n, args, row);
    AnyConcat(db, args, row, before.parts, [branch]);
    AnyOne(db, args, row, branch);
  }

  /** The cursor clause holds of exactly the rows strictly after the cursor, in the
      page's direction, with NULLS LAST. */
  lemma CursorMeaning<V(!new)>(db: Db<V>, order: seq<string>, desc: bool, cursor: seq<Cell<V>>, start: nat, args: seq<Arg<V>>, row: Row<V>)
    requires |order| == |cursor| && Passes(args, start, CursorClause(order, desc, cursor, start).cells)
    ensures AllHold(db, args, row, CursorClause(order, desc, cursor, start).parts) <==> Before(db.lt, desc, cursor, KeyOf(order, row))
  {
    var branches := Branches(order, desc, cursor, start, |order|);
    BranchesMeaning(db, order, desc, cursor, start, |order|, args, row);
    BeforeByColumn(db.lt, desc, cursor, KeyOf(order, row));
    var clause := if branches.parts == [] then Never else Any(branches.parts);
    AllOne(db, args, row, clause);
    if branches.parts != [] {
      assert Eval(db, args, row, clause) == EvalAny(db, args, row, branches.parts);
    } else {
      assert EvalAny(db, args, row, branches.parts) == No;
      assert Eval(db, args, row, clause) == No;
    }
  }

  /** The inner loop of crudCursorClause: equality on the columns before one. */
  method BuildPrefix<V>(order: seq<string>, cursor: seq<Cell<V>>, start: nat, before: seq<Cell<V>>, index: nat) returns (parts: seq<Expr>, cells: seq<Cell<V>>)
    requires index <= |order| == |cursor|
    ensures parts == PrefixParts(order, start + |before|, index) && cells == before + cursor[..index]
  {
    parts, cells := [], before;
    for prefix := 0 to index
      invariant parts == PrefixParts(order, start + |before|, prefix)
      invariant cells == before + cursor[..prefix]
    {
      cells := cells + [cursor[prefix]];
      assert cursor[..prefix + 1] == cursor[..prefix] + [cursor[prefix]];
      parts := parts + [NotDistinct(order[prefix], start + |cells| - 1)];
    }
  }

  /** crudCursorClause, as the nested loops that grow both slices. */
  method BuildCursor<V>(order: seq<string>, desc: bool, cursor: seq<Cell<V>>, start: nat) returns (clause: Clause<V>)
    requires |order| == |cursor|
    ensures clause == CursorClause(order, desc, cursor, start)
  {
    var branches: seq<Expr> := [];
    var cells: seq<Cell<V>> := [];
    for index := 0 to |order|
      invariant Clause(branches, cells) == Branches(order, desc, cursor, start, index)
    {
      if cursor[index].None? {
        continue;
      }
      var parts;
      parts, cells := BuildPrefix(order, cursor, start, cells, index);
      cells := cells + [cursor[index]];
      assert cursor[..index + 1] == cursor[..index] + [cursor[index]];
      parts := parts + [Beside(order[index], desc, start + |cells| - 1)];
      branches := branches + [All(parts)];
    }
    if branches == [] {
      return Clause([Never], cells);
    }
    return Clause([Any(branches)], cells);
  }
}
