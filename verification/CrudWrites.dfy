/** getCRUD, updateCRUD and deleteCRUD (datasource/crud.go): what each statement does
to a table, and that it touches at most the one row its keys name. */
module CrudWrites {
  import opened Options
  import opened Keyset
  import opened Sql
  import opened Crud
  import opened Paging

  /** SET column = $ph. */
  datatype Set = Set(column: string, ph: nat)

  datatype Sets<V> = Sets(sets: seq<Set>, cells: seq<Cell<V>>)

  /** What a request becomes: nothing, a SELECT or an UPDATE, with its arguments. */
  datatype Plan<V> = Denied | Read(where: Clause<V>) | Write(sets: seq<Set>, parts: seq<Expr>, cells: seq<Cell<V>>)

  predicate Assignable(field: Field) {
    !field.primaryKey && !field.tenantKey && !field.immutable
  }

  function Assign<V>(fields: seq<Field>, values: map<string, Cell<V>>, start: nat): Sets<V> {
    if fields == [] then Sets([], [])
    else if !Assignable(fields[0]) || fields[0].name !in values then Assign(fields[1..], values, start)
    else
      var rest := Assign(fields[1..], values, start + 1);
      Sets([Set(fields[0].column, start)] + rest.sets, [values[fields[0].name]] + rest.cells)
  }

  /** updateCRUD: without an assignment it is getCRUD. */
  function UpdatePlan<V>(fields: seq<Field>, values: map<string, Cell<V>>): Plan<V> {
    var given := Assign(fields, values, 1);
    if given.sets == [] then ReadPlan(fields, values)
    else
      match WhereFrom(fields, values, |given.cells| + 1, KeyScope)
      case None => Denied
      case Some(where) => Write(given.sets, where.parts, given.cells + where.cells)
  }

  /** getCRUD and deleteCRUD select by the same WHERE. */
  function ReadPlan<V>(fields: seq<Field>, values: map<string, Cell<V>>): Plan<V> {
    match WhereFrom(fields, values, 1, KeyScope)
    case None => Denied
    case Some(where) => Read(where)
  }

  /** updateCRUD's loop. */
  method BuildUpdate<V>(fields: seq<Field>, values: map<string, Cell<V>>) returns (plan: Plan<V>)
    ensures plan == UpdatePlan(fields, values)
  {
    var sets: seq<Set> := [];
    var cells: seq<Cell<V>> := [];
    ghost var whole := Assign(fields, values, 1);
    assert fields[0..] == fields;
    assert sets + whole.sets == whole.sets && cells + whole.cells == whole.cells;
    for i := 0 to |fields|
      invariant var rest := Assign(fields[i..], values, 1 + |cells|); whole == Sets(sets + rest.sets, cells + rest.cells)
    {
      var field := fields[i];
      assert fields[i..][0] == field && fields[i..][1..] == fields[i + 1..];
      if !Assignable(field) || field.name !in values {
        continue;
      }
      ghost var rest := Assign(fields[i + 1..], values, 2 + |cells|);
      assert sets + ([Set(field.column, 1 + |cells|)] + rest.sets) == sets + [Set(field.column, 1 + |cells|)] + rest.sets;
      assert cells + ([values[field.name]] + rest.cells) == cells + [values[field.name]] + rest.cells;
      sets, cells := sets + [Set(field.column, 1 + |cells|)], cells + [values[field.name]];
    }
    assert fields[|fields|..] == [];
    assert sets + [] == sets && cells + [] == cells;
    if sets == [] {
      var where := BuildWhere(fields, values, 1, KeyScope);
      return if where.None? then Denied else Read(where.value);
    }
    var where := BuildWhere(fields, values, |cells| + 1, KeyScope);
    return if where.None? then Denied else Write(sets, where.value.parts, cells + where.value.cells);
  }

  // ----- the table -----

  function ApplySets<V>(args: seq<Arg<V>>, sets: seq<Set>, row: Row<V>): Row<V> {
    if sets == [] then row else ApplySets(args, sets[1..], row[sets[0].column := Value(args, sets[0].ph)])
  }

  function UpdatedRow<V(==, !new)>(db: Db<V>, plan: Plan<V>, row: Row<V>): Row<V>
    requires plan.Write?
  {
    if AllHold(db, Data(plan.cells), row, plan.parts) then ApplySets(Data(plan.cells), plan.sets, row) else row
  }

  /** The value an update gives a column, if any. */
  function Target<V>(fields: seq<Field>, values: map<string, Cell<V>>, column: string): Option<Cell<V>> {
    if fields == [] then None
    else if Assignable(fields[0]) && fields[0].name in values && fields[0].column == column then Some(values[fields[0].name])
    else Target(fields[1..], values, column)
  }

  ghost predicate DistinctColumns(fields: seq<Field>) {
    forall i, j :: 0 <= i < j < |fields| ==> fields[i].column != fields[j].column
  }

  lemma {:induction false} TargetOfField<V>(fields: seq<Field>, values: map<string, Cell<V>>, field: Field)
    requires DistinctColumns(fields) && field in fields
    ensures Target(fields, values, field.column) == if Assignable(field) && field.name in values then Some(values[field.name]) else None
  {
    if fields[0] == field {
      assert forall i :: 0 <= i < |fields[1..]| ==> fields[1..][i] == fields[i + 1];
      NoTarget(fields[1..], values, field.column);
    } else {
      TargetOfField(fields[1..], values, field);
    }
  }

  lemma {:induction false} NoTarget<V>(fields: seq<Field>, values: map<string, Cell<V>>, column: string)
    requires forall i :: 0 <= i < |fields| ==> fields[i].column != column
    ensures Target(fields, values, column).None?
  {
    if fields != [] {
      NoTarget(fields[1..], values, column);
    }
  }

  lemma {:induction false} AssignMeaning<V(!new)>(fields: seq<Field>, values: map<string, Cell<V>>, start: nat, args: seq<Arg<V>>, row: Row<V>, column: string)
    requires DistinctColumns(fields) && Passes(args, start, Assign(fields, values, start).cells)
    ensures CellOf(ApplySets(args, Assign(fields, values, start).sets, row), column) ==
            if Target(fields, values, column).Some? then Target(fields, values, column).value else CellOf(row, column)
  {
    if fields != [] {
      var head, tail := fields[0], fields[1..];
      if Assignable(head) && head.name in values {
        var given, rest := Assign(fields, values, start), Assign(tail, values, start + 1);
        PassesParts(args, start, [values[head.name]], rest.cells);
        PassesAt(args, start, [values[head.name]], 0);
        assert given.sets[1..] == rest.sets;
        AssignMeaning(tail, values, start + 1, args, row[head.column := values[head.name]], column);
        if head.column == column {
          assert forall i :: 0 <= i < |tail| ==> tail[i] == fields[i + 1];
          NoTarget(tail, values, column);
        }
      } else {
        AssignMeaning(tail, values, start, args, row, column);
      }
    }
  }

  /** An update gives every assignable field it carries that value, in the rows that
      carry its keys and tenant, and leaves every other column and row alone. */
  lemma UpdateMeaning<V(!new)>(db: Db<V>, fields: seq<Field>, values: map<string, Cell<V>>, row: Row<V>, field: Field)
    requires DistinctColumns(fields) && UpdatePlan(fields, values).Write? && field in fields
    ensures var updated := UpdatedRow(db, UpdatePlan(fields, values), row);
            && CellOf(updated, field.column) ==
               (if Scoped(fields, values, KeyScope, row) && field.name in values && !field.primaryKey && !field.tenantKey && !field.immutable
                then values[field.name] else CellOf(row, field.column))
            && (!Scoped(fields, values, KeyScope, row) ==> updated == row)
  {
    UpdateScope(db, fields, values, row);
    var given := Assign(fields, values, 1);
    var args := Data(UpdatePlan(fields, values).cells);
    AssignMeaning(fields, values, 1, args, row, field.column);
    TargetOfField(fields, values, field);
  }

  /** An update is refused exactly when a key or tenant field is missing, and only reads
      when it carries no field that may be assigned. */
  lemma UpdatePlanIff<V(!new)>(fields: seq<Field>, values: map<string, Cell<V>>)
    ensures UpdatePlan(fields, values).Denied? <==> exists field :: field in fields && (field.primaryKey || field.tenantKey) && field.name !in values
    ensures UpdatePlan(fields, values).Read? ==>
              forall field :: field in fields && field.name in values ==> field.primaryKey || field.tenantKey || field.immutable
    ensures UpdatePlan(fields, values).Write? ==>
              exists field :: field in fields && field.name in values && !field.primaryKey && !field.tenantKey && !field.immutable
  {
    AssignsIff(fields, values, 1);
    WhereMissing(fields, values, 1, KeyScope);
    WhereMissing(fields, values, |Assign(fields, values, 1).cells| + 1, KeyScope);
  }

  lemma {:induction false} AssignsIff<V(!new)>(fields: seq<Field>, values: map<string, Cell<V>>, start: nat)
    ensures Assign(fields, values, start).sets == [] <==>
            forall field :: field in fields && field.name in values ==> field.primaryKey || field.tenantKey || field.immutable
  {
    if fields != [] {
      AssignsIff(fields[1..], values, start);
      AssignsIff(fields[1..], values, start + 1);
      assert forall field :: field in fields <==> field == fields[0] || field in fields[1..];
    }
  }

  lemma PlanIs<V>(fields: seq<Field>, values: map<string, Cell<V>>)
    requires UpdatePlan(fields, values).Write?
    ensures var given := Assign(fields, values, 1);
            var where := WhereFrom(fields, values, |given.cells| + 1, KeyScope);
            where.Some? && UpdatePlan(fields, values) == Write(given.sets, where.value.parts, given.cells + where.value.cells)
  {
    hide Assign, WhereFrom;
  }

  lemma UpdateScope<V(!new)>(db: Db<V>, fields: seq<Field>, values: map<string, Cell<V>>, row: Row<V>)
    requires UpdatePlan(fields, values).Write?
    ensures var plan := UpdatePlan(fields, values);
            && Passes(Data(plan.cells), 1, Assign(fields, values, 1).cells)
            && plan.sets == Assign(fields, values, 1).sets
            && (AllHold(db, Data(plan.cells), row, plan.parts) <==> Scoped(fields, values, KeyScope, row))
  {
    hide AllHold, Passes, Scoped, Assign, WhereFrom, UpdatePlan, Data;
    PlanIs(fields, values);
    var given := Assign(fields, values, 1);
    var where := WhereFrom(fields, values, |given.cells| + 1, KeyScope).value;
    JoinedPass(given.cells, where.cells);
    WhereMeaning(db, fields, values, |given.cells| + 1, KeyScope, Data(given.cells + where.cells), row);
  }

  lemma JoinedPass<V>(a: seq<Cell<V>>, b: seq<Cell<V>>)
    ensures Passes(Data(a + b), 1, a) && Passes(Data(a + b), |a| + 1, b)
  {
    PassesData(Data(a + b), 1, a + b);
    PassesParts(Data(a + b), 1, a, b);
  }

  lemma ReadMeaning<V(!new)>(db: Db<V>, fields: seq<Field>, values: map<string, Cell<V>>, row: Row<V>)
    requires ReadPlan(fields, values).Read?
    ensures var where := ReadPlan(fields, values).where;
            AllHold(db, Data(where.cells), row, where.parts) <==> Scoped(fields, values, KeyScope, row)
  {
    var where := ReadPlan(fields, values).where;
    var args := Data(where.cells);
    PassesData(args, 1, where.cells);
    WhereMeaning(db, fields, values, 1, KeyScope, args, row);
  }

  /** The rows a request's keys name: at most one, and never two tenants' rows. */
  lemma AtMostOneScoped<V(!new)>(fields: seq<Field>, values: map<string, Cell<V>>, table: seq<Row<V>>, i: nat, j: nat)
    requires Keyed(fields, table) && i < |table| && j < |table|
    requires Scoped(fields, values, KeyScope, table[i]) && Scoped(fields, values, KeyScope, table[j])
    ensures i == j
  {
    SameKey(fields, values, table[i], table[j]);
    SameKey(fields, values, table[j], table[i]);
  }

  lemma SameKey<V(!new)>(fields: seq<Field>, values: map<string, Cell<V>>, a: Row<V>, b: Row<V>)
    requires Scoped(fields, values, KeyScope, a) && Scoped(fields, values, KeyScope, b)
    ensures !Apart(fields, a, b)
  {
  }

  function UpdatedTable<V(==, !new)>(db: Db<V>, plan: Plan<V>, table: seq<Row<V>>): (updated: seq<Row<V>>)
    requires plan.Write?
    ensures |updated| == |table|
  {
    seq(|table|, i requires 0 <= i < |table| => UpdatedRow(db, plan, table[i]))
  }

  lemma UpdateKeepsApart<V(!new)>(db: Db<V>, fields: seq<Field>, values: map<string, Cell<V>>, a: Row<V>, b: Row<V>)
    requires DistinctColumns(fields) && UpdatePlan(fields, values).Write? && Apart(fields, a, b)
    ensures Apart(fields, UpdatedRow(db, UpdatePlan(fields, values), a), UpdatedRow(db, UpdatePlan(fields, values), b))
  {
    var field :| field in fields && field.primaryKey && CellOf(a, field.column) != CellOf(b, field.column);
    UpdateMeaning(db, fields, values, a, field);
    UpdateMeaning(db, fields, values, b, field);
  }

  /** An update changes at most one row of a table, the one its keys name within its
      tenant, and keeps the table keyed. */
  lemma UpdateTouchesOneRow<V(!new)>(db: Db<V>, fields: seq<Field>, values: map<string, Cell<V>>, table: seq<Row<V>>, i: nat, j: nat)
    requires DistinctColumns(fields) && UpdatePlan(fields, values).Write? && Keyed(fields, table) && i < |table| && j < |table|
    ensures var updated := UpdatedTable(db, UpdatePlan(fields, values), table);
            && (updated[i] != table[i] && updated[j] != table[j] ==> i == j)
            && (updated[i] != table[i] ==> Scoped(fields, values, KeyScope, table[i]))
            && Keyed(fields, updated)
  {
    var updated := UpdatedTable(db, UpdatePlan(fields, values), table);
    UpdateScope(db, fields, values, table[i]);
    UpdateScope(db, fields, values, table[j]);
    if updated[i] != table[i] && updated[j] != table[j] {
      AtMostOneScoped(fields, values, table, i, j);
    }
    forall a, b | 0 <= a < b < |updated|
      ensures Apart(fields, updated[a], updated[b])
    {
      UpdateKeepsApart(db, fields, values, table[a], table[b]);
    }
  }

  /** A delete keeps exactly the rows its keys and tenant do not name, in their order,
      and removes at most one. */
  lemma {:induction false} DeleteRemovesOneRow<V(!new)>(db: Db<V>, fields: seq<Field>, values: map<string, Cell<V>>, table: seq<Row<V>>)
    requires ReadPlan(fields, values).Read? && Keyed(fields, table)
    ensures var where := ReadPlan(fields, values).where;
            var kept := Select(table, row => !AllHold(db, Data(where.cells), row, where.parts));
            && kept == Select(table, row => !Scoped(fields, values, KeyScope, row))
            && |table| - 1 <= |kept| <= |table|
  {
    var where := ReadPlan(fields, values).where;
    var keep := (row: Row<V>) => !AllHold(db, Data(where.cells), row, where.parts);
    var rest := (row: Row<V>) => !Scoped(fields, values, KeyScope, row);
    forall row
      ensures keep(row) <==> rest(row)
    {
      ReadMeaning(db, fields, values, row);
    }
    SelectAlike(table, keep, rest);
    RemovesOne(fields, values, table, rest);
  }

  lemma {:induction false} RemovesOne<V(!new)>(fields: seq<Field>, values: map<string, Cell<V>>, table: seq<Row<V>>, rest: Row<V> -> bool)
    requires Keyed(fields, table) && forall row :: rest(row) <==> !Scoped(fields, values, KeyScope, row)
    ensures |table| - 1 <= |Select(table, rest)| <= |table|
  {
    if table != [] {
      var tail := table[1..];
      forall a, b | 0 <= a < b < |tail|
        ensures Apart(fields, tail[a], tail[b])
      {
        assert Apart(fields, table[a + 1], table[b + 1]);
      }
      if rest(table[0]) {
        RemovesOne(fields, values, tail, rest);
      } else {
        forall row | row in tail
          ensures rest(row)
        {
          var i :| 0 <= i < |tail| && tail[i] == row;
          if !rest(row) {
            AtMostOneScoped(fields, values, table, 0, i + 1);
          }
        }
        SelectAll(tail, rest);
      }
    }
  }
}
