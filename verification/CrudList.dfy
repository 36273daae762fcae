/** listCRUDPage (datasource/crud.go): the query a list request becomes, what it
answers, and what following its cursors answers. */
module CrudList {
  import opened Options
  import opened Keyset
  import opened Sql
  import opened Crud
  import Like

  /** What a next_cursor holds; the fingerprint stands for its hash. */
  datatype Token<V> = Token(version: int, fingerprint: Fingerprint<V>, values: seq<Cell<V>>)

  /** What a fingerprint is taken of: each tenant field's and each filter's values. */
  datatype Fingerprint<V> = Fingerprint(sort: string, direction: string, tenant: seq<Option<Cell<V>>>, filters: seq<Held<V>>, search: string)

  datatype Held<V> = Chosen(cells: Option<seq<Cell<V>>>) | Ends(from: Option<Cell<V>>, to: Option<Cell<V>>)

  /** What a request asks of rows: plain values and lists by key, the search trimmed. */
  datatype Criteria<V> = Criteria(values: map<string, Cell<V>>, lists: map<string, seq<Cell<V>>>, search: string)

  /** A decoded list request. */
  datatype Request<V> = Request(criteria: Criteria<V>, sort: string, direction: string, cursor: Option<Token<V>>, limit: Option<int>)

  // ----- fields -----

  /** crudFieldsByName: the named field, or the zero field. */
  function FieldOf(fields: seq<Field>, name: string): Field {
    if fields == [] then Field("", "", false, false, false, false)
    else if fields[0].name == name then fields[0]
    else FieldOf(fields[1..], name)
  }

  predicate Named(fields: seq<Field>, name: string) {
    exists field :: field in fields && field.name == name
  }

  /** validateCRUDSpec. */
  ghost predicate ValidSpec(spec: Spec) {
    && (forall i, j :: 0 <= i < j < |spec.fields| ==> spec.fields[i].name != spec.fields[j].name && spec.fields[i].column != spec.fields[j].column)
    && (forall field :: field in spec.fields ==> field.name != "" && field.column != "")
    && (exists field :: field in spec.fields && field.primaryKey)
    && spec.list.maxPageSize >= 1
    && spec.list.defaultDirection in ["", "asc", "desc"]
    && (forall name :: name in spec.list.filters + spec.list.search + spec.list.sorts ==> Named(spec.fields, name))
    && (spec.list.defaultSort != "" ==> spec.list.defaultSort in spec.list.sorts)
  }

  lemma {:induction false} FieldOfNamed(fields: seq<Field>, name: string)
    requires Named(fields, name)
    ensures FieldOf(fields, name) in fields && FieldOf(fields, name).name == name
  {
    if fields[0].name != name {
      FieldOfNamed(fields[1..], name);
    }
  }

  // ----- filters -----

  /** fmt.Sprint of a decoded value. */
  function Show<V>(text: V -> string, cell: Cell<V>): string {
    if cell.None? then "<nil>" else text(cell.value)
  }

  /** The byte order of strings. */
  predicate Precedes(a: string, b: string) {
    b != [] && (a == [] || a[0] < b[0] || (a[0] == b[0] && Precedes(a[1..], b[1..])))
  }

  function Place<V>(text: V -> string, cell: Cell<V>, cells: seq<Cell<V>>): seq<Cell<V>> {
    if cells == [] || !Precedes(Show(text, cells[0]), Show(text, cell)) then [cell] + cells
    else [cells[0]] + Place(text, cell, cells[1..])
  }

  function Arranged<V>(text: V -> string, cells: seq<Cell<V>>): seq<Cell<V>> {
    if cells == [] then [] else Place(text, cells[0], Arranged(text, cells[1..]))
  }

  /** compactCRUDValues. */
  function Compact<V>(text: V -> string, cells: seq<Cell<V>>): seq<Cell<V>> {
    if |cells| < 2 then cells
    else
      var rest := Compact(text, cells[..|cells| - 1]);
      var last := cells[|cells| - 1];
      if rest != [] && Show(text, last) == Show(text, rest[|rest| - 1]) then rest else rest + [last]
  }

  /** compactCRUDValues, as the loop that appends to its result. */
  method CompactValues<V>(text: V -> string, cells: seq<Cell<V>>) returns (result: seq<Cell<V>>)
    ensures result == Compact(text, cells)
  {
    if |cells| < 2 {
      return cells;
    }
    result := cells[..1];
    var i := 1;
    while i < |cells|
      invariant 1 <= i <= |cells| && result != [] && result == Compact(text, cells[..i])
    {
      assert cells[..i + 1][..i] == cells[..i];
      if Show(text, cells[i]) != Show(text, result[|result| - 1]) {
        result := result + [cells[i]];
      }
      i := i + 1;
    }
    assert cells[..i] == cells;
  }

  /** The values an IN list passes: sorted by text, one for each text. */
  function Listed<V>(text: V -> string, cells: seq<Cell<V>>): seq<Cell<V>> {
    Compact(text, Arranged(text, cells))
  }

  function Upto(start: nat, n: nat): (phs: seq<nat>)
    ensures |phs| == n && forall i :: 0 <= i < n ==> phs[i] == start + i
  {
    seq(n, i => start + i)
  }

  /** The clauses of one declared filter. */
  function FilterOne<V>(text: V -> string, field: Field, criteria: Criteria<V>, start: nat): Clause<V> {
    if field.textual then
      if field.name !in criteria.lists then Clause([], [])
      else
        var cells := Listed(text, criteria.lists[field.name]);
        if cells == [] then Clause([Never], [])
        else Clause([In(field.column, Upto(start, |cells|))], cells)
    else
      var from := Bound(field, "_from", criteria, start);
      var to := Bound(field, "_to", criteria, start + |from.cells|);
      Join(from, to)
  }

  function Bound<V>(field: Field, suffix: string, criteria: Criteria<V>, start: nat): Clause<V> {
    var key := field.name + suffix;
    if key !in criteria.values then Clause([], [])
    else Clause([if suffix == "_from" then AtLeast(field.column, start) else AtMost(field.column, start)], [criteria.values[key]])
  }

  function Filters<V>(text: V -> string, fields: seq<Field>, names: seq<string>, criteria: Criteria<V>, start: nat): Clause<V> {
    if names == [] then Clause([], [])
    else
      var last := |names| - 1;
      var before := Filters(text, fields, names[..last], criteria, start);
      Join(before, FilterOne(text, FieldOf(fields, names[last]), criteria, start + |before.cells|))
  }

  /** The placeholders of an IN list, one for each value appended. */
  method BuildIn<V>(column: string, values: seq<Cell<V>>, start: nat) returns (clause: Clause<V>)
    ensures clause == Clause([In(column, Upto(start, |values|))], values)
  {
    var cells: seq<Cell<V>> := [];
    var phs: seq<nat> := [];
    for index := 0 to |values|
      invariant cells == values[..index] && phs == Upto(start, index)
    {
      cells := cells + [values[index]];
      phs := phs + [start + |cells| - 1];
      assert values[..index + 1] == values[..index] + [values[index]];
    }
    assert values[..|values|] == values;
    return Clause([In(column, phs)], cells);
  }

  method BuildFilter<V>(text: V -> string, field: Field, criteria: Criteria<V>, start: nat) returns (clause: Clause<V>)
    ensures clause == FilterOne(text, field, criteria, start)
  {
    if field.textual {
      if field.name !in criteria.lists {
        return Clause([], []);
      }
      var values := CompactValues(text, Arranged(text, criteria.lists[field.name]));
      if values == [] {
        return Clause([Never], []);
      }
      clause := BuildIn(field.column, values, start);
    } else {
      clause := Clause([], []);
      if field.name + "_from" in criteria.values {
        clause := Clause([AtLeast(field.column, start)], [criteria.values[field.name + "_from"]]);
      }
      if field.name + "_to" in criteria.values {
        clause := Clause(clause.parts + [AtMost(field.column, start + |clause.cells|)], clause.cells + [criteria.values[field.name + "_to"]]);
      }
    }
  }

  /** listCRUDPage's loop over the declared filters. */
  method BuildFilters<V>(text: V -> string, fields: seq<Field>, names: seq<string>, criteria: Criteria<V>, start: nat) returns (clause: Clause<V>)
    ensures clause == Filters(text, fields, names, criteria, start)
  {
    clause := Clause([], []);
    for i := 0 to |names|
      invariant clause == Filters(text, fields, names[..i], criteria, start)
    {
      var one := BuildFilter(text, FieldOf(fields, names[i]), criteria, start + |clause.cells|);
      assert names[..i + 1][..i] == names[..i];
      clause := Join(clause, one);
    }
    assert names[..|names|] == names;
  }

  /** What one declared filter asks of a row. */
  predicate Wanted<V(==, !new)>(db: Db<V>, field: Field, criteria: Criteria<V>, row: Row<V>) {
    var cell := CellOf(row, field.column);
    if field.textual then
      field.name in criteria.lists ==> cell.Some? && cell in Listed(db.text, criteria.lists[field.name])
    else
      && (field.name + "_from" in criteria.values ==>
            var low := criteria.values[field.name + "_from"]; cell.Some? && low.Some? && !db.lt(cell.value, low.value))
      && (field.name + "_to" in criteria.values ==>
            var high := criteria.values[field.name + "_to"]; cell.Some? && high.Some? && !db.lt(high.value, cell.value))
  }

  predicate AllWanted<V(==, !new)>(db: Db<V>, fields: seq<Field>, names: seq<string>, criteria: Criteria<V>, row: Row<V>) {
    names == [] || (AllWanted(db, fields, names[..|names| - 1], criteria, row) && Wanted(db, FieldOf(fields, names[|names| - 1]), criteria, row))
  }

  lemma {:induction false} InMeaning<V(!new)>(args: seq<Arg<V>>, cell: Cell<V>, cells: seq<Cell<V>>, start: nat)
    requires Passes(args, start, cells)
    ensures EvalIn(args, cell, Upto(start, |cells|)) == Yes <==> cell.Some? && cell in cells
  {
    if cells != [] {
      var phs := Upto(start, |cells|);
      assert cells == [cells[0]] + cells[1..];
      PassesParts(args, start, [cells[0]], cells[1..]);
      PassesAt(args, start, cells, 0);
      assert phs[1..] == Upto(start + 1, |cells[1..]|);
      InMeaning(args, cell, cells[1..], start + 1);
    }
  }

  lemma BoundMeaning<V(!new)>(db: Db<V>, field: Field, suffix: string, criteria: Criteria<V>, start: nat, args: seq<Arg<V>>, row: Row<V>)
    requires suffix == "_from" || suffix == "_to"
    requires Passes(args, start, Bound(field, suffix, criteria, start).cells)
    ensures AllHold(db, args, row, Bound(field, suffix, criteria, start).parts) <==>
            (field.name + suffix in criteria.values ==>
               var cell, bound := CellOf(row, field.column), criteria.values[field.name + suffix];
               cell.Some? && bound.Some? && if suffix == "_from" then !db.lt(cell.value, bound.value) else !db.lt(bound.value, cell.value))
  {
    if field.name + suffix in criteria.values {
      var clause := Bound(field, suffix, criteria, start);
      PassesAt(args, start, clause.cells, 0);
      AllOne(db, args, row, clause.parts[0]);
    }
  }

  lemma ListMeaning<V(!new)>(db: Db<V>, field: Field, criteria: Criteria<V>, start: nat, args: seq<Arg<V>>, row: Row<V>)
    requires field.textual && Passes(args, start, FilterOne(db.text, field, criteria, start).cells)
    ensures AllHold(db, args, row, FilterOne(db.text, field, criteria, start).parts) <==> Wanted(db, field, criteria, row)
  {
    if field.name in criteria.lists {
      var cells := Listed(db.text, criteria.lists[field.name]);
      InMeaning(args, CellOf(row, field.column), cells, start);
      AllOne(db, args, row, if cells == [] then Never else In(field.column, Upto(start, |cells|)));
    }
  }

  lemma RangeMeaning<V(!new)>(db: Db<V>, field: Field, criteria: Criteria<V>, start: nat, args: seq<Arg<V>>, row: Row<V>)
    requires !field.textual && Passes(args, start, FilterOne(db.text, field, criteria, start).cells)
    ensures AllHold(db, args, row, FilterOne(db.text, field, criteria, start).parts) <==> Wanted(db, field, criteria, row)
  {
    var from := Bound(field, "_from", criteria, start);
    var to := Bound(field, "_to", criteria, start + |from.cells|);
    JoinMeaning(db, from, to, start, args, row);
    BoundMeaning(db, field, "_from", criteria, start, args, row);
    BoundMeaning(db, field, "_to", criteria, start + |from.cells|, args, row);
  }

  lemma FilterMeaning<V(!new)>(db: Db<V>, field: Field, criteria: Criteria<V>, start: nat, args: seq<Arg<V>>, row: Row<V>)
    requires Passes(args, start, FilterOne(db.text, field, criteria, start).cells)
    ensures AllHold(db, args, row, FilterOne(db.text, field, criteria, start).parts) <==> Wanted(db, field, criteria, row)
  {
    if field.textual {
      ListMeaning(db, field, criteria, start, args, row);
    } else {
      RangeMeaning(db, field, criteria, start, args, row);
    }
  }

  lemma {:induction false} FiltersMeaning<V(!new)>(db: Db<V>, fields: seq<Field>, names: seq<string>, criteria: Criteria<V>, start: nat, args: seq<Arg<V>>, row: Row<V>)
    requires Passes(args, start, Filters(db.text, fields, names, criteria, start).cells)
    ensures AllHold(db, args, row, Filters(db.text, fields, names, criteria, start).parts) <==> AllWanted(db, fields, names, criteria, row)
  {
    hide Wanted, FilterOne, FieldOf, AllHold, Passes;
    if names == [] {
      AllOfNone(db, args, row);
    } else {
      var init, field := names[..|names| - 1], FieldOf(fields, names[|names| - 1]);
      var before := Filters(db.text, fields, init, criteria, start);
      JoinMeaning(db, before, FilterOne(db.text, field, criteria, start + |before.cells|), start, args, row);
      FiltersMeaning(db, fields, init, criteria, start, args, row);
      FilterMeaning(db, field, criteria, start + |before.cells|, args, row);
    }
  }

  // ----- the values of an IN list -----

  lemma {:induction false} PrecedesTrans(a: string, b: string, c: string)
    requires Precedes(a, b) && Precedes(b, c)
    ensures Precedes(a, c)
  {
    if a != [] && a[0] == b[0] == c[0] {
      PrecedesTrans(a[1..], b[1..], c[1..]);
    }
  }

  lemma {:induction false} PrecedesTotal(a: string, b: string)
    ensures !Precedes(a, a)
    ensures a == b || Precedes(a, b) || Precedes(b, a)
  {
    if a != [] {
      PrecedesTotal(a[1..], if b == [] then [] else b[1..]);
      if b != [] && a[0] == b[0] && a[1..] == b[1..] {
        assert a == [a[0]] + a[1..] && b == [b[0]] + b[1..];
      }
    }
  }

  /** No value shows before an earlier one. */
  ghost predicate Rising<V>(text: V -> string, cells: seq<Cell<V>>) {
    forall i, j :: 0 <= i < j < |cells| ==> !Precedes(Show(text, cells[j]), Show(text, cells[i]))
  }

  /** Every value shows strictly before the later ones. */
  ghost predicate Strict<V>(text: V -> string, cells: seq<Cell<V>>) {
    forall i, j :: 0 <= i < j < |cells| ==> Precedes(Show(text, cells[i]), Show(text, cells[j]))
  }

  lemma NotAfter(a: string, b: string, c: string)
    requires !Precedes(b, a) && !Precedes(c, b)
    ensures !Precedes(c, a)
  {
    PrecedesTotal(a, b);
    PrecedesTotal(b, c);
    if Precedes(c, a) && Precedes(a, b) {
      PrecedesTrans(c, a, b);
    }
  }

  lemma {:induction false} PlaceMember<V>(text: V -> string, cell: Cell<V>, cells: seq<Cell<V>>, c: Cell<V>)
    ensures c in Place(text, cell, cells) <==> c == cell || c in cells
  {
    if cells != [] && Precedes(Show(text, cells[0]), Show(text, cell)) {
      PlaceMember(text, cell, cells[1..], c);
    }
  }

  lemma {:induction false} PlaceRising<V>(text: V -> string, cell: Cell<V>, cells: seq<Cell<V>>)
    requires Rising(text, cells)
    ensures Rising(text, Place(text, cell, cells))
  {
    var placed := Place(text, cell, cells);
    if cells == [] {
    } else if !Precedes(Show(text, cells[0]), Show(text, cell)) {
      forall j | 0 < j < |placed|
        ensures !Precedes(Show(text, placed[j]), Show(text, cell))
      {
        PrecedesTotal(Show(text, cells[0]), Show(text, cells[0]));
        NotAfter(Show(text, cell), Show(text, cells[0]), Show(text, placed[j]));
      }
    } else {
      PlaceRising(text, cell, cells[1..]);
      forall j | 0 < j < |placed|
        ensures !Precedes(Show(text, placed[j]), Show(text, cells[0]))
      {
        PlaceMember(text, cell, cells[1..], placed[j]);
        if placed[j] == cell {
          PrecedesTotal(Show(text, cell), Show(text, cell));
          if Precedes(Show(text, cell), Show(text, cells[0])) {
            PrecedesTrans(Show(text, cell), Show(text, cells[0]), Show(text, cell));
          }
        }
      }
    }
  }

  lemma {:induction false} ArrangedRising<V>(text: V -> string, cells: seq<Cell<V>>)
    ensures Rising(text, Arranged(text, cells))
  {
    if cells != [] {
      ArrangedRising(text, cells[1..]);
      PlaceRising(text, cells[0], Arranged(text, cells[1..]));
    }
  }

  lemma {:induction false} ArrangedMember<V>(text: V -> string, cells: seq<Cell<V>>, c: Cell<V>)
    ensures c in Arranged(text, cells) <==> c in cells
  {
    if cells != [] {
      ArrangedMember(text, cells[1..], c);
      PlaceMember(text, cells[0], Arranged(text, cells[1..]), c);
    }
  }

  lemma {:induction false} CompactStrict<V>(text: V -> string, cells: seq<Cell<V>>)
    requires Rising(text, cells)
    ensures Strict(text, Compact(text, cells)) && (cells == [] <==> Compact(text, cells) == [])
    ensures cells != [] ==> Show(text, Compact(text, cells)[|Compact(text, cells)| - 1]) == Show(text, cells[|cells| - 1])
  {
    if |cells| >= 2 {
      var init, last := cells[..|cells| - 1], cells[|cells| - 1];
      CompactStrict(text, init);
      var rest := Compact(text, init);
      var end := Show(text, rest[|rest| - 1]);
      assert end == Show(text, init[|init| - 1]) && !Precedes(Show(text, last), end);
      PrecedesTotal(end, Show(text, last));
      if end != Show(text, last) {
        forall i | 0 <= i < |rest|
          ensures Precedes(Show(text, rest[i]), Show(text, last))
        {
          if i < |rest| - 1 {
            PrecedesTrans(Show(text, rest[i]), end, Show(text, last));
          }
        }
      }
    }
  }

  lemma {:induction false} CompactWithin<V>(text: V -> string, cells: seq<Cell<V>>, c: Cell<V>)
    requires c in Compact(text, cells)
    ensures c in cells
  {
    if |cells| >= 2 && c != cells[|cells| - 1] {
      CompactWithin(text, cells[..|cells| - 1], c);
    }
  }

  /** Some value shows as this one does. */
  predicate Stands<V(==)>(text: V -> string, cells: seq<Cell<V>>, cell: Cell<V>) {
    exists i :: 0 <= i < |cells| && Show(text, cells[i]) == Show(text, cell)
  }

  lemma {:induction false} CompactStands<V>(text: V -> string, cells: seq<Cell<V>>, c: Cell<V>)
    requires c in cells && Rising(text, cells)
    ensures Stands(text, Compact(text, cells), c)
  {
    var last := |cells| - 1;
    CompactStrict(text, cells);
    if Show(text, c) != Show(text, cells[last]) {
      var init := cells[..last];
      assert cells == init + [cells[last]];
      CompactStands(text, init, c);
      var rest := Compact(text, init);
      var i :| 0 <= i < |rest| && Show(text, rest[i]) == Show(text, c);
      assert Compact(text, cells)[i] == rest[i];
    }
  }

  /** Equal text means equal value. */
  ghost predicate Tells<V(!new)>(text: V -> string, cells: seq<Cell<V>>) {
    forall a, b :: a in cells && b in cells && Show(text, a) == Show(text, b) ==> a == b
  }

  lemma ListedMember<V(!new)>(text: V -> string, cells: seq<Cell<V>>, c: Cell<V>)
    ensures c in Listed(text, cells) ==> c in cells
    ensures Tells(text, cells) && c in cells ==> c in Listed(text, cells)
  {
    var arranged := Arranged(text, cells);
    ArrangedMember(text, cells, c);
    ArrangedRising(text, cells);
    if c in Listed(text, cells) {
      CompactWithin(text, arranged, c);
    }
    if Tells(text, cells) && c in cells {
      CompactStands(text, arranged, c);
      var listed := Listed(text, cells);
      var i :| 0 <= i < |listed| && Show(text, listed[i]) == Show(text, c);
      CompactWithin(text, arranged, listed[i]);
      ArrangedMember(text, cells, listed[i]);
    }
  }

  /** Sorting and dropping repeated texts keeps every value of the list if and only
      if equal text means equal value; NULL, for one, shows as the text <nil>. */
  lemma ListedIsListIff<V(!new)>(text: V -> string, cells: seq<Cell<V>>)
    ensures (forall c :: c in cells ==> c in Listed(text, cells)) <==> Tells(text, cells)
    ensures forall c :: c in Listed(text, cells) ==> c in cells
  {
    var listed := Listed(text, cells);
    forall c
      ensures c in listed ==> c in cells
      ensures Tells(text, cells) && c in cells ==> c in listed
    {
      ListedMember(text, cells, c);
    }
    if forall c :: c in cells ==> c in listed {
      ArrangedRising(text, cells);
      CompactStrict(text, Arranged(text, cells));
      forall a, b | a in cells && b in cells && Show(text, a) == Show(text, b)
        ensures a == b
      {
        var i :| 0 <= i < |listed| && listed[i] == a;
        var j :| 0 <= j < |listed| && listed[j] == b;
        PrecedesTotal(Show(text, a), Show(text, a));
      }
    }
  }

  /** Strictly rising lists of the same values are the same list. */
  lemma {:induction false} StrictUnique<V(!new)>(text: V -> string, a: seq<Cell<V>>, b: seq<Cell<V>>)
    requires Strict(text, a) && Strict(text, b) && forall c :: c in a <==> c in b
    ensures a == b
    decreases |a|
  {
    SomeMember(b);
    if a != [] {
      assert a[0] in b;
      FirstIsFirst(text, a, b);
      forall c
        ensures c in a[1..] <==> c in b[1..]
      {
        RestMembers(text, a, c);
        RestMembers(text, b, c);
      }
      StrictUnique(text, a[1..], b[1..]);
      assert a == [a[0]] + a[1..] && b == [b[0]] + b[1..];
    }
  }

  lemma SomeMember<V(!new)>(cells: seq<Cell<V>>)
    ensures cells == [] || exists c :: c in cells
  {
    if cells != [] {
      assert cells[0] in cells;
    }
  }

  lemma FirstIsFirst<V(!new)>(text: V -> string, a: seq<Cell<V>>, b: seq<Cell<V>>)
    requires Strict(text, a) && Strict(text, b) && a != [] && b != [] && a[0] in b && b[0] in a
    ensures a[0] == b[0]
  {
    var i :| 0 <= i < |b| && b[i] == a[0];
    var j :| 0 <= j < |a| && a[j] == b[0];
    if i > 0 && j > 0 {
      PrecedesTrans(Show(text, a[0]), Show(text, b[0]), Show(text, a[0]));
      PrecedesTotal(Show(text, a[0]), Show(text, a[0]));
    }
  }

  lemma RestMembers<V(!new)>(text: V -> string, cells: seq<Cell<V>>, c: Cell<V>)
    requires Strict(text, cells) && cells != []
    ensures c in cells[1..] <==> c in cells && c != cells[0]
  {
    PrecedesTotal(Show(text, cells[0]), Show(text, cells[0]));
  }

  /** The source's sort may leave equal texts in any order: whichever it is, the values
      passed are the same if equal text means equal value. */
  lemma AnySortIsListed<V(!new)>(text: V -> string, cells: seq<Cell<V>>, sorted: seq<Cell<V>>)
    requires Rising(text, sorted) && multiset(sorted) == multiset(cells) && Tells(text, cells)
    ensures Compact(text, sorted) == Listed(text, cells)
  {
    assert forall c :: c in sorted <==> c in multiset(sorted);
    assert forall c :: c in cells <==> c in multiset(cells);
    ListedIsListIff(text, cells);
    ArrangedRising(text, cells);
    CompactStrict(text, Arranged(text, cells));
    CompactStrict(text, sorted);
    forall c
      ensures c in Compact(text, sorted) <==> c in cells
    {
      CompactKeeps(text, sorted, c);
    }
    StrictUnique(text, Compact(text, sorted), Listed(text, cells));
  }

  lemma CompactKeeps<V(!new)>(text: V -> string, cells: seq<Cell<V>>, c: Cell<V>)
    requires Rising(text, cells) && Tells(text, cells)
    ensures c in Compact(text, cells) <==> c in cells
  {
    if c in Compact(text, cells) {
      CompactWithin(text, cells, c);
    }
    if c in cells {
      CompactStands(text, cells, c);
      var i :| 0 <= i < |Compact(text, cells)| && Show(text, Compact(text, cells)[i]) == Show(text, c);
      CompactWithin(text, cells, Compact(text, cells)[i]);
    }
  }

  /** A list of NULL and the text <nil> keeps only one of the two. */
  lemma NilTextIsDropped(text: string -> string)
    requires text("<nil>") == "<nil>"
    ensures exists c :: c in [None, Some("<nil>")] && c !in Listed(text, [None, Some("<nil>")])
  {
    var cells: seq<Cell<string>> := [None, Some("<nil>")];
    ListedIsListIff(text, cells);
    assert cells[0] in cells && cells[1] in cells;
  }

  // ----- search -----

  function SearchParts(fields: seq<Field>, names: seq<string>, ph: nat): seq<Expr> {
    if names == [] then [] else [Search(FieldOf(fields, names[0]).column, ph)] + SearchParts(fields, names[1..], ph)
  }

  function SearchClause<V(!new)>(db: Db<V>, fields: seq<Field>, names: seq<string>, search: string, start: nat): Clause<V> {
    if search == "" then Clause([], [])
    else Clause([Any(SearchParts(fields, names, start))], [Some(db.quote("%" + Like.EscapeLike(search) + "%"))])
  }

  /** Some searched column contains the search text literally, letter case aside. */
  predicate Found<V(==, !new)>(db: Db<V>, fields: seq<Field>, names: seq<string>, search: string, row: Row<V>) {
    names != [] && (Contained(db, CellOf(row, FieldOf(fields, names[0]).column), search) || Found(db, fields, names[1..], search, row))
  }

  predicate Contained<V(!new)>(db: Db<V>, cell: Cell<V>, search: string) {
    cell.Some? && Like.Contains(Like.Lower(db.lower, db.text(cell.value)), Like.Lower(db.lower, search))
  }

  lemma {:induction false} SearchPartsMeaning<V(!new)>(db: Db<V>, fields: seq<Field>, names: seq<string>, search: string, ph: nat, args: seq<Arg<V>>, row: Row<V>)
    requires Sensible(db) && Value(args, ph) == Some(db.quote("%" + Like.EscapeLike(search) + "%"))
    ensures AnyHolds(db, args, row, SearchParts(fields, names, ph)) <==> Found(db, fields, names, search, row)
  {
    if names != [] {
      var cell := CellOf(row, FieldOf(fields, names[0]).column);
      var part := Search(FieldOf(fields, names[0]).column, ph);
      SearchPartsMeaning(db, fields, names[1..], search, ph, args, row);
      AnyConcat(db, args, row, [part], SearchParts(fields, names[1..], ph));
      AnyOne(db, args, row, part);
      if cell.Some? {
        Like.SearchIsLiteral(db.lower, db.text(cell.value), search);
      }
    }
  }

  lemma SearchMeaning<V(!new)>(db: Db<V>, fields: seq<Field>, names: seq<string>, search: string, start: nat, args: seq<Arg<V>>, row: Row<V>)
    requires Sensible(db) && Passes(args, start, SearchClause(db, fields, names, search, start).cells)
    ensures AllHold(db, args, row, SearchClause(db, fields, names, search, start).parts) <==> search == "" || Found(db, fields, names, search, row)
  {
    if search != "" {
      var clause := SearchClause(db, fields, names, search, start);
      var parts := SearchParts(fields, names, start);
      PassesAt(args, start, clause.cells, 0);
      SearchPartsMeaning(db, fields, names, search, start, args, row);
      AllOne(db, args, row, Any(parts));
      assert Eval(db, args, row, Any(parts)) == EvalAny(db, args, row, parts);
    }
  }

  // ----- order -----

  function Primary(fields: seq<Field>, sort: string): seq<Field> {
    if fields == [] then []
    else if fields[0].primaryKey && fields[0].name != sort then [fields[0]] + Primary(fields[1..], sort)
    else Primary(fields[1..], sort)
  }

  function PlaceField(field: Field, fields: seq<Field>): seq<Field> {
    if fields == [] || !Precedes(fields[0].name, field.name) then [field] + fields
    else [fields[0]] + PlaceField(field, fields[1..])
  }

  function NameSorted(fields: seq<Field>): seq<Field> {
    if fields == [] then [] else PlaceField(fields[0], NameSorted(fields[1..]))
  }

  /** crudListOrder: the sort field, then the rest of the primary key by name. */
  function Order(fields: seq<Field>, sort: string): seq<Field> {
    (if sort == "" then [] else [FieldOf(fields, sort)]) + NameSorted(Primary(fields, sort))
  }

  /** crudListOrder, as the loop that collects the primary key. */
  method BuildOrder(fields: seq<Field>, sort: string) returns (order: seq<Field>)
    ensures order == Order(fields, sort)
  {
    order := if sort == "" then [] else [FieldOf(fields, sort)];
    var primary: seq<Field>, i := [], 0;
    while i < |fields|
      invariant i <= |fields| && primary + Primary(fields[i..], sort) == Primary(fields, sort)
    {
      if fields[i].primaryKey && fields[i].name != sort {
        assert primary + ([fields[i]] + Primary(fields[i + 1..], sort)) == primary + [fields[i]] + Primary(fields[i + 1..], sort);
        primary := primary + [fields[i]];
      }
      i := i + 1;
    }
    assert primary == Primary(fields, sort);
    order := order + NameSorted(primary);
  }

  function Columns(fields: seq<Field>): (columns: seq<string>)
    ensures |columns| == |fields| && forall i :: 0 <= i < |fields| ==> columns[i] == fields[i].column
  {
    seq(|fields|, i requires 0 <= i < |fields| => fields[i].column)
  }

  lemma {:induction false} PlaceFieldMembers(field: Field, fields: seq<Field>)
    ensures forall f :: f in PlaceField(field, fields) <==> f == field || f in fields
  {
    if fields != [] && Precedes(fields[0].name, field.name) {
      PlaceFieldMembers(field, fields[1..]);
      assert fields == [fields[0]] + fields[1..];
    }
  }

  lemma {:induction false} NameSortedMembers(fields: seq<Field>)
    ensures forall f :: f in NameSorted(fields) <==> f in fields
  {
    if fields != [] {
      NameSortedMembers(fields[1..]);
      PlaceFieldMembers(fields[0], NameSorted(fields[1..]));
      assert fields == [fields[0]] + fields[1..];
    }
  }

  lemma {:induction false} PrimaryMembers(fields: seq<Field>, sort: string)
    ensures forall f :: f in Primary(fields, sort) <==> f in fields && f.primaryKey && f.name != sort
  {
    if fields != [] {
      PrimaryMembers(fields[1..], sort);
      assert fields == [fields[0]] + fields[1..];
    }
  }

  /** Every primary key column takes part in the order. */
  lemma OrderCoversKey(spec: Spec, sort: string, field: Field)
    requires ValidSpec(spec) && (sort == "" || Named(spec.fields, sort)) && field in spec.fields && field.primaryKey
    ensures field.column in Columns(Order(spec.fields, sort))
  {
    var order := Order(spec.fields, sort);
    PrimaryMembers(spec.fields, sort);
    NameSortedMembers(Primary(spec.fields, sort));
    if field.name == sort {
      FieldOfNamed(spec.fields, sort);
      assert order[0] == FieldOf(spec.fields, sort) == field;
    } else {
      assert field in NameSorted(Primary(spec.fields, sort));
    }
    assert field in order;
    var i :| 0 <= i < |order| && order[i] == field;
    assert Columns(order)[i] == field.column;
  }
}
