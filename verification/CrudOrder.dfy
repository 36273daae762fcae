/** The order and the size of a listing's pages (datasource/crud.go): rows come by the sort
field asked for, NULLs last, ties by the rest of the primary key in the order of its
names. */
module CrudOrder {
  import opened Options
  import opened Keyset
  import opened Paging
  import opened Sql
  import opened Crud
  import opened CrudList
  import opened CrudPages

  // ----- the order a listing promises -----

  /** A primary key field other than the sort field. */
  predicate KeyField(fields: seq<Field>, sort: string, field: Field) {
    field in fields && field.primaryKey && field.name != sort
  }

  predicate SameCell<V(==)>(field: Field, a: Row<V>, b: Row<V>) {
    CellOf(a, field.column) == CellOf(b, field.column)
  }

  predicate CellFirst<V(!new)>(db: Db<V>, desc: bool, field: Field, a: Row<V>, b: Row<V>) {
    CellBefore(db.lt, desc, CellOf(a, field.column), CellOf(b, field.column))
  }

  ghost predicate SortFirst<V(!new)>(db: Db<V>, fields: seq<Field>, sort: string, desc: bool, a: Row<V>, b: Row<V>) {
    exists field :: field in fields && field.name == sort && CellFirst(db, desc, field, a, b)
  }

  ghost predicate SortAlike<V(!new)>(fields: seq<Field>, sort: string, a: Row<V>, b: Row<V>) {
    forall field :: field in fields && field.name == sort ==> SameCell(field, a, b)
  }

  /** The key field of the least name that tells the rows apart puts one first. */
  ghost predicate TieFirst<V(!new)>(db: Db<V>, fields: seq<Field>, sort: string, desc: bool, a: Row<V>, b: Row<V>) {
    exists field :: KeyField(fields, sort, field) && CellFirst(db, desc, field, a, b) && TiedBelow(fields, sort, field.name, a, b)
  }

  ghost predicate TiedBelow<V(!new)>(fields: seq<Field>, sort: string, name: string, a: Row<V>, b: Row<V>) {
    forall other :: KeyField(fields, sort, other) && Precedes(other.name, name) ==> SameCell(other, a, b)
  }

  ghost predicate ListedFirst<V(!new)>(db: Db<V>, fields: seq<Field>, sort: string, desc: bool, a: Row<V>, b: Row<V>) {
    SortFirst(db, fields, sort, desc, a, b) || (SortAlike(fields, sort, a, b) && TieFirst(db, fields, sort, desc, a, b))
  }

  // ----- crudListOrder gives it -----

  ghost predicate ByName(fields: seq<Field>) {
    forall i, j :: 0 <= i < j < |fields| ==> Precedes(fields[i].name, fields[j].name)
  }

  lemma {:induction false} PlaceByName(field: Field, fields: seq<Field>)
    requires ByName(fields) && forall other :: other in fields ==> other.name != field.name
    ensures ByName(PlaceField(field, fields))
  {
    var placed := PlaceField(field, fields);
    if fields == [] {
    } else if !Precedes(fields[0].name, field.name) {
      PrecedesTotal(fields[0].name, field.name);
      forall j | 0 < j < |placed|
        ensures Precedes(field.name, placed[j].name)
      {
        if j > 1 {
          PrecedesTrans(field.name, fields[0].name, fields[j - 1].name);
        }
      }
    } else {
      PlaceByName(field, fields[1..]);
      PlaceFieldMembers(field, fields[1..]);
      var rest := PlaceField(field, fields[1..]);
      forall j | 0 <= j < |rest|
        ensures Precedes(fields[0].name, rest[j].name)
      {
        assert rest[j] in rest;
        if rest[j] != field {
          var k :| 0 <= k < |fields[1..]| && fields[1..][k] == rest[j];
          assert fields[k + 1] == rest[j];
        }
      }
    }
  }

  predicate Unique(fields: seq<Field>) {
    forall i, j :: 0 <= i < j < |fields| ==> fields[i].name != fields[j].name
  }

  predicate AllNamed(fields: seq<Field>) {
    forall field :: field in fields ==> field.name != ""
  }

  lemma {:induction false} PrimaryUnique(fields: seq<Field>, sort: string)
    requires Unique(fields)
    ensures Unique(Primary(fields, sort))
  {
    if fields != [] {
      PrimaryUnique(fields[1..], sort);
      PrimaryMembers(fields[1..], sort);
    }
  }

  lemma {:induction false} NameSortedByName(fields: seq<Field>)
    requires Unique(fields)
    ensures ByName(NameSorted(fields))
  {
    if fields != [] {
      NameSortedByName(fields[1..]);
      NameSortedMembers(fields[1..]);
      PlaceByName(fields[0], NameSorted(fields[1..]));
    }
  }

  /** The fields a list is ordered by: the sort field, if there is one, and every other
      primary key field once, by name. */
  ghost predicate Ranked(fields: seq<Field>, sort: string, order: seq<Field>) {
    var start := if sort == "" then 0 else 1;
    && start <= |order| && (sort != "" ==> order[0] in fields && order[0].name == sort)
    && (forall field :: field in order[start..] <==> KeyField(fields, sort, field))
    && ByName(order[start..])
  }

  lemma OrderRanked(spec: Spec, sort: string)
    requires ValidSpec(spec) && (sort == "" || Named(spec.fields, sort))
    ensures Ranked(spec.fields, sort, Order(spec.fields, sort))
  {
    var order, start, keys := Order(spec.fields, sort), if sort == "" then 0 else 1, NameSorted(Primary(spec.fields, sort));
    assert order[start..] == keys;
    if sort != "" {
      FieldOfNamed(spec.fields, sort);
    }
    PrimaryMembers(spec.fields, sort);
    NameSortedMembers(Primary(spec.fields, sort));
    PrimaryUnique(spec.fields, sort);
    NameSortedByName(Primary(spec.fields, sort));
  }

  lemma NamedOnce(fields: seq<Field>, a: Field, b: Field)
    requires Unique(fields) && a in fields && b in fields && a.name == b.name
    ensures a == b
  {
  }

  lemma PrefixSame<V(!new)>(order: seq<Field>, i: nat, a: Row<V>, b: Row<V>)
    requires i <= |order|
    ensures KeyOf(Columns(order), a)[..i] == KeyOf(Columns(order), b)[..i] <==> forall k :: 0 <= k < i ==> SameCell(order[k], a, b)
  {
    var x, y := KeyOf(Columns(order), a), KeyOf(Columns(order), b);
    if x[..i] == y[..i] {
      forall k | 0 <= k < i
        ensures SameCell(order[k], a, b)
      {
        assert x[..i][k] == y[..i][k];
      }
    }
  }

  /** Where rows differ first, column by column. */
  ghost predicate FirstAt<V(!new)>(db: Db<V>, order: seq<Field>, desc: bool, a: Row<V>, b: Row<V>, i: nat)
    requires i < |order|
  {
    CellFirst(db, desc, order[i], a, b) && forall k :: 0 <= k < i ==> SameCell(order[k], a, b)
  }

  lemma BeforeIsFirstAt<V(!new)>(db: Db<V>, order: seq<Field>, desc: bool, a: Row<V>, b: Row<V>)
    ensures Before(db.lt, desc, KeyOf(Columns(order), a), KeyOf(Columns(order), b)) <==> exists i :: 0 <= i < |order| && FirstAt(db, order, desc, a, b, i)
  {
    var x, y := KeyOf(Columns(order), a), KeyOf(Columns(order), b);
    BeforeByColumn(db.lt, desc, x, y);
    forall i | 0 <= i < |order|
      ensures Differs(db.lt, desc, x, y, i) <==> FirstAt(db, order, desc, a, b, i)
    {
      PrefixSame(order, i, a, b);
    }
  }

  lemma FirstIsListed<V(!new)>(db: Db<V>, fields: seq<Field>, sort: string, desc: bool, order: seq<Field>, a: Row<V>, b: Row<V>, i: nat)
    requires Unique(fields) && AllNamed(fields) && Ranked(fields, sort, order)
    requires i < |order| && FirstAt(db, order, desc, a, b, i)
    ensures ListedFirst(db, fields, sort, desc, a, b)
  {
    var start := if sort == "" then 0 else 1;
    if i < start {
      assert order[0] in fields && order[0].name == sort;
    } else {
      assert order[start..][i - start] == order[i];
      forall field | field in fields && field.name == sort
        ensures SameCell(field, a, b)
      {
        if sort != "" {
          NamedOnce(fields, field, order[0]);
        }
      }
      forall other | KeyField(fields, sort, other) && Precedes(other.name, order[i].name)
        ensures SameCell(other, a, b)
      {
        assert other in order[start..];
        var k :| 0 <= k < |order[start..]| && order[start..][k] == other;
        EarlierName(order[start..], k, i - start);
        assert order[start + k] == other;
      }
      assert TiedBelow(fields, sort, order[i].name, a, b);
    }
  }

  lemma EarlierName(keys: seq<Field>, k: nat, i: nat)
    requires ByName(keys) && k < |keys| && i < |keys| && Precedes(keys[k].name, keys[i].name)
    ensures k < i
  {
    PrecedesTotal(keys[i].name, keys[i].name);
    if i < k {
      PrecedesTrans(keys[i].name, keys[k].name, keys[i].name);
    }
  }

  lemma KeysTied<V(!new)>(fields: seq<Field>, sort: string, keys: seq<Field>, k: nat, a: Row<V>, b: Row<V>)
    requires ByName(keys) && k < |keys| && TiedBelow(fields, sort, keys[k].name, a, b) && forall field :: field in keys ==> KeyField(fields, sort, field)
    ensures forall j :: 0 <= j < k ==> SameCell(keys[j], a, b)
  {
    forall j | 0 <= j < k
      ensures SameCell(keys[j], a, b)
    {
      assert KeyField(fields, sort, keys[j]) && Precedes(keys[j].name, keys[k].name);
    }
  }

  lemma ListedIsFirst<V(!new)>(db: Db<V>, fields: seq<Field>, sort: string, desc: bool, order: seq<Field>, a: Row<V>, b: Row<V>) returns (i: nat)
    requires Unique(fields) && AllNamed(fields) && Ranked(fields, sort, order)
    requires ListedFirst(db, fields, sort, desc, a, b)
    ensures i < |order| && FirstAt(db, order, desc, a, b, i)
  {
    var start := if sort == "" then 0 else 1;
    if SortFirst(db, fields, sort, desc, a, b) {
      var field :| field in fields && field.name == sort && CellFirst(db, desc, field, a, b);
      NamedOnce(fields, field, order[0]);
      i := 0;
    } else {
      var field :| KeyField(fields, sort, field) && CellFirst(db, desc, field, a, b) && TiedBelow(fields, sort, field.name, a, b);
      var keys := order[start..];
      assert field in keys;
      var k :| 0 <= k < |keys| && keys[k] == field;
      i := start + k;
      KeysTied(fields, sort, keys, k, a, b);
      forall j | 0 <= j < i
        ensures SameCell(order[j], a, b)
      {
        assert j >= start ==> order[j] == keys[j - start];
      }
    }
  }

  /** The columns of a list's ORDER BY put rows in the order a listing promises. */
  lemma OrderMeans<V(!new)>(db: Db<V>, spec: Spec, sort: string, desc: bool, a: Row<V>, b: Row<V>)
    requires ValidSpec(spec) && (sort == "" || Named(spec.fields, sort))
    ensures Before(db.lt, desc, KeyOf(Columns(Order(spec.fields, sort)), a), KeyOf(Columns(Order(spec.fields, sort)), b)) <==>
            ListedFirst(db, spec.fields, sort, desc, a, b)
  {
    hide Order, Ranked, FirstAt, ListedFirst;
    var order := Order(spec.fields, sort);
    OrderRanked(spec, sort);
    BeforeIsFirstAt(db, order, desc, a, b);
    if i :| 0 <= i < |order| && FirstAt(db, order, desc, a, b, i) {
      FirstIsListed(db, spec.fields, sort, desc, order, a, b, i);
    }
    if ListedFirst(db, spec.fields, sort, desc, a, b) {
      var i := ListedIsFirst(db, spec.fields, sort, desc, order, a, b);
    }
  }

  // ----- listings -----

  /** The sort a request asks for, or the default. */
  predicate Asks<V>(spec: Spec, request: Request<V>, sort: string, desc: bool) {
    && sort == (if request.sort != "" then request.sort else spec.list.defaultSort)
    && desc == ("desc" == if request.direction != "" then request.direction else spec.list.defaultDirection)
  }

  lemma RunOrder<V(!new)>(db: Db<V>, spec: Spec, request: Request<V>, sort: string, desc: bool)
    requires ValidSpec(spec) && ListQuery(db, spec, request).Run? && Asks(spec, request, sort, desc)
    ensures sort == "" || (sort in spec.list.sorts && Named(spec.fields, sort))
    ensures OrderOf(db, ListQuery(db, spec, request).query) == RowOrder(db.lt, desc, Columns(Order(spec.fields, sort)))
  {
    hide BaseClause, FingerprintOf, CursorClause, Order;
    if sort != "" {
      assert sort in spec.list.filters + spec.list.search + spec.list.sorts;
    }
  }

  /** Whatever pages a client has followed, their rows come by the sort the first request
      asked for, or the spec's, in its direction, NULLs last, and ties by the other key
      fields in the order of their names. */
  lemma FollowingIsSorted<V(!new)>(db: Db<V>, spec: Spec, table: seq<Row<V>>, requests: seq<Request<V>>, listings: seq<Listing<V>>, sort: string, desc: bool, i: nat, j: nat)
    requires ValidSpec(spec) && Sensible(db) && Keyed(spec.fields, table)
    requires Followed(db, spec, table, requests, listings) && Asks(spec, requests[0], sort, desc)
    requires i < j < |Items(Pages(listings), |listings|)|
    ensures var items := Items(Pages(listings), |listings|);
            && ListedFirst(db, spec.fields, sort, desc, items[i], items[j])
            && (forall field :: field in spec.fields && field.name == sort ==> !CellFirst(db, desc, field, items[j], items[i]))
  {
    hide Keyed, Meant, ListPage, Order, ListedFirst;
    RunsFirst(db, spec, table, requests, listings);
    var o, meant := OrderOf(db, ListQuery(db, spec, requests[0]).query), Meant(db, spec, requests[0], table);
    FollowingIsExact(db, spec, table, requests, listings, o, meant);
    var items, scan := Items(Pages(listings), |listings|), Sorted(o, meant);
    assert items[i] == scan[i] && items[j] == scan[j];
    assert RowBefore(o, scan[i], scan[j]);
    RunOrder(db, spec, requests[0], sort, desc);
    OrderMeans(db, spec, sort, desc, items[i], items[j]);
    NeverBack(db, spec, sort, desc, items[i], items[j]);
  }

  lemma RunsFirst<V(!new)>(db: Db<V>, spec: Spec, table: seq<Row<V>>, requests: seq<Request<V>>, listings: seq<Listing<V>>)
    requires Followed(db, spec, table, requests, listings)
    ensures ListQuery(db, spec, requests[0]).Run?
  {
    assert ListPage(db, spec, requests[0], table) == Some(listings[0]);
  }

  lemma NeverBack<V(!new)>(db: Db<V>, spec: Spec, sort: string, desc: bool, a: Row<V>, b: Row<V>)
    requires ValidSpec(spec) && Sensible(db) && ListedFirst(db, spec.fields, sort, desc, a, b)
    ensures forall field :: field in spec.fields && field.name == sort ==> !CellFirst(db, desc, field, b, a)
  {
    forall field | field in spec.fields && field.name == sort
      ensures !CellFirst(db, desc, field, b, a)
    {
      if SortFirst(db, spec.fields, sort, desc, a, b) {
        var other :| other in spec.fields && other.name == sort && CellFirst(db, desc, other, a, b);
        NamedOnce(spec.fields, field, other);
      }
    }
  }

  // ----- pages -----

  function Least(a: int, b: int): int {
    if a < b then a else b
  }

  /** The rows a request means that its cursor has not passed. */
  function Remaining<V(==, !new)>(db: Db<V>, spec: Spec, request: Request<V>, table: seq<Row<V>>): seq<Row<V>>
    requires ListQuery(db, spec, request).Run?
  {
    Select(Meant(db, spec, request, table), Beyond(OrderOf(db, ListQuery(db, spec, request).query), CursorValues(request)))
  }

  /** A page holds the rows that remain, up to the limit asked for and the spec's, and has a
      next cursor exactly when more remain. */
  lemma PageIsFull<V(!new)>(db: Db<V>, spec: Spec, request: Request<V>, table: seq<Row<V>>)
    requires Sensible(db) && ListPage(db, spec, request, table).Some?
    ensures var page, remaining := ListPage(db, spec, request, table).value, |Remaining(db, spec, request, table)|;
            var limit := Least(spec.list.maxPageSize, if request.limit.Some? then request.limit.value else 50);
            && (request.limit.Some? ==> request.limit.value >= 1)
            && |page.items| == Least(limit, remaining) && (page.next.Some? <==> remaining > limit)
  {
    hide Meant, BaseClause, FingerprintOf, CursorClause;
    var query := ListQuery(db, spec, request).query;
    QueryAnswersRequest(db, spec, request, table);
    SortedMembers(OrderOf(db, query), Remaining(db, spec, request, table));
  }

  /** A request is refused for a missing tenant field, a sort or direction that is not
      allowed, a limit below one, a search over no column, or a cursor of another listing;
      for nothing else. */
  lemma RefusedIff<V(!new)>(db: Db<V>, spec: Spec, request: Request<V>, sort: string, desc: bool)
    requires ValidSpec(spec) && Asks(spec, request, sort, desc)
    ensures ListQuery(db, spec, request).Refused? <==>
            || (exists field :: field in spec.fields && field.tenantKey && field.name !in request.criteria.values)
            || (sort != "" && sort !in spec.list.sorts)
            || request.direction !in ["", "asc", "desc"]
            || (request.limit.Some? && request.limit.value < 1)
            || (request.criteria.search != "" && spec.list.search == [])
            || (request.cursor.Some? && request.cursor.value !=
                Token(CURSOR_VERSION, FingerprintOf(db.text, spec, request), request.cursor.value.values))
            || (request.cursor.Some? && |request.cursor.value.values| != |Order(spec.fields, sort)|)
  {
    hide FingerprintOf, CursorClause, Order, Filters, SearchClause;
    WhereMissing(spec.fields, request.criteria.values, 1, TenantScope);
    assert BaseClause(db, spec, request.criteria).None? <==> WhereFrom(spec.fields, request.criteria.values, 1, TenantScope).None?;
  }
}
