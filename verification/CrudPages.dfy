/** The pages of a list request (datasource/crud.go): each query selects exactly the
rows the request means, a cursor is taken only by the query that issued it, and
following cursors returns every such row once, in order. */
module CrudPages {
  import opened Options
  import opened Keyset
  import opened Paging
  import opened Sql
  import opened Crud
  import opened CrudList

  const DEFAULT_PAGE := 50
  const CURSOR_VERSION := 1

  datatype Query<V> = Query(where: Clause<V>, order: seq<string>, desc: bool, limit: nat, fingerprint: Fingerprint<V>)

  datatype Outcome<V> = Refused | Run(query: Query<V>)

  // ----- building the query -----

  function SortOf<V>(spec: Spec, request: Request<V>): string {
    if request.sort == "" then spec.list.defaultSort else request.sort
  }

  function DirectionOf<V>(spec: Spec, request: Request<V>): string {
    if request.direction != "" then request.direction
    else if spec.list.defaultDirection != "" then spec.list.defaultDirection
    else "asc"
  }

  predicate Allowed<V>(spec: Spec, request: Request<V>) {
    && DirectionOf(spec, request) in ["asc", "desc"]
    && (SortOf(spec, request) == "" || SortOf(spec, request) in spec.list.sorts)
  }

  function Limit(list: ListSpec, limit: Option<int>): Option<int> {
    match limit
    case None => Some(if list.maxPageSize < DEFAULT_PAGE then list.maxPageSize else DEFAULT_PAGE)
    case Some(n) => if n < 1 then None else Some(if n < list.maxPageSize then n else list.maxPageSize)
  }

  function Lookup<V>(values: map<string, V>, key: string): Option<V> {
    if key in values then Some(values[key]) else None
  }

  function TenantValues<V>(fields: seq<Field>, values: map<string, Cell<V>>): seq<Option<Cell<V>>> {
    if fields == [] then []
    else (if fields[0].tenantKey then [Lookup(values, fields[0].name)] else []) + TenantValues(fields[1..], values)
  }

  function HeldBy<V>(text: V -> string, field: Field, criteria: Criteria<V>): Held<V> {
    if field.textual then Chosen(if field.name in criteria.lists then Some(Listed(text, criteria.lists[field.name])) else None)
    else Ends(Lookup(criteria.values, field.name + "_from"), Lookup(criteria.values, field.name + "_to"))
  }

  function FilterValues<V>(text: V -> string, fields: seq<Field>, names: seq<string>, criteria: Criteria<V>): seq<Held<V>> {
    if names == [] then []
    else FilterValues(text, fields, names[..|names| - 1], criteria) + [HeldBy(text, FieldOf(fields, names[|names| - 1]), criteria)]
  }

  function FingerprintOf<V>(text: V -> string, spec: Spec, request: Request<V>): Fingerprint<V> {
    Fingerprint(
      SortOf(spec, request), DirectionOf(spec, request), TenantValues(spec.fields, request.criteria.values),
      FilterValues(text, spec.fields, spec.list.filters, request.criteria), request.criteria.search)
  }

  /** The clauses of the tenant scope and the filters. */
  function Filtered<V>(text: V -> string, spec: Spec, criteria: Criteria<V>): Option<Clause<V>> {
    match WhereFrom(spec.fields, criteria.values, 1, TenantScope)
    case None => None
    case Some(tenant) => Some(Join(tenant, Filters(text, spec.fields, spec.list.filters, criteria, 1 + |tenant.cells|)))
  }

  /** The clauses of a request but for its cursor. */
  function BaseClause<V(!new)>(db: Db<V>, spec: Spec, criteria: Criteria<V>): Option<Clause<V>> {
    match Filtered(db.text, spec, criteria)
    case None => None
    case Some(filtered) => Some(Join(filtered, SearchClause(db, spec.fields, spec.list.search, criteria.search, 1 + |filtered.cells|)))
  }

  /** decodeCRUDCursor's acceptance. */
  predicate Accepted<V(==)>(token: Token<V>, fingerprint: Fingerprint<V>, columns: nat) {
    token.version == CURSOR_VERSION && token.fingerprint == fingerprint && |token.values| == columns
  }

  /** listCRUDPage up to the query it runs; a search over no column is not SQL, so
      the database refuses it. */
  function ListQuery<V(==, !new)>(db: Db<V>, spec: Spec, request: Request<V>): Outcome<V> {
    var base, limit := BaseClause(db, spec, request.criteria), Limit(spec.list, request.limit);
    if base.None? || limit.None? || limit.value < 1 || !Allowed(spec, request) || (request.criteria.search != "" && spec.list.search == []) then Refused
    else
      var order := Columns(Order(spec.fields, SortOf(spec, request)));
      var desc := DirectionOf(spec, request) == "desc";
      var fingerprint := FingerprintOf(db.text, spec, request);
      match request.cursor
      case None => Run(Query(base.value, order, desc, limit.value, fingerprint))
      case Some(token) =>
        if !Accepted(token, fingerprint, |order|) then Refused
        else
          var after := CursorClause(order, desc, token.values, 1 + |base.value.cells|);
          Run(Query(Join(base.value, after), order, desc, limit.value, fingerprint))
  }

  method BuildBase<V(!new)>(db: Db<V>, spec: Spec, criteria: Criteria<V>) returns (clause: Option<Clause<V>>)
    ensures clause == BaseClause(db, spec, criteria)
  {
    hide WhereFrom, Filters, SearchClause;
    var tenant := BuildWhere(spec.fields, criteria.values, 1, TenantScope);
    if tenant.None? {
      return None;
    }
    var filters := BuildFilters(db.text, spec.fields, spec.list.filters, criteria, 1 + |tenant.value.cells|);
    var where := Join(tenant.value, filters);
    return Some(Join(where, SearchClause(db, spec.fields, spec.list.search, criteria.search, 1 + |where.cells|)));
  }

  /** listCRUDPage, building the query step by step. */
  method BuildList<V(==, !new)>(db: Db<V>, spec: Spec, request: Request<V>) returns (outcome: Outcome<V>)
    ensures outcome == ListQuery(db, spec, request)
  {
    var base := BuildBase(db, spec, request.criteria);
    if base.None? {
      return Refused;
    }
    var where := base.value;
    if request.criteria.search != "" && spec.list.search == [] {
      return Refused;
    }
    if !Allowed(spec, request) {
      return Refused;
    }
    var sorted := BuildOrder(spec.fields, SortOf(spec, request));
    var order := Columns(sorted);
    var desc := DirectionOf(spec, request) == "desc";
    var fingerprint := FingerprintOf(db.text, spec, request);
    if request.cursor.Some? {
      if !Accepted(request.cursor.value, fingerprint, |order|) {
        return Refused;
      }
      var after := BuildCursor(order, desc, request.cursor.value.values, 1 + |where.cells|);
      where := Join(where, after);
    }
    var limit := Limit(spec.list, request.limit);
    if limit.None? || limit.value < 1 {
      return Refused;
    }
    return Run(Query(where, order, desc, limit.value, fingerprint));
  }

  // ----- what the query answers -----

  /** The arguments of the query: the values of its clauses, then LIMIT's count. */
  function Args<V>(query: Query<V>): seq<Arg<V>> {
    Data(query.where.cells) + [Count(query.limit + 1)]
  }

  function LimitArg<V>(query: Query<V>): int {
    Args(query)[|Args(query)| - 1].n
  }

  function OrderOf<V(==, !new)>(db: Db<V>, query: Query<V>): Ordering<Row<V>, seq<Cell<V>>> {
    RowOrder(db.lt, query.desc, query.order)
  }

  /** SELECT … WHERE … ORDER BY … LIMIT $n over a table. */
  function Answer<V(==, !new)>(db: Db<V>, query: Query<V>, table: seq<Row<V>>): seq<Row<V>> {
    var args := Args(query);
    var found := Sorted(OrderOf(db, query), Select(table, row => AllHold(db, args, row, query.where.parts)));
    if LimitArg(query) < 0 then found else Cut(found, LimitArg(query))
  }

  predicate InScope<V(==, !new)>(db: Db<V>, spec: Spec, criteria: Criteria<V>, row: Row<V>) {
    Scoped(spec.fields, criteria.values, TenantScope, row) && AllWanted(db, spec.fields, spec.list.filters, criteria, row)
  }

  predicate Sought<V(==, !new)>(db: Db<V>, spec: Spec, criteria: Criteria<V>, row: Row<V>) {
    criteria.search == "" || Found(db, spec.fields, spec.list.search, criteria.search, row)
  }

  /** The rows a request means, its cursor and limit aside. */
  predicate Intended<V(==, !new)>(db: Db<V>, spec: Spec, criteria: Criteria<V>, row: Row<V>) {
    InScope(db, spec, criteria, row) && Sought(db, spec, criteria, row)
  }

  function Meant<V(==, !new)>(db: Db<V>, spec: Spec, request: Request<V>, table: seq<Row<V>>): seq<Row<V>> {
    Select(table, row => Intended(db, spec, request.criteria, row))
  }

  lemma FilteredMeaning<V(!new)>(db: Db<V>, spec: Spec, criteria: Criteria<V>, args: seq<Arg<V>>, row: Row<V>)
    requires Filtered(db.text, spec, criteria).Some? && Passes(args, 1, Filtered(db.text, spec, criteria).value.cells)
    ensures AllHold(db, args, row, Filtered(db.text, spec, criteria).value.parts) <==> InScope(db, spec, criteria, row)
  {
    hide Scoped, AllWanted, AllHold, Passes, Filters;
    var tenant := WhereFrom(spec.fields, criteria.values, 1, TenantScope).value;
    var filters := Filters(db.text, spec.fields, spec.list.filters, criteria, 1 + |tenant.cells|);
    JoinMeaning(db, tenant, filters, 1, args, row);
    WhereMeaning(db, spec.fields, criteria.values, 1, TenantScope, args, row);
    FiltersMeaning(db, spec.fields, spec.list.filters, criteria, 1 + |tenant.cells|, args, row);
  }

  lemma SoughtMeaning<V(!new)>(db: Db<V>, spec: Spec, criteria: Criteria<V>, start: nat, args: seq<Arg<V>>, row: Row<V>)
    requires Sensible(db) && Passes(args, start, SearchClause(db, spec.fields, spec.list.search, criteria.search, start).cells)
    ensures AllHold(db, args, row, SearchClause(db, spec.fields, spec.list.search, criteria.search, start).parts) <==> Sought(db, spec, criteria, row)
  {
    SearchMeaning(db, spec.fields, spec.list.search, criteria.search, start, args, row);
  }

  lemma BaseMeaning<V(!new)>(db: Db<V>, spec: Spec, criteria: Criteria<V>, args: seq<Arg<V>>, row: Row<V>)
    requires Sensible(db) && BaseClause(db, spec, criteria).Some? && Passes(args, 1, BaseClause(db, spec, criteria).value.cells)
    ensures AllHold(db, args, row, BaseClause(db, spec, criteria).value.parts) <==> Intended(db, spec, criteria, row)
  {
    hide InScope, Sought, AllHold, Passes, Filtered, SearchClause;
    var filtered := Filtered(db.text, spec, criteria).value;
    var search := SearchClause(db, spec.fields, spec.list.search, criteria.search, 1 + |filtered.cells|);
    JoinMeaning(db, filtered, search, 1, args, row);
    FilteredMeaning(db, spec, criteria, args, row);
    SoughtMeaning(db, spec, criteria, 1 + |filtered.cells|, args, row);
  }

  lemma ArgsPass<V(!new)>(query: Query<V>)
    ensures Passes(Args(query), 1, query.where.cells)
    ensures LimitArg(query) == query.limit + 1
  {
    PassesData(Args(query), 1, query.where.cells);
  }

  function CursorValues<V>(request: Request<V>): Option<seq<Cell<V>>> {
    if request.cursor.None? then None else Some(request.cursor.value.values)
  }

  lemma AfterMeaning<V(!new)>(db: Db<V>, base: Clause<V>, order: seq<string>, desc: bool, values: seq<Cell<V>>, args: seq<Arg<V>>, row: Row<V>)
    requires |order| == |values| && Passes(args, 1, Join(base, CursorClause(order, desc, values, 1 + |base.cells|)).cells)
    ensures Passes(args, 1, base.cells)
    ensures AllHold(db, args, row, Join(base, CursorClause(order, desc, values, 1 + |base.cells|)).parts) <==>
            AllHold(db, args, row, base.parts) && Before(db.lt, desc, values, KeyOf(order, row))
  {
    JoinMeaning(db, base, CursorClause(order, desc, values, 1 + |base.cells|), 1, args, row);
    CursorMeaning(db, order, desc, values, 1 + |base.cells|, args, row);
  }

  lemma WhereIsMeant<V(!new)>(db: Db<V>, spec: Spec, request: Request<V>, row: Row<V>)
    requires Sensible(db) && ListQuery(db, spec, request).Run?
    ensures var query := ListQuery(db, spec, request).query;
            AllHold(db, Args(query), row, query.where.parts) <==>
            Intended(db, spec, request.criteria, row) && Beyond(OrderOf(db, query), CursorValues(request))(row)
  {
    hide AllHold, Passes, Intended, BaseClause, CursorClause, FingerprintOf;
    var query := ListQuery(db, spec, request).query;
    var base := BaseClause(db, spec, request.criteria).value;
    ArgsPass(query);
    if request.cursor.Some? {
      AfterMeaning(db, base, query.order, query.desc, request.cursor.value.values, Args(query), row);
    }
    BaseMeaning(db, spec, request.criteria, Args(query), row);
  }

  /** A list query answers one row more than a page of exactly the rows the request
      means that lie beyond its cursor, in its order, NULLs last. */
  lemma QueryAnswersRequest<V(!new)>(db: Db<V>, spec: Spec, request: Request<V>, table: seq<Row<V>>)
    requires Sensible(db) && ListQuery(db, spec, request).Run?
    ensures var query := ListQuery(db, spec, request).query;
            && 1 <= query.limit <= spec.list.maxPageSize
            && Answer(db, query, table) ==
               Fetched(OrderOf(db, query), Meant(db, spec, request, table), CursorValues(request), query.limit)
  {
    var query := ListQuery(db, spec, request).query;
    var args := Args(query);
    var both := (row: Row<V>) => AllHold(db, args, row, query.where.parts);
    var first := (row: Row<V>) => Intended(db, spec, request.criteria, row);
    var second := Beyond(OrderOf(db, query), CursorValues(request));
    forall row
      ensures both(row) <==> first(row) && second(row)
    {
      WhereIsMeant(db, spec, request, row);
    }
    SelectTwice(table, both, first, second);
    ArgsPass(query);
  }

  // ----- fingerprints -----

  lemma SameHeld<V(!new)>(db: Db<V>, field: Field, a: Criteria<V>, b: Criteria<V>, row: Row<V>)
    requires HeldBy(db.text, field, a) == HeldBy(db.text, field, b)
    ensures Wanted(db, field, a, row) <==> Wanted(db, field, b, row)
  {
  }

  lemma {:induction false} SameFilters<V(!new)>(db: Db<V>, fields: seq<Field>, names: seq<string>, a: Criteria<V>, b: Criteria<V>, row: Row<V>)
    requires FilterValues(db.text, fields, names, a) == FilterValues(db.text, fields, names, b)
    ensures AllWanted(db, fields, names, a, row) <==> AllWanted(db, fields, names, b, row)
  {
    if names != [] {
      var last := |names| - 1;
      var x, y := FilterValues(db.text, fields, names, a), FilterValues(db.text, fields, names, b);
      assert x[|x| - 1] == y[|x| - 1] && x[..|x| - 1] == y[..|x| - 1];
      SameHeld(db, FieldOf(fields, names[last]), a, b, row);
      SameFilters(db, fields, names[..last], a, b, row);
    }
  }

  lemma {:induction false} SameTenant<V(!new)>(fields: seq<Field>, a: map<string, Cell<V>>, b: map<string, Cell<V>>, row: Row<V>)
    requires TenantValues(fields, a) == TenantValues(fields, b)
    ensures Scoped(fields, a, TenantScope, row) <==> Scoped(fields, b, TenantScope, row)
  {
    if fields != [] {
      var x, y := TenantValues(fields, a), TenantValues(fields, b);
      if fields[0].tenantKey {
        assert x[0] == y[0] && x[1..] == y[1..];
      }
      assert TenantValues(fields[1..], a) == if fields[0].tenantKey then x[1..] else x;
      assert TenantValues(fields[1..], b) == if fields[0].tenantKey then y[1..] else y;
      SameTenant(fields[1..], a, b, row);
      ScopedStep(fields, a, row);
      ScopedStep(fields, b, row);
    }
  }

  lemma ScopedStep<V(!new)>(fields: seq<Field>, values: map<string, Cell<V>>, row: Row<V>)
    requires fields != []
    ensures Scoped(fields, values, TenantScope, row) <==>
            Scoped([fields[0]], values, TenantScope, row) && Scoped(fields[1..], values, TenantScope, row)
  {
    assert fields == [fields[0]] + fields[1..];
  }

  /** Requests of one fingerprint mean the same rows. */
  lemma FingerprintFixesMeaning<V(!new)>(db: Db<V>, spec: Spec, a: Request<V>, b: Request<V>, row: Row<V>)
    requires FingerprintOf(db.text, spec, a) == FingerprintOf(db.text, spec, b)
    ensures Intended(db, spec, a.criteria, row) <==> Intended(db, spec, b.criteria, row)
  {
    SameTenant(spec.fields, a.criteria.values, b.criteria.values, row);
    SameFilters(db, spec.fields, spec.list.filters, a.criteria, b.criteria, row);
  }

  lemma SameMeant<V(!new)>(db: Db<V>, spec: Spec, a: Request<V>, b: Request<V>, table: seq<Row<V>>)
    requires FingerprintOf(db.text, spec, a) == FingerprintOf(db.text, spec, b)
    ensures Meant(db, spec, a, table) == Meant(db, spec, b, table)
  {
    forall row
      ensures Intended(db, spec, a.criteria, row) <==> Intended(db, spec, b.criteria, row)
    {
      FingerprintFixesMeaning(db, spec, a, b, row);
    }
    SelectAlike(table, row => Intended(db, spec, a.criteria, row), row => Intended(db, spec, b.criteria, row));
  }

  /** A fingerprint fixes the order of its query. */
  lemma FingerprintFixesOrder<V(!new)>(db: Db<V>, spec: Spec, request: Request<V>)
    requires ListQuery(db, spec, request).Run?
    ensures var query := ListQuery(db, spec, request).query;
            && query.fingerprint == FingerprintOf(db.text, spec, request)
            && query.order == Columns(Order(spec.fields, query.fingerprint.sort))
            && query.desc == (query.fingerprint.direction == "desc")
            && (request.cursor.Some? ==> request.cursor.value.fingerprint == query.fingerprint)
  {
  }

  /** A cursor issued by one request and taken by another means the same listing in
      both: the same rows, in the same order. */
  lemma CursorFixesListing<V(!new)>(db: Db<V>, spec: Spec, a: Request<V>, b: Request<V>, table: seq<Row<V>>)
    requires ListQuery(db, spec, a).Run? && ListQuery(db, spec, b).Run?
    requires b.cursor.Some? && b.cursor.value.fingerprint == ListQuery(db, spec, a).query.fingerprint
    ensures ListQuery(db, spec, b).query.order == ListQuery(db, spec, a).query.order
    ensures ListQuery(db, spec, b).query.desc == ListQuery(db, spec, a).query.desc
    ensures Meant(db, spec, a, table) == Meant(db, spec, b, table)
  {
    FingerprintFixesOrder(db, spec, a);
    FingerprintFixesOrder(db, spec, b);
    SameMeant(db, spec, a, b, table);
  }

  // ----- following the cursors -----

  datatype Listing<V> = Listing(items: seq<Row<V>>, next: Option<Token<V>>)

  /** listCRUDPage on a table. */
  function ListPage<V(==, !new)>(db: Db<V>, spec: Spec, request: Request<V>, table: seq<Row<V>>): Option<Listing<V>> {
    match ListQuery(db, spec, request)
    case Refused => None
    case Run(query) =>
      if query.limit < 1 then None
      else
        var page := PageOf(RowKey(query.order), Answer(db, query, table), query.limit);
        Some(Listing(page.items, if page.next.None? then None else Some(Token(CURSOR_VERSION, query.fingerprint, page.next.value))))
  }

  /** The next_cursor of a page is taken by the same request, with any limit it may have. */
  lemma NextCursorIsTaken<V(!new)>(db: Db<V>, spec: Spec, request: Request<V>, table: seq<Row<V>>, limit: Option<int>)
    requires ListPage(db, spec, request, table).Some? && ListPage(db, spec, request, table).value.next.Some?
    requires spec.list.maxPageSize >= 1 && (limit.Some? ==> limit.value >= 1)
    ensures ListPage(db, spec, request.(cursor := ListPage(db, spec, request, table).value.next, limit := limit), table).Some?
  {
    hide Filters, WhereFrom, SearchClause, Answer, FilterValues, TenantValues;
    var next := request.(cursor := ListPage(db, spec, request, table).value.next, limit := limit);
    assert FingerprintOf(db.text, spec, next) == FingerprintOf(db.text, spec, request);
  }

  /** Requests that each carry the next_cursor of the page before. */
  ghost predicate Linked<V(!new)>(requests: seq<Request<V>>, pages: seq<Listing<V>>) {
    && |requests| == |pages| > 0
    && requests[0].cursor.None?
    && (forall i, j :: 0 <= i < j < |pages| && j == i + 1 ==> pages[i].next.Some? && requests[j].cursor == pages[i].next)
  }

  ghost predicate Followed<V(!new)>(db: Db<V>, spec: Spec, table: seq<Row<V>>, requests: seq<Request<V>>, pages: seq<Listing<V>>) {
    && Linked(requests, pages)
    && (forall i :: 0 <= i < |pages| ==> ListPage(db, spec, requests[i], table) == Some(pages[i]))
  }

  function Pages<V>(listings: seq<Listing<V>>): (pages: seq<Page<Row<V>, seq<Cell<V>>>>)
    ensures |pages| == |listings|
    ensures forall i :: 0 <= i < |pages| ==> pages[i] == PageIn(listings[i])
  {
    seq(|listings|, i requires 0 <= i < |listings| => PageIn(listings[i]))
  }

  function PageIn<V>(listing: Listing<V>): Page<Row<V>, seq<Cell<V>>> {
    Page(listing.items, if listing.next.None? then None else Some(listing.next.value.values))
  }

  function Limits<V>(list: ListSpec, requests: seq<Request<V>>): (limits: seq<nat>)
    ensures |limits| == |requests|
    ensures forall i :: 0 <= i < |limits| ==> limits[i] == PageLimit(list, requests[i])
  {
    seq(|requests|, i requires 0 <= i < |requests| => PageLimit(list, requests[i]))
  }

  function PageLimit<V>(list: ListSpec, request: Request<V>): nat {
    var limit := Limit(list, request.limit);
    if limit.None? || limit.value < 1 then 0 else limit.value
  }

  function Cursors<V>(requests: seq<Request<V>>): (cursors: seq<Option<seq<Cell<V>>>>)
    ensures |cursors| == |requests|
    ensures forall i :: 0 <= i < |cursors| ==> cursors[i] == CursorValues(requests[i])
  {
    seq(|requests|, i requires 0 <= i < |requests| => CursorValues(requests[i]))
  }

  lemma KeyedOrder<V(!new)>(spec: Spec, sort: string, table: seq<Row<V>>)
    requires ValidSpec(spec) && (sort == "" || Named(spec.fields, sort)) && Keyed(spec.fields, table)
    ensures DistinctKeys(RowKey(Columns(Order(spec.fields, sort))), table)
  {
    var order := Columns(Order(spec.fields, sort));
    forall i, j | 0 <= i < j < |table|
      ensures KeyOf(order, table[i]) != KeyOf(order, table[j])
    {
      assert Apart(spec.fields, table[i], table[j]);
      var field :| field in spec.fields && field.primaryKey && CellOf(table[i], field.column) != CellOf(table[j], field.column);
      OrderCoversKey(spec, sort, field);
      var k :| 0 <= k < |order| && order[k] == field.column;
      assert KeyOf(order, table[i])[k] != KeyOf(order, table[j])[k];
    }
  }

  /** A page was taken for, and its cursor issued with, its request's fingerprint. */
  ghost predicate Stamped<V(!new)>(text: V -> string, spec: Spec, request: Request<V>, page: Listing<V>) {
    && (request.cursor.Some? ==> request.cursor.value.fingerprint == FingerprintOf(text, spec, request))
    && (page.next.Some? ==> page.next.value.fingerprint == FingerprintOf(text, spec, request))
  }

  lemma PageIsStamped<V(!new)>(db: Db<V>, spec: Spec, request: Request<V>, table: seq<Row<V>>)
    requires ListPage(db, spec, request, table).Some?
    ensures Stamped(db.text, spec, request, ListPage(db, spec, request, table).value)
  {
    FingerprintFixesOrder(db, spec, request);
  }

  lemma {:induction false} LinkedAlike<V(!new)>(text: V -> string, spec: Spec, requests: seq<Request<V>>, pages: seq<Listing<V>>, i: nat, fingerprint: Fingerprint<V>)
    requires Linked(requests, pages) && i < |pages| && fingerprint == FingerprintOf(text, spec, requests[0])
    requires forall k :: 0 <= k < |pages| ==> Stamped(text, spec, requests[k], pages[k])
    ensures FingerprintOf(text, spec, requests[i]) == fingerprint
  {
    if i > 0 {
      LinkedAlike(text, spec, requests, pages, i - 1, fingerprint);
      assert Stamped(text, spec, requests[i - 1], pages[i - 1]) && Stamped(text, spec, requests[i], pages[i]);
      assert requests[i].cursor == pages[i - 1].next && pages[i - 1].next.Some?;
    }
  }

  lemma PageIsFetched<V(!new)>(db: Db<V>, spec: Spec, request: Request<V>, table: seq<Row<V>>)
    requires Sensible(db) && ListPage(db, spec, request, table).Some?
    ensures var query := ListQuery(db, spec, request).query;
            && query.limit > 0
            && query.limit == PageLimit(spec.list, request)
            && PageIn(ListPage(db, spec, request, table).value) ==
               Fetch(OrderOf(db, query), Meant(db, spec, request, table), CursorValues(request), query.limit)
  {
    QueryAnswersRequest(db, spec, request, table);
  }

  /** The listing a request reads. */
  ghost predicate Lists<V(!new)>(db: Db<V>, spec: Spec, request: Request<V>, table: seq<Row<V>>, o: Ordering<Row<V>, seq<Cell<V>>>, meant: seq<Row<V>>) {
    ListQuery(db, spec, request).Run? && o == OrderOf(db, ListQuery(db, spec, request).query) && meant == Meant(db, spec, request, table)
  }

  lemma FollowedFetch<V(!new)>(db: Db<V>, spec: Spec, table: seq<Row<V>>, requests: seq<Request<V>>, listings: seq<Listing<V>>, i: nat, o: Ordering<Row<V>, seq<Cell<V>>>, meant: seq<Row<V>>)
    requires Sensible(db) && Followed(db, spec, table, requests, listings) && i < |listings|
    requires Lists(db, spec, requests[0], table, o, meant)
    ensures Fetches(o, meant, spec.list, requests[i], listings[i])
  {
    assert ListPage(db, spec, requests[i], table) == Some(listings[i]);
    forall k | 0 <= k < |listings|
      ensures Stamped(db.text, spec, requests[k], listings[k])
    {
      PageIsStamped(db, spec, requests[k], table);
    }
    LinkedAlike(db.text, spec, requests, listings, i, FingerprintOf(db.text, spec, requests[0]));
    FingerprintFixesOrder(db, spec, requests[0]);
    FingerprintFixesOrder(db, spec, requests[i]);
    SameMeant(db, spec, requests[0], requests[i], table);
    PageIsFetched(db, spec, requests[i], table);
  }

  /** A page is what a request fetches of a listing. */
  ghost predicate Fetches<V(!new)>(o: Ordering<Row<V>, seq<Cell<V>>>, meant: seq<Row<V>>, list: ListSpec, request: Request<V>, page: Listing<V>) {
    PageLimit(list, request) > 0 && PageIn(page) == Fetch(o, meant, CursorValues(request), PageLimit(list, request))
  }

  lemma LinkedTraverses<V(!new)>(o: Ordering<Row<V>, seq<Cell<V>>>, meant: seq<Row<V>>, list: ListSpec, requests: seq<Request<V>>, listings: seq<Listing<V>>)
    requires Linked(requests, listings)
    requires forall i :: 0 <= i < |listings| ==> Fetches(o, meant, list, requests[i], listings[i])
    ensures Traversal(o, meant, Cursors(requests), Limits(list, requests), Pages(listings))
  {
    var pages, cursors, limits := Pages(listings), Cursors(requests), Limits(list, requests);
    forall i | 0 <= i < |pages|
      ensures limits[i] > 0 && pages[i] == Fetch(o, meant, cursors[i], limits[i])
    {
      assert Fetches(o, meant, list, requests[i], listings[i]);
    }
    forall i, j | 0 <= i < j < |pages| && j == i + 1
      ensures Continues(pages[i], cursors[j])
    {
      assert requests[j].cursor == listings[i].next && listings[i].next.Some?;
    }
  }

  /** Following next_cursor returns, page by page, exactly the rows the first request
      means, each once and in order, whatever limits the requests carry: the pages so
      far are a prefix of the one full listing, all of it when there is no next. */
  lemma FollowingIsExact<V(!new)>(db: Db<V>, spec: Spec, table: seq<Row<V>>, requests: seq<Request<V>>, listings: seq<Listing<V>>, o: Ordering<Row<V>, seq<Cell<V>>>, meant: seq<Row<V>>)
    requires ValidSpec(spec) && Sensible(db) && Keyed(spec.fields, table)
    requires Followed(db, spec, table, requests, listings) && Lists(db, spec, requests[0], table, o, meant)
    ensures var scan := Sorted(o, meant);
            && Items(Pages(listings), |listings|) <= scan
            && (listings[|listings| - 1].next.None? <==> Items(Pages(listings), |listings|) == scan)
            && Ascending(o, scan) && multiset(scan) == multiset(meant)
    ensures |listings| <= |meant| + 1
  {
    hide Lists, Fetches, Traversal, Keyed, ListPage, ValidSpec, Sensible;
    forall i | 0 <= i < |listings|
      ensures Fetches(o, meant, spec.list, requests[i], listings[i])
    {
      FollowedFetch(db, spec, table, requests, listings, i, o, meant);
    }
    LinkedTraverses(o, meant, spec.list, requests, listings);
    MeantIsKeyed(db, spec, requests[0], table, o, meant);
    PaginationIsExact(o, meant, Cursors(requests), Limits(spec.list, requests), Pages(listings));
  }

  lemma MeantIsKeyed<V(!new)>(db: Db<V>, spec: Spec, request: Request<V>, table: seq<Row<V>>, o: Ordering<Row<V>, seq<Cell<V>>>, meant: seq<Row<V>>)
    requires ValidSpec(spec) && Sensible(db) && Keyed(spec.fields, table) && Lists(db, spec, request, table, o, meant)
    ensures Orders(o) && DistinctKeys(o.key, meant)
  {
    var query := ListQuery(db, spec, request).query;
    KeyedOrder(spec, SortOf(spec, request), table);
    SelectDistinct(RowKey(query.order), table, row => Intended(db, spec, request.criteria, row));
    RowOrderOrders(db.lt, query.desc, query.order);
  }

  // ----- a database and a listing -----

  /** Strings in byte order, with the identity as text, quotation and lowering. */
  const STRINGS: Db<string> := Db((a: string, b: string) => Precedes(a, b), (s: string) => s, (s: string) => s, c => c)

  const KEY_FIELD: Field := Field("id", "id", true, true, false, false)
  const ONE_FIELD: Spec := Spec([KEY_FIELD], ListSpec([], [], [], "", "", 10))
  const FIRST_PAGE: Request<string> := Request(Criteria(map[], map[], ""), "", "", None, None)

  lemma StringsAreSensible()
    ensures Sensible(STRINGS)
  {
    forall a: string, b: string, c: string | Precedes(a, b) && Precedes(b, c)
      ensures Precedes(a, c)
    {
      PrecedesTrans(a, b, c);
    }
    forall a: string, b: string
      ensures !Precedes(a, a) && (a == b || Precedes(a, b) || Precedes(b, a))
    {
      PrecedesTotal(a, b);
    }
  }

  /** The theorems speak of something: a database that is sensible, a valid spec, and a
      request whose query runs and lists the rows of its table in byte order. */
  lemma SomethingIsListed(rows: seq<Row<string>>)
    ensures Sensible(STRINGS) && ValidSpec(ONE_FIELD) && ListQuery(STRINGS, ONE_FIELD, FIRST_PAGE).Run?
    ensures ListQuery(STRINGS, ONE_FIELD, FIRST_PAGE).query.order == ["id"] && Meant(STRINGS, ONE_FIELD, FIRST_PAGE, rows) == rows
  {
    StringsAreSensible();
    OneFieldRuns();
    SelectAll(rows, row => Intended(STRINGS, ONE_FIELD, FIRST_PAGE.criteria, row));
  }

  lemma OneFieldRuns()
    ensures ValidSpec(ONE_FIELD) && ListQuery(STRINGS, ONE_FIELD, FIRST_PAGE).Run?
    ensures ListQuery(STRINGS, ONE_FIELD, FIRST_PAGE).query.order == ["id"]
    ensures forall row :: Intended(STRINGS, ONE_FIELD, FIRST_PAGE.criteria, row)
  {
    hide Order, WhereFrom, FingerprintOf;
    OneFieldIsValid();
    OneFieldOrder();
    OneFieldWhere();
    assert BaseClause(STRINGS, ONE_FIELD, FIRST_PAGE.criteria).Some?;
    assert Allowed(ONE_FIELD, FIRST_PAGE);
  }

  lemma OneFieldIsValid()
    ensures ValidSpec(ONE_FIELD)
  {
    assert KEY_FIELD in ONE_FIELD.fields;
  }

  lemma OneFieldOrder()
    ensures Columns(Order(ONE_FIELD.fields, "")) == ["id"]
  {
    var fields := ONE_FIELD.fields;
    assert fields[1..] == [];
    assert Primary(fields, "") == [KEY_FIELD] == NameSorted([KEY_FIELD]) by {
      assert [KEY_FIELD][1..] == [];
    }
    assert Order(fields, "") == [KEY_FIELD];
  }

  lemma OneFieldWhere()
    ensures WhereFrom<string>(ONE_FIELD.fields, map[], 1, TenantScope).Some?
  {
    assert ONE_FIELD.fields[1..] == [];
  }
}
