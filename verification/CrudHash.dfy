/** What a list cursor's fingerprint hashes (datasource/crud.go): one map by key, written
by the tenant fields, the filters and the search in turn. It tells requests apart exactly
when no text filter is declared after a range filter of which it is an end. */
module CrudHash {
  import opened Options
  import opened Keyset
  import opened Sql
  import opened Crud
  import opened CrudList
  import opened CrudPages

  // ----- the input -----

  datatype Json = Null | Text(text: string) | Array(items: seq<Json>) | Other(literal: string)

  type Input = map<string, Json>

  /** decodeCRUDSQLValue and strings.TrimSpace. */
  datatype Reader<V> = Reader(sql: Json -> Cell<V>, trim: string -> string)

  /** An array becomes the text of its JSON, which tells its items. */
  ghost predicate Reads<V(!new)>(reader: Reader<V>) {
    && reader.sql(Null) == None
    && (forall items :: reader.sql(Array(items)).Some?)
    && (forall a, b :: reader.sql(Array(a)) == reader.sql(Array(b)) ==> a == b)
    && reader.trim("") == ""
  }

  predicate IsList(raw: Json) {
    raw.Array? || raw.Null?
  }

  /** decodeCRUDList. */
  function ListOf<V>(reader: Reader<V>, raw: Json): seq<Cell<V>> {
    if raw.Array? then seq(|raw.items|, i requires 0 <= i < |raw.items| => reader.sql(raw.items[i])) else []
  }

  function SearchOf<V>(reader: Reader<V>, input: Input): string {
    reader.trim(if "search" in input && input["search"].Text? then input["search"].text else "")
  }

  predicate TextFilter(spec: Spec, key: string) {
    key in spec.list.filters && FieldOf(spec.fields, key).textual
  }

  /** Every text filter decodes as a list and the search as a string, from one input. */
  ghost predicate Readable(spec: Spec, input: Input) {
    && (forall key :: key in input && TextFilter(spec, key) ==> IsList(input[key]))
    && ("search" in input ==> input["search"].Text? || input["search"].Null?)
  }

  /** What a request asks, as the criteria it is decoded to. */
  function CriteriaOf<V>(reader: Reader<V>, input: Input): Criteria<V> {
    Criteria(
      map key | key in input :: reader.sql(input[key]),
      map key | key in input && IsList(input[key]) :: ListOf(reader, input[key]),
      SearchOf(reader, input))
  }

  // ----- what is hashed -----

  datatype Entry<V> = One(cell: Cell<V>) | Many(cells: seq<Cell<V>>)

  /** A key the list operation may write, and what a request writes there. */
  datatype Slot<V> = Slot(key: string, entry: Option<Entry<V>>)

  function ValueEntry<V>(values: map<string, Cell<V>>, key: string): Option<Entry<V>> {
    if key in values then Some(One(values[key])) else None
  }

  function ListEntry<V>(text: V -> string, lists: map<string, seq<Cell<V>>>, key: string): Option<Entry<V>> {
    if key in lists then Some(Many(Listed(text, lists[key]))) else None
  }

  function TenantSlots<V>(fields: seq<Field>, values: map<string, Cell<V>>): seq<Slot<V>> {
    if fields == [] then []
    else
      (if fields[0].tenantKey then [Slot("tenant." + fields[0].name, ValueEntry(values, fields[0].name))] else []) +
      TenantSlots(fields[1..], values)
  }

  function FilterSlot<V>(text: V -> string, field: Field, criteria: Criteria<V>): seq<Slot<V>> {
    if field.textual then [Slot(field.name, ListEntry(text, criteria.lists, field.name))]
    else
      [Slot(field.name + "_from", ValueEntry(criteria.values, field.name + "_from")),
       Slot(field.name + "_to", ValueEntry(criteria.values, field.name + "_to"))]
  }

  function FilterSlots<V>(text: V -> string, fields: seq<Field>, names: seq<string>, criteria: Criteria<V>): seq<Slot<V>> {
    if names == [] then []
    else
      FilterSlots(text, fields, names[..|names| - 1], criteria) + FilterSlot(text, FieldOf(fields, names[|names| - 1]), criteria)
  }

  function SearchSlot<V(!new)>(db: Db<V>, search: string): Slot<V> {
    Slot("search", if search == "" then None else Some(One(Some(db.quote(search)))))
  }

  /** filterValues, write by write. */
  function Slots<V(!new)>(db: Db<V>, spec: Spec, criteria: Criteria<V>): seq<Slot<V>> {
    TenantSlots(spec.fields, criteria.values) + FilterSlots(db.text, spec.fields, spec.list.filters, criteria) + [SearchSlot(db, criteria.search)]
  }

  /** The map the writes leave: the last one to a key stays. */
  function Hashed<V>(slots: seq<Slot<V>>): map<string, Entry<V>> {
    if slots == [] then map[]
    else
      var before, last := Hashed(slots[..|slots| - 1]), slots[|slots| - 1];
      if last.entry.None? then before else before[last.key := last.entry.value]
  }

  /** What crudQueryFingerprint marshals: the sort, the direction and the map. */
  datatype Content<V> = Content(sort: string, direction: string, filters: map<string, Entry<V>>)

  function ContentOf<V(!new)>(db: Db<V>, spec: Spec, request: Request<V>): Content<V> {
    Content(SortOf(spec, request), DirectionOf(spec, request), Hashed(Slots(db, spec, request.criteria)))
  }

  // ----- the last write to a key -----

  function Over<V>(last: Option<V>, before: Option<V>): Option<V> {
    if last.Some? then last else before
  }

  lemma {:induction false} HashedConcat<V(!new)>(p: seq<Slot<V>>, q: seq<Slot<V>>, key: string)
    ensures Lookup(Hashed(p + q), key) == Over(Lookup(Hashed(q), key), Lookup(Hashed(p), key))
    decreases |q|
  {
    if q == [] {
      assert p + q == p;
    } else {
      assert (p + q)[..|p + q| - 1] == p + q[..|q| - 1];
      HashedConcat(p, q[..|q| - 1], key);
    }
  }

  lemma HashedNone<V(!new)>()
    ensures Hashed<V>([]) == map[]
  {
  }

  lemma HashedOne<V(!new)>(slot: Slot<V>, key: string)
    ensures Lookup(Hashed([slot]), key) == if slot.key == key then slot.entry else None
  {
    assert [slot][..0] == [];
  }

  predicate TenantNamed(fields: seq<Field>, name: string) {
    exists field :: field in fields && field.tenantKey && field.name == name
  }

  lemma {:induction false} TenantHash<V(!new)>(fields: seq<Field>, values: map<string, Cell<V>>, key: string)
    ensures Lookup(Hashed(TenantSlots(fields, values)), key) ==
            if "tenant." <= key && TenantNamed(fields, key[7..]) then ValueEntry(values, key[7..]) else None
  {
    if fields != [] {
      var rest := fields[1..];
      TenantHash(rest, values, key);
      assert "tenant." <= key ==> (TenantNamed(fields, key[7..]) <==> (fields[0].tenantKey && fields[0].name == key[7..]) || TenantNamed(rest, key[7..])) by {
        assert forall field :: field in fields <==> field == fields[0] || field in rest;
      }
      if fields[0].tenantKey {
        var slot := Slot("tenant." + fields[0].name, ValueEntry(values, fields[0].name));
        HashedOne(slot, key);
        HashedConcat([slot], TenantSlots(rest, values), key);
        assert slot.key[7..] == fields[0].name;
        assert "tenant." <= key ==> key == "tenant." + key[7..];
      } else {
        assert TenantSlots(fields, values) == TenantSlots(rest, values);
      }
    }
  }

  /** Which kind of filter writes a key last. */
  datatype Writer = Nobody | ByText | ByRange

  function LastWriter(fields: seq<Field>, names: seq<string>, key: string): Writer {
    if names == [] then Nobody
    else
      var field := FieldOf(fields, names[|names| - 1]);
      if field.textual && field.name == key then ByText
      else if !field.textual && key in [field.name + "_from", field.name + "_to"] then ByRange
      else LastWriter(fields, names[..|names| - 1], key)
  }

  function Written<V>(text: V -> string, criteria: Criteria<V>, writer: Writer, key: string): Option<Entry<V>> {
    match writer
    case Nobody => None
    case ByText => ListEntry(text, criteria.lists, key)
    case ByRange => ValueEntry(criteria.values, key)
  }

  /** A text filter is a list if it is there at all. */
  ghost predicate Coupled<V(!new)>(fields: seq<Field>, names: seq<string>, criteria: Criteria<V>) {
    forall name :: name in names && FieldOf(fields, name).textual ==>
      (FieldOf(fields, name).name in criteria.lists <==> FieldOf(fields, name).name in criteria.values)
  }

  lemma {:induction false} TextWriter<V(!new)>(fields: seq<Field>, names: seq<string>, criteria: Criteria<V>, key: string)
    requires Coupled(fields, names, criteria) && LastWriter(fields, names, key).ByText?
    ensures key in criteria.lists <==> key in criteria.values
  {
    var field := FieldOf(fields, names[|names| - 1]);
    if field.textual && field.name == key {
      assert names[|names| - 1] in names;
    } else {
      TextWriter(fields, names[..|names| - 1], criteria, key);
    }
  }

  lemma {:induction false} FiltersHash<V(!new)>(text: V -> string, fields: seq<Field>, names: seq<string>, criteria: Criteria<V>, key: string)
    requires Coupled(fields, names, criteria)
    ensures Lookup(Hashed(FilterSlots(text, fields, names, criteria)), key) == Written(text, criteria, LastWriter(fields, names, key), key)
  {
    hide Hashed, FilterSlot, Listed, FieldOf;
    if names == [] {
      assert Hashed<V>([]) == map[] by {
        HashedNone<V>();
      }
    } else {
      var rest, field := names[..|names| - 1], FieldOf(fields, names[|names| - 1]);
      assert names[|names| - 1] in names;
      FiltersHash(text, fields, rest, criteria, key);
      FilterHash(text, field, criteria, key);
      HashedConcat(FilterSlots(text, fields, rest, criteria), FilterSlot(text, field, criteria), key);
      if LastWriter(fields, rest, key).ByText? {
        TextWriter(fields, rest, criteria, key);
      }
    }
  }

  lemma FilterHash<V(!new)>(text: V -> string, field: Field, criteria: Criteria<V>, key: string)
    ensures Lookup(Hashed(FilterSlot(text, field, criteria)), key) ==
            if field.textual then if field.name == key then ListEntry(text, criteria.lists, key) else None
            else if key in [field.name + "_from", field.name + "_to"] then ValueEntry(criteria.values, key) else None
  {
    var slots := FilterSlot(text, field, criteria);
    if field.textual {
      HashedOne(slots[0], key);
    } else {
      assert slots == [slots[0]] + [slots[1]];
      HashedOne(slots[0], key);
      HashedOne(slots[1], key);
      HashedConcat([slots[0]], [slots[1]], key);
      assert (field.name + "_from")[|field.name| + 1] == 'f' && (field.name + "_to")[|field.name| + 1] == 't';
    }
  }

  /** What the map holds of a key, of a request decoded from an input. */
  lemma SlotsHash<V(!new)>(db: Db<V>, spec: Spec, criteria: Criteria<V>, key: string)
    requires Coupled(spec.fields, spec.list.filters, criteria)
    ensures Lookup(Hashed(Slots(db, spec, criteria)), key) ==
            Over(if key == "search" then SearchSlot(db, criteria.search).entry else None,
                 Over(Written(db.text, criteria, LastWriter(spec.fields, spec.list.filters, key), key),
                      Lookup(Hashed(TenantSlots(spec.fields, criteria.values)), key)))
  {
    var p, q, s := TenantSlots(spec.fields, criteria.values), FilterSlots(db.text, spec.fields, spec.list.filters, criteria), SearchSlot(db, criteria.search);
    FiltersHash(db.text, spec.fields, spec.list.filters, criteria, key);
    HashedConcat(p, q, key);
    HashedConcat(p + q, [s], key);
    HashedOne(s, key);
  }

  // ----- from the map back to the request -----

  /** Names hold no dot, as identifiers do. */
  ghost predicate Undotted(spec: Spec) {
    forall field :: field in spec.fields ==> '.' !in field.name
  }

  lemma NoDot(key: string)
    requires '.' !in key
    ensures !("tenant." <= key)
  {
    if |key| > 6 {
      assert key[6] in key;
    }
  }

  /** Filters write no key of a tenant field. */
  lemma {:induction false} WrittenUndotted(spec: Spec, names: seq<string>, key: string)
    requires ValidSpec(spec) && Undotted(spec) && (forall name :: name in names ==> name in spec.list.filters)
    requires !LastWriter(spec.fields, names, key).Nobody?
    ensures '.' !in key
  {
    var name := names[|names| - 1];
    FilterNamed(spec, name);
    var field := FieldOf(spec.fields, name);
    if field.textual && field.name == key {
    } else if !field.textual && key in [field.name + "_from", field.name + "_to"] {
      assert forall c :: c in key ==> c in field.name || c in "_from" || c in "_to";
    } else {
      WrittenUndotted(spec, names[..|names| - 1], key);
    }
  }

  lemma FilterNamed(spec: Spec, name: string)
    requires ValidSpec(spec) && name in spec.list.filters
    ensures FieldOf(spec.fields, name) in spec.fields && FieldOf(spec.fields, name).name == name
  {
    assert name in spec.list.filters + spec.list.search + spec.list.sorts;
    FieldOfNamed(spec.fields, name);
  }

  /** A filter writes its keys. */
  lemma {:induction false} FilterWrites(fields: seq<Field>, names: seq<string>, name: string, key: string)
    requires name in names
    requires var field := FieldOf(fields, name);
             if field.textual then field.name == key else key in [field.name + "_from", field.name + "_to"]
    ensures !LastWriter(fields, names, key).Nobody?
  {
    if names[|names| - 1] != name {
      FilterWrites(fields, names[..|names| - 1], name, key);
    }
  }

  /** A text filter that writes a key is the filter of that name. */
  lemma {:induction false} TextIsFilter(spec: Spec, names: seq<string>, key: string)
    requires ValidSpec(spec) && (forall name :: name in names ==> name in spec.list.filters)
    requires LastWriter(spec.fields, names, key).ByText?
    ensures TextFilter(spec, key)
  {
    var name := names[|names| - 1];
    FilterNamed(spec, name);
    var field := FieldOf(spec.fields, name);
    if !(field.textual && field.name == key) {
      TextIsFilter(spec, names[..|names| - 1], key);
    }
  }

  lemma CriteriaCoupled<V(!new)>(reader: Reader<V>, spec: Spec, input: Input)
    requires ValidSpec(spec) && Readable(spec, input)
    ensures Coupled(spec.fields, spec.list.filters, CriteriaOf(reader, input))
  {
    forall name | name in spec.list.filters && FieldOf(spec.fields, name).textual
      ensures name in CriteriaOf(reader, input).lists <==> name in CriteriaOf(reader, input).values
      ensures FieldOf(spec.fields, name).name == name
    {
      FilterNamed(spec, name);
      assert TextFilter(spec, name);
    }
  }

  /** The end of a range filter, a key that a text filter writes after it, and no tenant
      field tells. */
  ghost predicate Masked(spec: Spec, range: string, key: string) {
    && range in spec.list.filters && !FieldOf(spec.fields, range).textual && key in [range + "_from", range + "_to"]
    && LastWriter(spec.fields, spec.list.filters, key).ByText?
    && !TenantNamed(spec.fields, key)
  }

  /** Two inputs and what they are decoded to, hashed alike. */
  ghost predicate Alike<V(!new)>(db: Db<V>, reader: Reader<V>, spec: Spec, a: Input, b: Input) {
    && Sensible(db) && Reads(reader) && ValidSpec(spec) && Undotted(spec) && Readable(spec, a) && Readable(spec, b)
    && Hashed(Slots(db, spec, CriteriaOf(reader, a))) == Hashed(Slots(db, spec, CriteriaOf(reader, b)))
  }

  lemma SlotsAlike<V(!new)>(db: Db<V>, reader: Reader<V>, spec: Spec, a: Input, b: Input, key: string)
    requires Alike(db, reader, spec, a, b)
    ensures var x, y, writer := CriteriaOf(reader, a), CriteriaOf(reader, b), LastWriter(spec.fields, spec.list.filters, key);
            && ("tenant." <= key && TenantNamed(spec.fields, key[7..]) ==> ValueEntry(x.values, key[7..]) == ValueEntry(y.values, key[7..]))
            && ('.' !in key && key != "search" ==> Written(db.text, x, writer, key) == Written(db.text, y, writer, key))
            && (key == "search" ==> Over(SearchSlot(db, x.search).entry, Written(db.text, x, writer, key)) ==
                                    Over(SearchSlot(db, y.search).entry, Written(db.text, y, writer, key)))
  {
    hide Hashed, Slots, TenantSlots, Sensible, Reads, ValidSpec, Readable;
    var x, y := CriteriaOf(reader, a), CriteriaOf(reader, b);
    CriteriaCoupled(reader, spec, a);
    CriteriaCoupled(reader, spec, b);
    SlotsHash(db, spec, x, key);
    SlotsHash(db, spec, y, key);
    TenantHash(spec.fields, x.values, key);
    TenantHash(spec.fields, y.values, key);
    if '.' !in key {
      NoDot(key);
    } else if !LastWriter(spec.fields, spec.list.filters, key).Nobody? {
      WrittenUndotted(spec, spec.list.filters, key);
    }
  }

  lemma TenantTold<V(!new)>(db: Db<V>, reader: Reader<V>, spec: Spec, a: Input, b: Input, name: string)
    requires Alike(db, reader, spec, a, b) && TenantNamed(spec.fields, name)
    ensures Lookup(CriteriaOf(reader, a).values, name) == Lookup(CriteriaOf(reader, b).values, name)
  {
    var key := "tenant." + name;
    assert "tenant." <= key && key[7..] == name;
    SlotsAlike(db, reader, spec, a, b, key);
  }

  /** A search and a text filter of that name are never both given. */
  lemma SearchTold<V(!new)>(db: Db<V>, reader: Reader<V>, spec: Spec, a: Input, b: Input)
    requires Alike(db, reader, spec, a, b)
    ensures CriteriaOf(reader, a).search == CriteriaOf(reader, b).search
    ensures TextFilter(spec, "search") ==> CriteriaOf(reader, a).search == ""
  {
    var x, y, writer := CriteriaOf(reader, a), CriteriaOf(reader, b), LastWriter(spec.fields, spec.list.filters, "search");
    SlotsAlike(db, reader, spec, a, b, "search");
    if writer.ByText? {
      TextIsFilter(spec, spec.list.filters, "search");
    } else if writer.ByRange? {
      NoRange(spec.fields, spec.list.filters);
    }
    assert db.text(db.quote(x.search)) == x.search && db.text(db.quote(y.search)) == y.search;
  }

  lemma {:induction false} NoRange(fields: seq<Field>, names: seq<string>)
    ensures !LastWriter(fields, names, "search").ByRange?
  {
    if names != [] {
      NoRange(fields, names[..|names| - 1]);
      NotSearch(FieldOf(fields, names[|names| - 1]).name);
    }
  }

  lemma NotSearch(name: string)
    ensures name + "_from" != "search" && name + "_to" != "search"
  {
    var from, to := name + "_from", name + "_to";
    assert from[|from| - 1] == 'm' && to[|to| - 1] == 'o' && "search"[5] == 'h';
  }

  /** What a text filter holds is told, also where a range filter writes its key last. */
  lemma TextTold<V(!new)>(db: Db<V>, reader: Reader<V>, spec: Spec, a: Input, b: Input, key: string)
    requires Alike(db, reader, spec, a, b) && TextFilter(spec, key)
    ensures ListEntry(db.text, CriteriaOf(reader, a).lists, key) == ListEntry(db.text, CriteriaOf(reader, b).lists, key)
  {
    FilterNamed(spec, key);
    FilterWrites(spec.fields, spec.list.filters, key, key);
    SlotsAlike(db, reader, spec, a, b, key);
    if key == "search" {
      SearchTold(db, reader, spec, a, b);
      NoRange(spec.fields, spec.list.filters);
    } else if LastWriter(spec.fields, spec.list.filters, key).ByRange? {
      RawTold(reader, spec, a, b, key);
    }
  }

  /** The SQL value of a list tells the list. */
  lemma RawTold<V(!new)>(reader: Reader<V>, spec: Spec, a: Input, b: Input, key: string)
    requires Reads(reader) && Readable(spec, a) && Readable(spec, b) && TextFilter(spec, key)
    requires ValueEntry(CriteriaOf(reader, a).values, key) == ValueEntry(CriteriaOf(reader, b).values, key)
    ensures Lookup(CriteriaOf(reader, a).lists, key) == Lookup(CriteriaOf(reader, b).lists, key)
  {
    assert key in a <==> key in b;
    if key in a {
      assert reader.sql(a[key]) == reader.sql(b[key]) && IsList(a[key]) && IsList(b[key]);
    }
  }

  lemma RangeTold<V(!new)>(db: Db<V>, reader: Reader<V>, spec: Spec, a: Input, b: Input, range: string, key: string)
    requires Alike(db, reader, spec, a, b) && !Masked(spec, range, key)
    requires range in spec.list.filters && !FieldOf(spec.fields, range).textual && key in [range + "_from", range + "_to"]
    ensures ValueEntry(CriteriaOf(reader, a).values, key) == ValueEntry(CriteriaOf(reader, b).values, key)
  {
    FilterNamed(spec, range);
    FilterWrites(spec.fields, spec.list.filters, range, key);
    WrittenUndotted(spec, spec.list.filters, key);
    NotSearch(range);
    SlotsAlike(db, reader, spec, a, b, key);
    if LastWriter(spec.fields, spec.list.filters, key).ByText? {
      TenantTold(db, reader, spec, a, b, key);
    }
  }

  lemma HeldTold<V(!new)>(db: Db<V>, reader: Reader<V>, spec: Spec, a: Input, b: Input, name: string)
    requires ValidSpec(spec) && Alike(db, reader, spec, a, b) && name in spec.list.filters
    requires forall range, key :: !Masked(spec, range, key)
    ensures HeldBy(db.text, FieldOf(spec.fields, name), CriteriaOf(reader, a)) == HeldBy(db.text, FieldOf(spec.fields, name), CriteriaOf(reader, b))
  {
    hide Alike, Masked, ValidSpec, CriteriaOf, Listed;
    FilterNamed(spec, name);
    if FieldOf(spec.fields, name).textual {
      TextTold(db, reader, spec, a, b, name);
    } else {
      RangeTold(db, reader, spec, a, b, name, name + "_from");
      RangeTold(db, reader, spec, a, b, name, name + "_to");
    }
  }

  lemma {:induction false} FiltersTold<V(!new)>(text: V -> string, fields: seq<Field>, names: seq<string>, x: Criteria<V>, y: Criteria<V>)
    requires forall name :: name in names ==> HeldBy(text, FieldOf(fields, name), x) == HeldBy(text, FieldOf(fields, name), y)
    ensures FilterValues(text, fields, names, x) == FilterValues(text, fields, names, y)
  {
    if names != [] {
      FiltersTold(text, fields, names[..|names| - 1], x, y);
      assert names[|names| - 1] in names;
    }
  }

  lemma {:induction false} TenantsTold<V(!new)>(fields: seq<Field>, x: map<string, Cell<V>>, y: map<string, Cell<V>>)
    requires forall field :: field in fields && field.tenantKey ==> Lookup(x, field.name) == Lookup(y, field.name)
    ensures TenantValues(fields, x) == TenantValues(fields, y)
  {
    if fields != [] {
      TenantsTold(fields[1..], x, y);
      assert fields[0] in fields;
    }
  }

  // ----- exactly when the map tells requests apart -----

  /** An input with the sort and the direction it asks for. */
  datatype Asked = Asked(input: Input, sort: string, direction: string)

  function RequestOf<V>(reader: Reader<V>, asked: Asked): Request<V> {
    Request(CriteriaOf(reader, asked.input), asked.sort, asked.direction, None, None)
  }

  /** The request is decoded, and its first page is queried. */
  ghost predicate Taken<V(!new)>(db: Db<V>, reader: Reader<V>, spec: Spec, asked: Asked) {
    Readable(spec, asked.input) && ListQuery(db, spec, RequestOf(reader, asked)).Run?
  }

  ghost predicate SameContent<V(!new)>(db: Db<V>, reader: Reader<V>, spec: Spec, a: Asked, b: Asked) {
    && Taken(db, reader, spec, a) && Taken(db, reader, spec, b)
    && ContentOf(db, spec, RequestOf(reader, a)) == ContentOf(db, spec, RequestOf(reader, b))
  }

  ghost predicate SameFingerprint<V(!new)>(db: Db<V>, reader: Reader<V>, spec: Spec, a: Asked, b: Asked) {
    FingerprintOf(db.text, spec, RequestOf(reader, a)) == FingerprintOf(db.text, spec, RequestOf(reader, b))
  }

  /** Where no range filter is masked, what is hashed fixes the fingerprint, and so the rows
      a request means. */
  lemma HashFixesMeaning<V(!new)>(db: Db<V>, reader: Reader<V>, spec: Spec, a: Asked, b: Asked, row: Row<V>)
    requires Sensible(db) && Reads(reader) && ValidSpec(spec) && Undotted(spec) && SameContent(db, reader, spec, a, b)
    requires forall range, key :: !Masked(spec, range, key)
    ensures SameFingerprint(db, reader, spec, a, b)
    ensures Intended(db, spec, CriteriaOf(reader, a.input), row) <==> Intended(db, spec, CriteriaOf(reader, b.input), row)
  {
    var x, y := CriteriaOf(reader, a.input), CriteriaOf(reader, b.input);
    assert Alike(db, reader, spec, a.input, b.input);
    forall field | field in spec.fields && field.tenantKey
      ensures Lookup(x.values, field.name) == Lookup(y.values, field.name)
    {
      TenantTold(db, reader, spec, a.input, b.input, field.name);
    }
    TenantsTold(spec.fields, x.values, y.values);
    forall name | name in spec.list.filters
      ensures HeldBy(db.text, FieldOf(spec.fields, name), x) == HeldBy(db.text, FieldOf(spec.fields, name), y)
    {
      HeldTold(db, reader, spec, a.input, b.input, name);
    }
    FiltersTold(db.text, spec.fields, spec.list.filters, x, y);
    SearchTold(db, reader, spec, a.input, b.input);
    FingerprintFixesMeaning(db, spec, RequestOf(reader, a), RequestOf(reader, b), row);
  }

  /** Every tenant field given, as null. */
  function Tenants(fields: seq<Field>): Input {
    map field | field in fields && field.tenantKey :: field.name := Null
  }

  /** A request that gives the tenant fields and, under one key, a list. */
  function Given(spec: Spec, key: string, items: seq<Json>): Asked {
    Asked(Tenants(spec.fields)[key := Array(items)], "", "")
  }

  lemma {:induction false} WhereRuns<V(!new)>(fields: seq<Field>, values: map<string, Cell<V>>, start: nat)
    requires forall field :: field in fields && field.tenantKey ==> field.name in values
    ensures WhereFrom(fields, values, start, TenantScope).Some?
  {
    if fields != [] {
      assert fields[0] in fields;
      WhereRuns(fields[1..], values, start);
      WhereRuns(fields[1..], values, start + 1);
    }
  }

  lemma GivenReadable<V(!new)>(reader: Reader<V>, spec: Spec, key: string, items: seq<Json>)
    requires Reads(reader) && key != "search"
    ensures Readable(spec, Given(spec, key, items).input) && SearchOf(reader, Given(spec, key, items).input) == ""
  {
  }

  lemma GivenTaken<V(!new)>(db: Db<V>, reader: Reader<V>, spec: Spec, key: string, items: seq<Json>)
    requires Reads(reader) && ValidSpec(spec) && key != "search"
    ensures Taken(db, reader, spec, Given(spec, key, items))
  {
    hide WhereFrom, Filters, FingerprintOf, Order, Readable, SearchOf, Reads;
    var asked := Given(spec, key, items);
    var request := RequestOf(reader, asked);
    GivenReadable(reader, spec, key, items);
    forall field | field in spec.fields && field.tenantKey
      ensures field.name in request.criteria.values
    {
      assert field.name in Tenants(spec.fields);
    }
    WhereRuns(spec.fields, request.criteria.values, 1);
    assert BaseClause(db, spec, request.criteria).Some?;
    assert Allowed(spec, request);
  }

  /** One value and the same value twice are one value of a list, but two texts. */
  lemma TwiceIsListedOnce<V(!new)>(text: V -> string, cell: Cell<V>)
    ensures Listed(text, [cell, cell]) == Listed(text, [cell])
  {
    assert [cell, cell][1..] == [cell] && [cell][1..] == [];
    assert Arranged(text, [cell]) == [cell];
    assert Arranged(text, [cell, cell]) == Place(text, cell, [cell]);
    Unpreceded(Show(text, cell));
    assert Arranged(text, [cell, cell]) == [cell, cell];
    assert [cell, cell][..1] == [cell];
  }

  lemma {:induction false} Unpreceded(text: string)
    ensures !Precedes(text, text)
  {
    if text != "" {
      Unpreceded(text[1..]);
    }
  }

  /** A masked end of a range: two requests that differ in it are hashed alike. */
  lemma MaskedIsLost<V(!new)>(db: Db<V>, reader: Reader<V>, spec: Spec, range: string, key: string, item: Json)
    requires Reads(reader) && ValidSpec(spec) && Undotted(spec) && Masked(spec, range, key)
    ensures var a, b := Given(spec, key, [item]), Given(spec, key, [item, item]);
            SameContent(db, reader, spec, a, b) && !SameFingerprint(db, reader, spec, a, b)
  {
    hide Reads, ValidSpec, Taken, CriteriaOf, Hashed, Slots, FilterValues, HeldBy, LastWriter, TenantNamed, TenantValues;
    var a, b := Given(spec, key, [item]), Given(spec, key, [item, item]);
    NotSearch(range);
    WrittenUndotted(spec, spec.list.filters, key);
    GivenTaken(db, reader, spec, key, [item]);
    GivenTaken(db, reader, spec, key, [item, item]);
    MaskedContent(db, reader, spec, key, item);
    RangesDiffer(db.text, reader, spec, range, key, item);
    FiltersDiffer(db.text, spec.fields, spec.list.filters, CriteriaOf(reader, a.input), CriteriaOf(reader, b.input), range);
  }

  /** The array of one item and that of two are different values of the range. */
  lemma RangesDiffer<V(!new)>(text: V -> string, reader: Reader<V>, spec: Spec, range: string, key: string, item: Json)
    requires Reads(reader) && ValidSpec(spec) && Masked(spec, range, key)
    ensures var x, y := CriteriaOf(reader, Given(spec, key, [item]).input), CriteriaOf(reader, Given(spec, key, [item, item]).input);
            HeldBy(text, FieldOf(spec.fields, range), x) != HeldBy(text, FieldOf(spec.fields, range), y)
  {
    var x, y := CriteriaOf(reader, Given(spec, key, [item]).input), CriteriaOf(reader, Given(spec, key, [item, item]).input);
    FilterNamed(spec, range);
    assert [item] != [item, item];
    assert x.values[key] != y.values[key];
  }

  lemma {:induction false} FiltersDiffer<V(!new)>(text: V -> string, fields: seq<Field>, names: seq<string>, x: Criteria<V>, y: Criteria<V>, name: string)
    requires name in names && HeldBy(text, FieldOf(fields, name), x) != HeldBy(text, FieldOf(fields, name), y)
    ensures FilterValues(text, fields, names, x) != FilterValues(text, fields, names, y)
  {
    var p, q := FilterValues(text, fields, names, x), FilterValues(text, fields, names, y);
    if p == q {
      assert p[..|p| - 1] == FilterValues(text, fields, names[..|names| - 1], x) && q[..|q| - 1] == FilterValues(text, fields, names[..|names| - 1], y);
      assert p[|p| - 1] == q[|q| - 1];
      FiltersDiffer(text, fields, names[..|names| - 1], x, y, name);
    }
  }

  lemma MaskedContent<V(!new)>(db: Db<V>, reader: Reader<V>, spec: Spec, key: string, item: Json)
    requires Reads(reader) && ValidSpec(spec) && key != "search" && '.' !in key
    requires LastWriter(spec.fields, spec.list.filters, key).ByText? && !TenantNamed(spec.fields, key)
    ensures var x, y := CriteriaOf(reader, Given(spec, key, [item]).input), CriteriaOf(reader, Given(spec, key, [item, item]).input);
            Hashed(Slots(db, spec, x)) == Hashed(Slots(db, spec, y))
  {
    hide Hashed, Slots, CriteriaOf, Given, Reads, ValidSpec, LastWriter, TenantNamed, Coupled;
    var a, b := Given(spec, key, [item]), Given(spec, key, [item, item]);
    var x, y := CriteriaOf(reader, a.input), CriteriaOf(reader, b.input);
    GivenCoupled(reader, spec, key, [item]);
    GivenCoupled(reader, spec, key, [item, item]);
    var p, q := Hashed(Slots(db, spec, x)), Hashed(Slots(db, spec, y));
    forall other: string
      ensures Lookup(p, other) == Lookup(q, other)
    {
      LookupAlike(db, reader, spec, key, item, other);
    }
    SameLookups(p, q);
  }

  lemma GivenCoupled<V(!new)>(reader: Reader<V>, spec: Spec, key: string, items: seq<Json>)
    requires Reads(reader) && ValidSpec(spec) && key != "search"
    ensures Coupled(spec.fields, spec.list.filters, CriteriaOf(reader, Given(spec, key, items).input))
  {
    hide Reads, ValidSpec, Readable, Coupled, Given, CriteriaOf;
    GivenReadable(reader, spec, key, items);
    CriteriaCoupled(reader, spec, Given(spec, key, items).input);
  }

  lemma LookupAlike<V(!new)>(db: Db<V>, reader: Reader<V>, spec: Spec, key: string, item: Json, other: string)
    requires LastWriter(spec.fields, spec.list.filters, key).ByText? && !TenantNamed(spec.fields, key)
    requires Coupled(spec.fields, spec.list.filters, CriteriaOf(reader, Given(spec, key, [item]).input))
    requires Coupled(spec.fields, spec.list.filters, CriteriaOf(reader, Given(spec, key, [item, item]).input))
    ensures var x, y := CriteriaOf(reader, Given(spec, key, [item]).input), CriteriaOf(reader, Given(spec, key, [item, item]).input);
            Lookup(Hashed(Slots(db, spec, x)), other) == Lookup(Hashed(Slots(db, spec, y)), other)
  {
    hide Hashed, Slots, TenantSlots, CriteriaOf, Given, LastWriter, TenantNamed, Coupled, Listed;
    var x, y := CriteriaOf(reader, Given(spec, key, [item]).input), CriteriaOf(reader, Given(spec, key, [item, item]).input);
    SlotsHash(db, spec, x, other);
    SlotsHash(db, spec, y, other);
    TenantHash(spec.fields, x.values, other);
    TenantHash(spec.fields, y.values, other);
    KeyAlike(db.text, reader, spec, key, item, other);
    if "tenant." <= other {
      KeyAlike(db.text, reader, spec, key, item, other[7..]);
    }
  }

  lemma KeyAlike<V(!new)>(text: V -> string, reader: Reader<V>, spec: Spec, key: string, item: Json, other: string)
    ensures var x, y := CriteriaOf(reader, Given(spec, key, [item]).input), CriteriaOf(reader, Given(spec, key, [item, item]).input);
            && ListEntry(text, x.lists, other) == ListEntry(text, y.lists, other)
            && (other != key ==> ValueEntry(x.values, other) == ValueEntry(y.values, other))
            && x.search == y.search
  {
    TwiceIsListedOnce(text, reader.sql(item));
    assert ListOf(reader, Array([item])) == [reader.sql(item)];
    assert ListOf(reader, Array([item, item])) == [reader.sql(item), reader.sql(item)];
  }

  lemma SameLookups<T>(p: map<string, T>, q: map<string, T>)
    requires forall key :: Lookup(p, key) == Lookup(q, key)
    ensures p == q
  {
    forall key
      ensures key in p <==> key in q
      ensures key in p ==> p[key] == q[key]
    {
      assert Lookup(p, key) == Lookup(q, key);
    }
  }

  /** What is hashed tells the requests of a spec apart as their fingerprints do if and only
      if no range filter is masked. */
  lemma HashTellsIff<V(!new)>(db: Db<V>, reader: Reader<V>, spec: Spec)
    requires Sensible(db) && Reads(reader) && ValidSpec(spec) && Undotted(spec)
    ensures (forall a, b :: SameContent(db, reader, spec, a, b) ==> SameFingerprint(db, reader, spec, a, b)) <==>
            (forall range, key :: !Masked(spec, range, key))
  {
    hide SameContent, SameFingerprint, Masked, Sensible, Reads, ValidSpec;
    if forall range, key :: !Masked(spec, range, key) {
      forall a, b | SameContent(db, reader, spec, a, b)
        ensures SameFingerprint(db, reader, spec, a, b)
      {
        HashFixesMeaning(db, reader, spec, a, b, map[]);
      }
    } else {
      var range, key :| Masked(spec, range, key);
      MaskedIsLost(db, reader, spec, range, key, Text("a"));
    }
  }
}
