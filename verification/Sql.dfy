/** The SQL the CRUD data source builds (datasource/crud.go), as expressions over
numbered placeholders, with SQL's three-valued meaning. */
module Sql {
  import opened Options
  import opened Keyset
  import Like

  /** A truth value of SQL: a comparison with NULL is neither. */
  datatype Tri = Yes | No | Maybe

  /** What the expressions depend on of a database: the order of its values, the
      text of a value, the value of a text and the lowering of characters. */
  datatype Db<!V(!new)> = Db(lt: (V, V) -> bool, text: V -> string, quote: string -> V, lower: char -> char)

  ghost predicate Sensible<V(!new)>(db: Db<V>) {
    StrictTotal(db.lt) && (forall s :: db.text(db.quote(s)) == s) && Like.Plain(db.lower)
  }

  /** A query argument: a value, or the number of rows a page asks for. */
  datatype Arg<V> = Datum(cell: Cell<V>) | Count(n: int)

  datatype Expr =
    | Equal(column: string, ph: nat)
    | AtLeast(column: string, ph: nat)
    | AtMost(column: string, ph: nat)
    | NotDistinct(column: string, ph: nat)
    | Greater(column: string, ph: nat)
    | Less(column: string, ph: nat)
    | IsNull(column: string)
    | Search(column: string, ph: nat)
    | In(column: string, phs: seq<nat>)
    | All(parts: seq<Expr>)
    | Any(parts: seq<Expr>)
    | Never

  /** The value placeholder $ph denotes. */
  function Value<V>(args: seq<Arg<V>>, ph: nat): Cell<V> {
    if 1 <= ph <= |args| && args[ph - 1].Datum? then args[ph - 1].cell else None
  }

  function Compare<V>(a: Cell<V>, b: Cell<V>, test: (V, V) -> bool): Tri {
    if a.None? || b.None? then Maybe else if test(a.value, b.value) then Yes else No
  }

  function Truth(b: bool): Tri {
    if b then Yes else No
  }

  function And(a: Tri, b: Tri): Tri {
    if a == No || b == No then No else if a == Yes && b == Yes then Yes else Maybe
  }

  function Or(a: Tri, b: Tri): Tri {
    if a == Yes || b == Yes then Yes else if a == No && b == No then No else Maybe
  }

  function Eval<V(==, !new)>(db: Db<V>, args: seq<Arg<V>>, row: Row<V>, e: Expr): Tri
    decreases e, 1
  {
    match e
    case Equal(column, ph) => Compare(CellOf(row, column), Value(args, ph), (a, b) => a == b)
    case AtLeast(column, ph) => Compare(CellOf(row, column), Value(args, ph), (a, b) => !db.lt(a, b))
    case AtMost(column, ph) => Compare(CellOf(row, column), Value(args, ph), (a, b) => !db.lt(b, a))
    case Greater(column, ph) => Compare(CellOf(row, column), Value(args, ph), (a, b) => db.lt(b, a))
    case Less(column, ph) => Compare(CellOf(row, column), Value(args, ph), (a, b) => db.lt(a, b))
    case NotDistinct(column, ph) => Truth(CellOf(row, column) == Value(args, ph))
    case IsNull(column) => Truth(CellOf(row, column).None?)
    case Search(column, ph) =>
      Compare(CellOf(row, column), Value(args, ph), (a, b) => Like.Matches(Like.Lower(db.lower, db.text(a)), Like.Lower(db.lower, db.text(b))))
    case In(column, phs) => EvalIn(args, CellOf(row, column), phs)
    case All(parts) => EvalAll(db, args, row, parts)
    case Any(parts) => EvalAny(db, args, row, parts)
    case Never => No
  }

  function EvalIn<V(==)>(args: seq<Arg<V>>, cell: Cell<V>, phs: seq<nat>): Tri {
    if phs == [] then No else Or(Compare(cell, Value(args, phs[0]), (a, b) => a == b), EvalIn(args, cell, phs[1..]))
  }

  function EvalAll<V(==, !new)>(db: Db<V>, args: seq<Arg<V>>, row: Row<V>, parts: seq<Expr>): Tri
    decreases parts, 0
  {
    if parts == [] then Yes else And(Eval(db, args, row, parts[0]), EvalAll(db, args, row, parts[1..]))
  }

  function EvalAny<V(==, !new)>(db: Db<V>, args: seq<Arg<V>>, row: Row<V>, parts: seq<Expr>): Tri
    decreases parts, 0
  {
    if parts == [] then No else Or(Eval(db, args, row, parts[0]), EvalAny(db, args, row, parts[1..]))
  }

  /** A row a WHERE lets through. */
  predicate Holds<V(==, !new)>(db: Db<V>, args: seq<Arg<V>>, row: Row<V>, e: Expr) {
    Eval(db, args, row, e) == Yes
  }

  predicate AllHold<V(==, !new)>(db: Db<V>, args: seq<Arg<V>>, row: Row<V>, parts: seq<Expr>) {
    EvalAll(db, args, row, parts) == Yes
  }

  predicate AnyHolds<V(==, !new)>(db: Db<V>, args: seq<Arg<V>>, row: Row<V>, parts: seq<Expr>) {
    EvalAny(db, args, row, parts) == Yes
  }

  lemma {:induction false} AllConcat<V(!new)>(db: Db<V>, args: seq<Arg<V>>, row: Row<V>, a: seq<Expr>, b: seq<Expr>)
    ensures AllHold(db, args, row, a + b) <==> AllHold(db, args, row, a) && AllHold(db, args, row, b)
  {
    if a == [] {
      assert a + b == b;
    } else {
      assert (a + b)[1..] == a[1..] + b;
      AllConcat(db, args, row, a[1..], b);
    }
  }

  lemma AllOfNone<V(!new)>(db: Db<V>, args: seq<Arg<V>>, row: Row<V>)
    ensures AllHold(db, args, row, [])
  {
  }

  lemma AllOne<V(!new)>(db: Db<V>, args: seq<Arg<V>>, row: Row<V>, e: Expr)
    ensures AllHold(db, args, row, [e]) <==> Holds(db, args, row, e)
  {
    assert [e][1..] == [];
    assert EvalAll(db, args, row, [e]) == And(Eval(db, args, row, e), EvalAll(db, args, row, []));
  }

  lemma {:induction false} AnyConcat<V(!new)>(db: Db<V>, args: seq<Arg<V>>, row: Row<V>, a: seq<Expr>, b: seq<Expr>)
    ensures AnyHolds(db, args, row, a + b) <==> AnyHolds(db, args, row, a) || AnyHolds(db, args, row, b)
  {
    if a == [] {
      assert a + b == b;
    } else {
      assert (a + b)[1..] == a[1..] + b;
      AnyConcat(db, args, row, a[1..], b);
    }
  }

  lemma AnyOne<V(!new)>(db: Db<V>, args: seq<Arg<V>>, row: Row<V>, e: Expr)
    ensures AnyHolds(db, args, row, [e]) <==> Holds(db, args, row, e)
  {
    assert [e][1..] == [];
    assert EvalAny(db, args, row, [e]) == Or(Eval(db, args, row, e), EvalAny(db, args, row, []));
  }

  // ----- arguments -----

  function Data<V>(cells: seq<Cell<V>>): (args: seq<Arg<V>>)
    ensures |args| == |cells|
    ensures forall i :: 0 <= i < |args| ==> args[i] == Datum(cells[i])
  {
    seq(|cells|, i requires 0 <= i < |cells| => Datum(cells[i]))
  }

  /** `args` passes `cells` from placeholder $start on. */
  predicate Passes<V(==)>(args: seq<Arg<V>>, start: nat, cells: seq<Cell<V>>)
    decreases cells
  {
    && 1 <= start <= |args| + 1
    && (cells != [] ==> start <= |args| && args[start - 1] == Datum(cells[0]) && Passes(args, start + 1, cells[1..]))
  }

  lemma {:induction false} PassesAt<V>(args: seq<Arg<V>>, start: nat, cells: seq<Cell<V>>, i: nat)
    requires Passes(args, start, cells) && i < |cells|
    ensures Value(args, start + i) == cells[i]
    decreases cells
  {
    if i > 0 {
      PassesAt(args, start + 1, cells[1..], i - 1);
    }
  }

  lemma {:induction false} PassesParts<V>(args: seq<Arg<V>>, start: nat, a: seq<Cell<V>>, b: seq<Cell<V>>)
    requires Passes(args, start, a + b)
    ensures Passes(args, start, a) && Passes(args, start + |a|, b)
    decreases a
  {
    if a == [] {
      assert a + b == b;
    } else {
      assert (a + b)[1..] == a[1..] + b;
      PassesParts(args, start + 1, a[1..], b);
    }
  }

  lemma {:induction false} PassesData<V>(args: seq<Arg<V>>, start: nat, cells: seq<Cell<V>>)
    requires 1 <= start && start - 1 + |cells| <= |args|
    requires forall i :: 0 <= i < |cells| ==> args[start - 1 + i] == Datum(cells[i])
    ensures Passes(args, start, cells)
    decreases cells
  {
    if cells != [] {
      assert args[start - 1 + 0] == Datum(cells[0]);
      forall i | 0 <= i < |cells| - 1
        ensures args[start + i] == Datum(cells[1..][i])
      {
        assert args[start - 1 + (i + 1)] == Datum(cells[i + 1]);
      }
      PassesData(args, start + 1, cells[1..]);
    }
  }
}
