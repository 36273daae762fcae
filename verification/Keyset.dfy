/** The order of a CRUD listing (datasource/crud.go): cells, NULLS LAST, and keys,
column by column. */
module Keyset {
  import opened Options
  import Paging

  /** A column value, or SQL NULL. */
  type Cell<V> = Option<V>

  type Row<V> = map<string, Cell<V>>

  /** A column domain: the database's own order on its values. */
  ghost predicate StrictTotal<V(!new)>(lt: (V, V) -> bool) {
    && (forall a :: !lt(a, a))
    && (forall a, b, c :: lt(a, b) && lt(b, c) ==> lt(a, c))
    && (forall a, b :: a == b || lt(a, b) || lt(b, a))
  }

  /** One column of ORDER BY: strictly before, ascending or descending, with NULLS LAST. */
  predicate CellBefore<V>(lt: (V, V) -> bool, desc: bool, a: Cell<V>, b: Cell<V>) {
    a.Some? && (b.None? || (if desc then lt(b.value, a.value) else lt(a.value, b.value)))
  }

  /** ORDER BY over several columns: lexicographic. */
  predicate Before<V(==)>(lt: (V, V) -> bool, desc: bool, a: seq<Cell<V>>, b: seq<Cell<V>>) {
    && |a| == |b| && a != []
    && (CellBefore(lt, desc, a[0], b[0]) || (a[0] == b[0] && Before(lt, desc, a[1..], b[1..])))
  }

  lemma {:induction false} BeforeIrreflexive<V(!new)>(lt: (V, V) -> bool, desc: bool, a: seq<Cell<V>>)
    requires StrictTotal(lt)
    ensures !Before(lt, desc, a, a)
  {
    if a != [] {
      BeforeIrreflexive(lt, desc, a[1..]);
    }
  }

  lemma {:induction false} BeforeTransitive<V(!new)>(lt: (V, V) -> bool, desc: bool, a: seq<Cell<V>>, b: seq<Cell<V>>, c: seq<Cell<V>>)
    requires StrictTotal(lt) && Before(lt, desc, a, b) && Before(lt, desc, b, c)
    ensures Before(lt, desc, a, c)
  {
    if a[0] == b[0] == c[0] {
      if !CellBefore(lt, desc, a[0], b[0]) && !CellBefore(lt, desc, b[0], c[0]) {
        BeforeTransitive(lt, desc, a[1..], b[1..], c[1..]);
      }
    }
  }

  lemma {:induction false} BeforeTotal<V(!new)>(lt: (V, V) -> bool, desc: bool, a: seq<Cell<V>>, b: seq<Cell<V>>)
    requires StrictTotal(lt) && |a| == |b|
    ensures a == b || Before(lt, desc, a, b) || Before(lt, desc, b, a)
  {
    if a != [] && a[0] == b[0] {
      BeforeTotal(lt, desc, a[1..], b[1..]);
      assert a == [a[0]] + a[1..] && b == [b[0]] + b[1..];
    }
  }

  /** Where a tuple stands relative to a cursor, column by column: the form the
      cursor's SQL clause tests. */
  lemma {:induction false} BeforeByColumn<V(!new)>(lt: (V, V) -> bool, desc: bool, a: seq<Cell<V>>, b: seq<Cell<V>>)
    requires |a| == |b|
    ensures Before(lt, desc, a, b) <==> exists i :: 0 <= i < |a| && Differs(lt, desc, a, b, i)
  {
    if a != [] {
      BeforeByColumn(lt, desc, a[1..], b[1..]);
      if Before(lt, desc, a, b) {
        if CellBefore(lt, desc, a[0], b[0]) {
          assert Differs(lt, desc, a, b, 0);
        } else {
          var i :| 0 <= i < |a[1..]| && Differs(lt, desc, a[1..], b[1..], i);
          assert a[..i + 1] == [a[0]] + a[1..][..i] && b[..i + 1] == [b[0]] + b[1..][..i];
          assert Differs(lt, desc, a, b, i + 1);
        }
      }
      if i :| 0 <= i < |a| && Differs(lt, desc, a, b, i) {
        if i > 0 {
          assert a[..i] == [a[0]] + a[1..][..i - 1] && b[..i] == [b[0]] + b[1..][..i - 1];
          assert a[0] == a[..i][0] && b[0] == b[..i][0];
          assert a[1..][..i - 1] == a[..i][1..] && b[1..][..i - 1] == b[..i][1..];
          assert Differs(lt, desc, a[1..], b[1..], i - 1);
        }
      }
    }
  }

  predicate Differs<V(==)>(lt: (V, V) -> bool, desc: bool, a: seq<Cell<V>>, b: seq<Cell<V>>, i: nat)
    requires i < |a| == |b|
  {
    a[..i] == b[..i] && CellBefore(lt, desc, a[i], b[i])
  }

  // ----- scans -----

  function CellOf<V>(row: Row<V>, column: string): Cell<V> {
    if column in row then row[column] else None
  }

  function KeyOf<V>(order: seq<string>, row: Row<V>): (key: seq<Cell<V>>)
    ensures |key| == |order|
  {
    seq(|order|, i requires 0 <= i < |order| => CellOf(row, order[i]))
  }

  function KeyOrder<V(==)>(lt: (V, V) -> bool, desc: bool): (seq<Cell<V>>, seq<Cell<V>>) -> bool {
    (a, b) => Before(lt, desc, a, b)
  }

  function RowKey<V>(order: seq<string>): Row<V> -> seq<Cell<V>> {
    row => KeyOf(order, row)
  }

  /** ORDER BY the columns of `order`, NULLS LAST. */
  function RowOrder<V(==, !new)>(lt: (V, V) -> bool, desc: bool, order: seq<string>): Paging.Ordering<Row<V>, seq<Cell<V>>> {
    Paging.Ordering(KeyOrder(lt, desc), RowKey(order))
  }

  lemma RowOrderOrders<V(!new)>(lt: (V, V) -> bool, desc: bool, order: seq<string>)
    requires StrictTotal(lt)
    ensures Paging.Orders(RowOrder(lt, desc, order))
  {
    forall a
      ensures !Before(lt, desc, a, a)
    {
      BeforeIrreflexive(lt, desc, a);
    }
    forall a, b, c | Before(lt, desc, a, b) && Before(lt, desc, b, c)
      ensures Before(lt, desc, a, c)
    {
      BeforeTransitive(lt, desc, a, b, c);
    }
    forall r: Row<V>, s: Row<V>
      ensures KeyOf(order, r) == KeyOf(order, s) || Before(lt, desc, KeyOf(order, r), KeyOf(order, s)) || Before(lt, desc, KeyOf(order, s), KeyOf(order, r))
    {
      BeforeTotal(lt, desc, KeyOf(order, r), KeyOf(order, s));
    }
  }
}
