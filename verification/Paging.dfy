/** Keyset pagination over any rows with an order on their keys: following cursors
page by page visits exactly the rows of one full sorted scan. */
module Paging {
  import opened Options

  /** What a scan is ordered by. */
  datatype Ordering<!R(!new), !K(!new)> = Ordering(before: (K, K) -> bool, key: R -> K)

  /** The order is strict, and total on the keys of rows. */
  ghost predicate Orders<R(!new), K(!new)>(o: Ordering<R, K>) {
    && (forall a :: !o.before(a, a))
    && (forall a, b, c :: o.before(a, b) && o.before(b, c) ==> o.before(a, c))
    && (forall r, s :: o.key(r) == o.key(s) || o.before(o.key(r), o.key(s)) || o.before(o.key(s), o.key(r)))
  }

  predicate RowBefore<R(!new), K(!new)>(o: Ordering<R, K>, a: R, b: R) {
    o.before(o.key(a), o.key(b))
  }

  function Select<R>(rows: seq<R>, keep: R -> bool): seq<R> {
    if rows == [] then []
    else if keep(rows[0]) then [rows[0]] + Select(rows[1..], keep)
    else Select(rows[1..], keep)
  }

  function Insert<R(!new), K(!new)>(o: Ordering<R, K>, row: R, rows: seq<R>): seq<R> {
    if rows == [] || RowBefore(o, row, rows[0]) then [row] + rows else [rows[0]] + Insert(o, row, rows[1..])
  }

  /** What ORDER BY answers: the rows in order. */
  function Sorted<R(!new), K(!new)>(o: Ordering<R, K>, rows: seq<R>): seq<R> {
    if rows == [] then [] else Insert(o, rows[0], Sorted(o, rows[1..]))
  }

  ghost predicate Ascending<R(!new), K(!new)>(o: Ordering<R, K>, rows: seq<R>) {
    forall i, j :: 0 <= i < j < |rows| ==> RowBefore(o, rows[i], rows[j])
  }

  /** No two rows share a key. */
  ghost predicate DistinctKeys<R(!new), K(!new)>(key: R -> K, rows: seq<R>) {
    forall i, j :: 0 <= i < j < |rows| ==> key(rows[i]) != key(rows[j])
  }

  // ----- sorting -----

  lemma {:induction false} InsertMembers<R(!new), K(!new)>(o: Ordering<R, K>, row: R, rows: seq<R>)
    ensures multiset(Insert(o, row, rows)) == multiset(rows) + multiset{row}
  {
    if rows != [] && !RowBefore(o, row, rows[0]) {
      InsertMembers(o, row, rows[1..]);
      assert rows == [rows[0]] + rows[1..];
    }
  }

  lemma {:induction false} InsertMember<R(!new), K(!new)>(o: Ordering<R, K>, row: R, rows: seq<R>, other: R)
    ensures other in Insert(o, row, rows) <==> other == row || other in rows
  {
    if rows != [] && !RowBefore(o, row, rows[0]) {
      InsertMember(o, row, rows[1..], other);
    }
  }

  lemma {:induction false} InsertAscending<R(!new), K(!new)>(o: Ordering<R, K>, row: R, rows: seq<R>)
    requires Orders(o) && Ascending(o, rows)
    requires forall other :: other in rows ==> o.key(other) != o.key(row)
    ensures Ascending(o, Insert(o, row, rows))
  {
    if rows == [] {
    } else if RowBefore(o, row, rows[0]) {
      var all := [row] + rows;
      forall j | 0 < j < |all|
        ensures RowBefore(o, row, all[j])
      {
        assert j > 1 ==> RowBefore(o, rows[0], rows[j - 1]);
      }
    } else {
      InsertAscending(o, row, rows[1..]);
      var rest := Insert(o, row, rows[1..]);
      forall j | 0 <= j < |rest|
        ensures RowBefore(o, rows[0], rest[j])
      {
        InsertMember(o, row, rows[1..], rest[j]);
        if rest[j] != row {
          var k :| 0 <= k < |rows[1..]| && rows[1..][k] == rest[j];
          assert rest[j] == rows[k + 1];
        }
      }
    }
  }

  lemma {:induction false} SortedMembers<R(!new), K(!new)>(o: Ordering<R, K>, rows: seq<R>)
    ensures multiset(Sorted(o, rows)) == multiset(rows)
    ensures |Sorted(o, rows)| == |rows|
  {
    if rows != [] {
      SortedMembers(o, rows[1..]);
      InsertMembers(o, rows[0], Sorted(o, rows[1..]));
      assert rows == [rows[0]] + rows[1..];
    }
    assert |multiset(Sorted(o, rows))| == |multiset(rows)|;
  }

  lemma DistinctTail<R(!new), K(!new)>(key: R -> K, rows: seq<R>)
    requires DistinctKeys(key, rows) && rows != []
    ensures DistinctKeys(key, rows[1..])
    ensures forall other :: other in rows[1..] ==> key(other) != key(rows[0])
  {
    var rest := rows[1..];
    assert forall i :: 0 <= i < |rest| ==> rest[i] == rows[i + 1];
  }

  lemma {:induction false} SortedAscending<R(!new), K(!new)>(o: Ordering<R, K>, rows: seq<R>)
    requires Orders(o) && DistinctKeys(o.key, rows)
    ensures Ascending(o, Sorted(o, rows))
  {
    if rows != [] {
      DistinctTail(o.key, rows);
      SortedAscending(o, rows[1..]);
      SortedMembers(o, rows[1..]);
      forall other | other in Sorted(o, rows[1..])
        ensures o.key(other) != o.key(rows[0])
      {
        assert other in multiset(Sorted(o, rows[1..]));
      }
      InsertAscending(o, rows[0], Sorted(o, rows[1..]));
    }
  }

  // ----- selecting -----

  lemma {:induction false} SelectWithin<R>(rows: seq<R>, keep: R -> bool)
    ensures forall row :: row in Select(rows, keep) ==> row in rows && keep(row)
  {
    if rows != [] {
      SelectWithin(rows[1..], keep);
    }
  }

  lemma {:induction false} SelectAll<R>(rows: seq<R>, keep: R -> bool)
    requires forall row :: row in rows ==> keep(row)
    ensures Select(rows, keep) == rows
  {
    if rows != [] {
      SelectAll(rows[1..], keep);
    }
  }

  lemma {:induction false} SelectNone<R>(rows: seq<R>, keep: R -> bool)
    requires forall row :: row in rows ==> !keep(row)
    ensures Select(rows, keep) == []
  {
    if rows != [] {
      SelectNone(rows[1..], keep);
    }
  }

  lemma {:induction false} SelectConcat<R>(a: seq<R>, b: seq<R>, keep: R -> bool)
    ensures Select(a + b, keep) == Select(a, keep) + Select(b, keep)
  {
    if a == [] {
      assert a + b == b;
    } else {
      assert (a + b)[1..] == a[1..] + b;
      SelectConcat(a[1..], b, keep);
    }
  }

  lemma {:induction false} SelectTwice<R(!new)>(rows: seq<R>, both: R -> bool, first: R -> bool, second: R -> bool)
    requires forall row :: both(row) <==> first(row) && second(row)
    ensures Select(rows, both) == Select(Select(rows, first), second)
  {
    if rows != [] {
      SelectTwice(rows[1..], both, first, second);
      if first(rows[0]) {
        assert Select(rows, first)[1..] == Select(rows[1..], first);
      }
    }
  }

  lemma {:induction false} SelectAlike<R(!new)>(rows: seq<R>, p: R -> bool, q: R -> bool)
    requires forall row :: p(row) <==> q(row)
    ensures Select(rows, p) == Select(rows, q)
  {
    if rows != [] {
      SelectAlike(rows[1..], p, q);
    }
  }

  lemma {:induction false} SelectDistinct<R(!new), K(!new)>(key: R -> K, rows: seq<R>, keep: R -> bool)
    requires DistinctKeys(key, rows)
    ensures DistinctKeys(key, Select(rows, keep))
  {
    if rows != [] {
      DistinctTail(key, rows);
      SelectDistinct(key, rows[1..], keep);
      SelectWithin(rows[1..], keep);
    }
  }

  lemma {:induction false} SelectInsert<R(!new), K(!new)>(o: Ordering<R, K>, row: R, rows: seq<R>, keep: R -> bool)
    requires Orders(o) && Ascending(o, rows)
    ensures Select(Insert(o, row, rows), keep) == if keep(row) then Insert(o, row, Select(rows, keep)) else Select(rows, keep)
  {
    if rows == [] {
      assert Select([row], keep) == if keep(row) then [row] else [];
    } else if RowBefore(o, row, rows[0]) {
      var kept := Select(rows, keep);
      assert ([row] + rows)[1..] == rows;
      SelectWithin(rows, keep);
      if kept != [] {
        assert kept[0] in kept;
        var j :| 0 <= j < |rows| && rows[j] == kept[0];
        assert j > 0 ==> RowBefore(o, rows[0], rows[j]);
      }
    } else {
      SelectInsert(o, row, rows[1..], keep);
      var rest := Insert(o, row, rows[1..]);
      assert ([rows[0]] + rest)[1..] == rest;
    }
  }

  /** Filtering before or after sorting is the same scan. */
  lemma {:induction false} SelectSorted<R(!new), K(!new)>(o: Ordering<R, K>, rows: seq<R>, keep: R -> bool)
    requires Orders(o) && DistinctKeys(o.key, rows)
    ensures Select(Sorted(o, rows), keep) == Sorted(o, Select(rows, keep))
  {
    if rows != [] {
      DistinctTail(o.key, rows);
      SelectSorted(o, rows[1..], keep);
      SortedAscending(o, rows[1..]);
      SelectInsert(o, rows[0], Sorted(o, rows[1..]), keep);
    }
  }

  // ----- pages -----

  datatype Page<R, K> = Page(items: seq<R>, next: Option<K>)

  /** The rows a page's cursor lets through. */
  function Beyond<R(!new), K(!new)>(o: Ordering<R, K>, cursor: Option<K>): R -> bool {
    row => cursor.None? || o.before(cursor.value, o.key(row))
  }

  function Cut<R>(rows: seq<R>, n: nat): seq<R> {
    if |rows| > n then rows[..n] else rows
  }

  /** What a page fetches: one row more than its limit, in order. */
  function Fetched<R(!new), K(!new)>(o: Ordering<R, K>, rows: seq<R>, cursor: Option<K>, limit: nat): seq<R> {
    Cut(Sorted(o, Select(rows, Beyond(o, cursor))), limit + 1)
  }

  /** The page made of what was fetched: the extra row only announces a next page. */
  function PageOf<R, K>(key: R -> K, fetched: seq<R>, limit: nat): Page<R, K>
    requires limit > 0
  {
    if |fetched| > limit then Page(fetched[..limit], Some(key(fetched[limit - 1]))) else Page(fetched, None)
  }

  function Fetch<R(!new), K(!new)>(o: Ordering<R, K>, rows: seq<R>, cursor: Option<K>, limit: nat): Page<R, K>
    requires limit > 0
  {
    PageOf(o.key, Fetched(o, rows, cursor, limit), limit)
  }

  lemma NotBeyond<R(!new), K(!new)>(o: Ordering<R, K>, scan: seq<R>, k: nat)
    requires Orders(o) && Ascending(o, scan) && 0 < k <= |scan|
    ensures forall row :: row in scan[..k] ==> !Beyond(o, Some(o.key(scan[k - 1])))(row)
    ensures forall row :: row in scan[k..] ==> Beyond(o, Some(o.key(scan[k - 1])))(row)
  {
    forall row | row in scan[..k]
      ensures !Beyond(o, Some(o.key(scan[k - 1])))(row)
    {
      var i :| 0 <= i < k && scan[i] == row;
      assert i < k - 1 ==> RowBefore(o, scan[i], scan[k - 1]);
    }
    forall row | row in scan[k..]
      ensures Beyond(o, Some(o.key(scan[k - 1])))(row)
    {
      var i :| 0 <= i < |scan| - k && scan[k..][i] == row;
      assert RowBefore(o, scan[k - 1], scan[k + i]);
    }
  }

  /** The rows beyond the k-th row of a scan are the rest of the scan. */
  lemma BeyondIsRest<R(!new), K(!new)>(o: Ordering<R, K>, scan: seq<R>, k: nat)
    requires Orders(o) && Ascending(o, scan) && 0 < k <= |scan|
    ensures Select(scan, Beyond(o, Some(o.key(scan[k - 1])))) == scan[k..]
  {
    hide Orders, Ascending, Beyond, Select;
    var keep := Beyond(o, Some(o.key(scan[k - 1])));
    NotBeyond(o, scan, k);
    SelectNone(scan[..k], keep);
    SelectAll(scan[k..], keep);
    assert scan == scan[..k] + scan[k..];
    SelectConcat(scan[..k], scan[k..], keep);
  }

  /** The position in the scan a cursor stands at. */
  ghost predicate At<R(!new), K(!new)>(key: R -> K, scan: seq<R>, cursor: Option<K>, k: nat) {
    k <= |scan| && (if k == 0 then cursor.None? else cursor == Some(key(scan[k - 1])))
  }

  lemma FoundFrom<R(!new), K(!new)>(o: Ordering<R, K>, rows: seq<R>, cursor: Option<K>, k: nat)
    requires Orders(o) && DistinctKeys(o.key, rows) && At(o.key, Sorted(o, rows), cursor, k)
    ensures Sorted(o, Select(rows, Beyond(o, cursor))) == Sorted(o, rows)[k..]
  {
    SelectSorted(o, rows, Beyond(o, cursor));
    if k == 0 {
      SelectAll(rows, Beyond(o, cursor));
    } else {
      SortedAscending(o, rows);
      BeyondIsRest(o, Sorted(o, rows), k);
    }
  }

  lemma FetchFrom<R(!new), K(!new)>(o: Ordering<R, K>, rows: seq<R>, cursor: Option<K>, limit: nat, k: nat)
    requires Orders(o) && DistinctKeys(o.key, rows) && limit > 0 && At(o.key, Sorted(o, rows), cursor, k)
    ensures var scan, page := Sorted(o, rows), Fetch(o, rows, cursor, limit);
            if |scan| - k > limit
            then page.items == scan[k..k + limit] && page.next.Some? && At(o.key, scan, page.next, k + limit)
            else page.items == scan[k..] && page.next.None?
  {
    FoundFrom(o, rows, cursor, k);
    PageFrom(o.key, Sorted(o, rows), limit, k);
  }

  lemma PageFrom<R(!new), K(!new)>(key: R -> K, scan: seq<R>, limit: nat, k: nat)
    requires limit > 0 && k <= |scan|
    ensures var page := PageOf(key, Cut(scan[k..], limit + 1), limit);
            if |scan| - k > limit
            then page.items == scan[k..k + limit] && page.next.Some? && At(key, scan, page.next, k + limit)
            else page.items == scan[k..] && page.next.None?
  {
    if |scan| - k > limit {
      var cut := Cut(scan[k..], limit + 1);
      assert cut == scan[k..k + limit + 1];
      assert cut[..limit] == scan[k..k + limit];
      assert cut[limit - 1] == scan[k + limit - 1];
    }
  }

  predicate Continues<R, K(==)>(page: Page<R, K>, cursor: Option<K>) {
    page.next.Some? && cursor == page.next
  }

  /** A client that follows next_cursor from the first page, with any limits. */
  ghost predicate Traversal<R(!new), K(!new)>(o: Ordering<R, K>, rows: seq<R>, cursors: seq<Option<K>>, limits: seq<nat>, pages: seq<Page<R, K>>) {
    && |pages| == |limits| == |cursors| > 0
    && cursors[0].None?
    && (forall i :: 0 <= i < |pages| ==> limits[i] > 0 && pages[i] == Fetch(o, rows, cursors[i], limits[i]))
    && (forall i, j :: 0 <= i < j < |pages| && j == i + 1 ==> Continues(pages[i], cursors[j]))
  }

  /** The rows of the first n pages. */
  function Items<R, K>(pages: seq<Page<R, K>>, n: nat): seq<R>
    requires n <= |pages|
  {
    if n == 0 then [] else Items(pages, n - 1) + pages[n - 1].items
  }

  /** What a client holds after some pages: a prefix of the scan that is all of it
      exactly when there is no next cursor, and at least one row per earlier page. */
  ghost predicate Exact<R(!new), K(!new)>(key: R -> K, scan: seq<R>, items: seq<R>, next: Option<K>, pages: nat) {
    && items <= scan
    && (next.None? <==> items == scan)
    && (next.Some? ==> At(key, scan, next, |items|) && pages <= |items|)
    && pages <= |items| + 1
  }

  lemma Extend<R>(scan: seq<R>, n: nat, m: nat)
    requires n <= m <= |scan|
    ensures scan[..n] + scan[n..m] == scan[..m]
  {
  }

  lemma Advance<R(!new), K(!new)>(o: Ordering<R, K>, rows: seq<R>, items: seq<R>, cursor: Option<K>, limit: nat, pages: nat)
    requires Orders(o) && DistinctKeys(o.key, rows) && limit > 0
    requires if pages == 0 then items == [] && cursor.None? else cursor.Some? && Exact(o.key, Sorted(o, rows), items, cursor, pages)
    ensures Exact(o.key, Sorted(o, rows), items + Fetch(o, rows, cursor, limit).items, Fetch(o, rows, cursor, limit).next, pages + 1)
  {
    var scan, page := Sorted(o, rows), Fetch(o, rows, cursor, limit);
    FetchFrom(o, rows, cursor, limit, |items|);
    AdvanceIn(o.key, scan, items, page, limit, pages);
  }

  lemma AdvanceIn<R(!new), K(!new)>(key: R -> K, scan: seq<R>, items: seq<R>, page: Page<R, K>, limit: nat, pages: nat)
    requires limit > 0 && items <= scan && pages <= |items|
    requires if |scan| - |items| > limit
             then page.items == scan[|items|..|items| + limit] && page.next.Some? && At(key, scan, page.next, |items| + limit)
             else page.items == scan[|items|..] && page.next.None?
    ensures Exact(key, scan, items + page.items, page.next, pages + 1)
  {
    Extend(scan, |items|, if |scan| - |items| > limit then |items| + limit else |scan|);
  }

  lemma {:induction false} TraversalExact<R(!new), K(!new)>(o: Ordering<R, K>, rows: seq<R>, cursors: seq<Option<K>>, limits: seq<nat>, pages: seq<Page<R, K>>, n: nat)
    requires Orders(o) && DistinctKeys(o.key, rows) && Traversal(o, rows, cursors, limits, pages) && 0 < n <= |pages|
    ensures Exact(o.key, Sorted(o, rows), Items(pages, n), pages[n - 1].next, n)
  {
    if n > 1 {
      TraversalExact(o, rows, cursors, limits, pages, n - 1);
      assert Continues(pages[n - 2], cursors[n - 1]);
    }
    assert pages[n - 1] == Fetch(o, rows, cursors[n - 1], limits[n - 1]);
    Advance(o, rows, Items(pages, n - 1), cursors[n - 1], limits[n - 1], n - 1);
  }

  /** Keyset pagination is exact: whatever the page sizes, following next_cursor
      returns every row once, in the order of one full sorted scan, and ends. */
  lemma PaginationIsExact<R(!new), K(!new)>(o: Ordering<R, K>, rows: seq<R>, cursors: seq<Option<K>>, limits: seq<nat>, pages: seq<Page<R, K>>)
    requires Orders(o) && DistinctKeys(o.key, rows) && Traversal(o, rows, cursors, limits, pages)
    ensures var scan := Sorted(o, rows);
            && Ascending(o, scan) && multiset(scan) == multiset(rows)
            && Items(pages, |pages|) <= scan
            && (pages[|pages| - 1].next.None? <==> Items(pages, |pages|) == scan)
    ensures |pages| <= |rows| + 1
  {
    TraversalExact(o, rows, cursors, limits, pages, |pages|);
    SortedAscending(o, rows);
    SortedMembers(o, rows);
  }
}
