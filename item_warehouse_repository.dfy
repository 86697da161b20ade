/**
 * The warehouse repository's two queries, over an in-memory table of item rows:
 * keep the rows of the requested item (and, for `GetFromInvolvedWhs`, of the
 * given warehouses), order them by warehouse priority then stock, both
 * descending, and turn each into an `ItemWarehouse` whose quantity is the
 * available quantity clamped to the requested one.
 *
 * The query's positivity condition on stock and reservations is kept abstract
 * as `stockFilter`: both queries apply the same one.
 */
module ItemWarehouseRepository {
  import opened Domain
  import E = WarehouseEntities

  // ----- shaping the result rows -----

  /** `getQty() > qty ? qty : getQty()`. */
  function ClampedQty(available: int, qty: int): (r: int)
    ensures r <= qty && r <= available
    ensures r == qty || r == available
  {
    if available > qty then qty else available
  }

  /** One `ItemWarehouse` per row, same length, same order, each quantity clamped on its own. */
  function MapItemsToItemWarehouse(qty: int, rows: seq<E.Item>): (r: seq<ItemWarehouse>)
    ensures |r| == |rows|
    ensures forall i :: 0 <= i < |r| ==> r[i].id == rows[i].warehouse.id && r[i].itemId == rows[i].id
    ensures forall i :: 0 <= i < |r| ==> r[i].qty <= qty && r[i].qty <= E.GetQty(rows[i])
    ensures forall i :: 0 <= i < |r| ==> r[i].qty == qty || r[i].qty == E.GetQty(rows[i])
    ensures forall i :: 0 <= i < |r| && E.GetQty(rows[i]) <= qty ==> r[i].qty == E.GetQty(rows[i])
  {
    if rows == [] then []
    else
      var row := rows[0];
      [ItemWarehouse(row.warehouse.id, row.id, ClampedQty(E.GetQty(row), qty))]
        + MapItemsToItemWarehouse(qty, rows[1..])
  }

  function SumQty(rows: seq<ItemWarehouse>): int
  {
    if rows == [] then 0 else rows[0].qty + SumQty(rows[1..])
  }

  /**
   * No running total is kept: when every row could cover the whole request,
   * every row comes back with the whole requested quantity, so two or more
   * such rows together exceed the request.
   */
  lemma {:induction false} MapItemsSumWhenEveryRowSuffices(qty: int, rows: seq<E.Item>)
    requires forall i :: 0 <= i < |rows| ==> E.GetQty(rows[i]) >= qty
    ensures SumQty(MapItemsToItemWarehouse(qty, rows)) == |rows| * qty
  {
    if rows != [] {
      MapItemsSumWhenEveryRowSuffices(qty, rows[1..]);
    }
  }

  // ----- selection -----

  function Filter(p: E.Item -> bool, s: seq<E.Item>): (r: seq<E.Item>)
    ensures forall x :: x in r ==> p(x) && x in s
  {
    if s == [] then []
    else if p(s[0]) then [s[0]] + Filter(p, s[1..])
    else Filter(p, s[1..])
  }

  /** `item.id = :itemId`, and the stock condition. */
  function OfItem(itemId: int, stockFilter: E.Item -> bool): E.Item -> bool
  {
    (x: E.Item) => x.id == itemId && stockFilter(x)
  }

  /** The same, and `wh.id IN (whs)`. */
  function OfItemWithin(itemId: int, stockFilter: E.Item -> bool, whs: set<int>): E.Item -> bool
  {
    (x: E.Item) => x.id == itemId && stockFilter(x) && x.warehouse.id in whs
  }

  function InWarehouses(whs: set<int>): E.Item -> bool
  {
    (x: E.Item) => x.warehouse.id in whs
  }

  // ----- ordering -----

  /** `a` may come before `b`: higher priority, or equal priority and at least as much stock. */
  predicate InOrder(a: E.Item, b: E.Item)
  {
    a.warehouse.priority > b.warehouse.priority
    || (a.warehouse.priority == b.warehouse.priority && a.qty >= b.qty)
  }

  predicate Sorted(s: seq<E.Item>)
  {
    forall i, j :: 0 <= i < j < |s| ==> InOrder(s[i], s[j])
  }

  /** Places `x` before the first row it may precede, so before the rows that tie with it; `SortRows` inserts each head into its sorted tail, which keeps table order. */
  function Insert(x: E.Item, s: seq<E.Item>): (r: seq<E.Item>)
    ensures multiset(r) == multiset(s) + multiset{x}
  {
    if s == [] then [x]
    else if InOrder(x, s[0]) then [x] + s
    else
      assert s == [s[0]] + s[1..];
      [s[0]] + Insert(x, s[1..])
  }

  /** `ORDER BY wh.priority DESC, item.qty DESC`; rows that tie keep their table order. */
  function SortRows(s: seq<E.Item>): (r: seq<E.Item>)
    ensures multiset(r) == multiset(s)
  {
    if s == [] then []
    else
      assert s == [s[0]] + s[1..];
      Insert(s[0], SortRows(s[1..]))
  }

  lemma SortRowsMembers(s: seq<E.Item>)
    ensures forall x :: x in SortRows(s) <==> x in s
  {
    var r := SortRows(s);
    forall x ensures x in r <==> x in s {
      assert x in r <==> x in multiset(r);
      assert x in s <==> x in multiset(s);
    }
  }

  lemma {:induction false} InsertSorted(x: E.Item, s: seq<E.Item>)
    requires Sorted(s)
    ensures Sorted(Insert(x, s))
  {
    if s == [] {
    } else if InOrder(x, s[0]) {
      InOrderAll(x, s);
    } else {
      var t := Insert(x, s[1..]);
      InsertSorted(x, s[1..]);
      forall k | 0 <= k < |t| ensures InOrder(s[0], t[k]) {
        assert t[k] in multiset(t);
        if t[k] != x {
          assert t[k] in multiset(s[1..]);
        }
      }
    }
  }

  lemma {:induction false} SortRowsSorted(s: seq<E.Item>)
    ensures Sorted(SortRows(s))
  {
    if s != [] {
      SortRowsSorted(s[1..]);
      InsertSorted(s[0], SortRows(s[1..]));
    }
  }

  /** The rows `getWarehousesForItem` reads, in the order it reads them. */
  function SelectRows(table: seq<E.Item>, stockFilter: E.Item -> bool, itemId: int): (r: seq<E.Item>)
    ensures Sorted(r)
    ensures forall i :: 0 <= i < |r| ==> r[i].id == itemId && stockFilter(r[i])
    ensures forall x :: x in table && x.id == itemId && stockFilter(x) ==> x in r
    ensures forall i :: 0 <= i < |r| ==> r[i] in table
  {
    FilterKeeps(OfItem(itemId, stockFilter), table);
    SortRowsSorted(Filter(OfItem(itemId, stockFilter), table));
    SortRowsMembers(Filter(OfItem(itemId, stockFilter), table));
    assert forall x :: OfItem(itemId, stockFilter)(x) == (x.id == itemId && stockFilter(x));
    SortRows(Filter(OfItem(itemId, stockFilter), table))
  }

  /** The rows `getFromInvolvedWhs` reads, in the order it reads them. */
  function SelectInvolvedRows(table: seq<E.Item>, stockFilter: E.Item -> bool, itemId: int, whs: set<int>): (r: seq<E.Item>)
    ensures Sorted(r)
    ensures forall i :: 0 <= i < |r| ==> r[i].id == itemId && stockFilter(r[i]) && r[i].warehouse.id in whs
    ensures forall x :: x in table && x.id == itemId && stockFilter(x) && x.warehouse.id in whs ==> x in r
    ensures forall i :: 0 <= i < |r| ==> r[i] in table
  {
    FilterKeeps(OfItemWithin(itemId, stockFilter, whs), table);
    SortRowsSorted(Filter(OfItemWithin(itemId, stockFilter, whs), table));
    SortRowsMembers(Filter(OfItemWithin(itemId, stockFilter, whs), table));
    assert forall x :: OfItemWithin(itemId, stockFilter, whs)(x) == (x.id == itemId && stockFilter(x) && x.warehouse.id in whs);
    SortRows(Filter(OfItemWithin(itemId, stockFilter, whs), table))
  }

  /** Every row handed to the mapping yields a proposal for its warehouse. */
  lemma MapItemsCovers(qty: int, rows: seq<E.Item>, x: E.Item)
    requires x in rows
    ensures exists i ::
      0 <= i < |MapItemsToItemWarehouse(qty, rows)| && MapItemsToItemWarehouse(qty, rows)[i].id == x.warehouse.id
  {
    var i :| 0 <= i < |rows| && rows[i] == x;
    assert MapItemsToItemWarehouse(qty, rows)[i].id == x.warehouse.id;
  }

  /**
   * `getWarehousesForItem`: one proposal per matching stock row, for the
   * requested item, never more than the requested quantity, and one for every
   * warehouse whose row of the item passes the stock condition.
   */
  function GetWarehousesForItem(table: seq<E.Item>, stockFilter: E.Item -> bool, itemId: int, qty: int): (r: seq<ItemWarehouse>)
    ensures forall i :: 0 <= i < |r| ==> r[i].itemId == itemId && r[i].qty <= qty
    ensures forall x :: x in table && x.id == itemId && stockFilter(x) ==>
      exists i :: 0 <= i < |r| && r[i].id == x.warehouse.id
  {
    var rows := SelectRows(table, stockFilter, itemId);
    var r := MapItemsToItemWarehouse(qty, rows);
    forall x | x in table && x.id == itemId && stockFilter(x)
      ensures exists i :: 0 <= i < |r| && r[i].id == x.warehouse.id
    {
      MapItemsCovers(qty, rows, x);
    }
    r
  }

  /**
   * `getFromInvolvedWhs`: as `getWarehousesForItem`, but every proposal is in
   * one of the given warehouses, and every such warehouse with a passing row
   * of the item gets one.
   */
  function GetFromInvolvedWhs(table: seq<E.Item>, stockFilter: E.Item -> bool, itemId: int, qty: int, whs: set<int>): (r: seq<ItemWarehouse>)
    ensures forall i :: 0 <= i < |r| ==> r[i].itemId == itemId && r[i].qty <= qty && r[i].id in whs
    ensures forall x :: x in table && x.id == itemId && stockFilter(x) && x.warehouse.id in whs ==>
      exists i :: 0 <= i < |r| && r[i].id == x.warehouse.id
  {
    var rows := SelectInvolvedRows(table, stockFilter, itemId, whs);
    var r := MapItemsToItemWarehouse(qty, rows);
    forall x | x in table && x.id == itemId && stockFilter(x) && x.warehouse.id in whs
      ensures exists i :: 0 <= i < |r| && r[i].id == x.warehouse.id
    {
      MapItemsCovers(qty, rows, x);
    }
    r
  }

  // ----- lemmas -----

  lemma {:induction false} FilterKeeps(p: E.Item -> bool, s: seq<E.Item>)
    ensures forall x :: x in s && p(x) ==> x in Filter(p, s)
  {
    if s != [] {
      FilterKeeps(p, s[1..]);
      assert forall x :: x in s ==> x == s[0] || x in s[1..];
    }
  }

  lemma {:induction false} FilterAnd(itemId: int, stockFilter: E.Item -> bool, whs: set<int>, s: seq<E.Item>)
    ensures Filter(OfItemWithin(itemId, stockFilter, whs), s)
         == Filter(InWarehouses(whs), Filter(OfItem(itemId, stockFilter), s))
  {
    if s != [] {
      FilterAnd(itemId, stockFilter, whs, s[1..]);
      var p := OfItem(itemId, stockFilter);
      var f := Filter(p, s);
      if p(s[0]) {
        assert f[0] == s[0] && f[1..] == Filter(p, s[1..]);
      } else {
        assert f == Filter(p, s[1..]);
      }
    }
  }

  lemma {:induction false} InOrderAll(x: E.Item, s: seq<E.Item>)
    requires Sorted(s) && s != [] && InOrder(x, s[0])
    ensures forall i :: 0 <= i < |s| ==> InOrder(x, s[i])
  {
  }

  /** Filtering a sorted list and inserting commute. */
  lemma {:induction false} FilterInsert(p: E.Item -> bool, x: E.Item, s: seq<E.Item>)
    requires Sorted(s)
    ensures Sorted(Filter(p, s))
    ensures Filter(p, Insert(x, s)) == if p(x) then Insert(x, Filter(p, s)) else Filter(p, s)
    decreases |s|
  {
    FilterSorted(p, s);
    if s == [] {
    } else if InOrder(x, s[0]) {
      assert Insert(x, s) == [x] + s;
      assert ([x] + s)[1..] == s;
      var f := Filter(p, s);
      if f != [] {
        InOrderAll(x, s);
        assert f[0] in f;
      }
    } else {
      assert s == [s[0]] + s[1..];
      FilterInsert(p, x, s[1..]);
      var ins := Insert(x, s);
      assert ins[0] == s[0] && ins[1..] == Insert(x, s[1..]);
    }
  }

  lemma {:induction false} FilterSorted(p: E.Item -> bool, s: seq<E.Item>)
    requires Sorted(s)
    ensures Sorted(Filter(p, s))
  {
    if s != [] {
      FilterSorted(p, s[1..]);
      var f := Filter(p, s[1..]);
      forall i | 0 <= i < |f| ensures InOrder(s[0], f[i]) {
        assert f[i] in f;
      }
    }
  }

  /** A stable sort of a filtered list is the filtered stable sort. */
  lemma {:induction false} SortFilter(p: E.Item -> bool, s: seq<E.Item>)
    ensures SortRows(Filter(p, s)) == Filter(p, SortRows(s))
  {
    if s != [] {
      var rest := SortRows(s[1..]);
      SortRowsSorted(s[1..]);
      SortFilter(p, s[1..]);
      FilterInsert(p, s[0], rest);
      if p(s[0]) {
        var f := Filter(p, s);
        assert f == [s[0]] + Filter(p, s[1..]);
        assert f[0] == s[0] && f[1..] == Filter(p, s[1..]);
        calc {
          SortRows(f);
          Insert(s[0], SortRows(Filter(p, s[1..])));
          Insert(s[0], Filter(p, rest));
          Filter(p, Insert(s[0], rest));
        }
      } else {
        assert Filter(p, s) == Filter(p, s[1..]);
      }
    }
  }

  /** `a` is `b` with some elements left out, the rest in the same order. */
  predicate IsSubsequence<T(==)>(a: seq<T>, b: seq<T>)
    decreases |b|
  {
    a == [] || (b != [] && ((a[0] == b[0] && IsSubsequence(a[1..], b[1..])) || IsSubsequence(a, b[1..])))
  }

  lemma {:induction false} MapFilterIsSubsequence(qty: int, p: E.Item -> bool, s: seq<E.Item>)
    ensures IsSubsequence(MapItemsToItemWarehouse(qty, Filter(p, s)), MapItemsToItemWarehouse(qty, s))
  {
    if s != [] {
      MapFilterIsSubsequence(qty, p, s[1..]);
      var f := Filter(p, s);
      if p(s[0]) {
        assert f[0] == s[0] && f[1..] == Filter(p, s[1..]);
      } else {
        assert f == Filter(p, s[1..]);
      }
    }
  }

  /**
   * Restricting the query to some warehouses only drops rows: what
   * `getFromInvolvedWhs` returns appears, in the same order, in what
   * `getWarehousesForItem` returns for the same item and quantity.
   */
  lemma InvolvedIsSubsequence(table: seq<E.Item>, stockFilter: E.Item -> bool, itemId: int, qty: int, whs: set<int>)
    ensures IsSubsequence(GetFromInvolvedWhs(table, stockFilter, itemId, qty, whs),
                          GetWarehousesForItem(table, stockFilter, itemId, qty))
  {
    var matching := Filter(OfItem(itemId, stockFilter), table);
    FilterAnd(itemId, stockFilter, whs, table);
    SortFilter(InWarehouses(whs), matching);
    MapFilterIsSubsequence(qty, InWarehouses(whs), SortRows(matching));
  }
}
