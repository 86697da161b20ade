/**
 * The stock rows of the warehouse side: a warehouse with its priority, and an
 * item row (one item in one warehouse) with its stock and the reservations
 * already made against it. `GetQty` is the quantity still available.
 */
module WarehouseEntities {
  import opened Wrappers

  datatype Warehouse = Warehouse(id: int, priority: int)

  /** A reservation row; only its quantity matters here. */
  datatype Reservation = Reservation(id: int, qty: int)

  /** One item in one warehouse: `qty` is the stock column. */
  datatype Item = Item(id: int, qty: int, warehouse: Warehouse, reservations: seq<Reservation>)

  /** The sum of the reserved quantities, folded left from 0 as `array_reduce` walks. */
  function Reserved(rs: seq<Reservation>): int
  {
    if rs == [] then 0 else Reserved(rs[..|rs| - 1]) + rs[|rs| - 1].qty
  }

  /** Available quantity: stock minus everything reserved. */
  function GetQty(item: Item): int
  {
    item.qty - Reserved(item.reservations)
  }

  lemma {:induction false} ReservedAppend(a: seq<Reservation>, b: seq<Reservation>)
    ensures Reserved(a + b) == Reserved(a) + Reserved(b)
  {
    if b == [] {
      assert a + b == a;
    } else {
      assert (a + b)[..|a + b| - 1] == a + b[..|b| - 1];
      ReservedAppend(a, b[..|b| - 1]);
    }
  }

  /** With no reservations the whole stock is available. */
  lemma GetQtyNoReservations(item: Item)
    requires item.reservations == []
    ensures GetQty(item) == item.qty
  {
  }

  /** One more reservation of `r.qty` lowers the available quantity by exactly that much. */
  lemma GetQtyAddReservation(item: Item, r: Reservation)
    ensures GetQty(item.(reservations := item.reservations + [r])) == GetQty(item) - r.qty
  {
  }

  /** Removing the element at `j` takes its quantity out of the sum. */
  lemma ReservedRemoveAt(rs: seq<Reservation>, j: nat)
    requires j < |rs|
    ensures Reserved(rs) == Reserved(rs[..j] + rs[j + 1..]) + rs[j].qty
  {
    assert rs == rs[..j] + [rs[j]] + rs[j + 1..];
    ReservedAppend(rs[..j] + [rs[j]], rs[j + 1..]);
    ReservedAppend(rs[..j], [rs[j]]);
    ReservedAppend(rs[..j], rs[j + 1..]);
  }

  lemma MultisetRemoveAt(b: seq<Reservation>, j: nat)
    requires j < |b|
    ensures multiset(b[..j] + b[j + 1..]) == multiset(b) - multiset{b[j]}
  {
    assert b == b[..j] + [b[j]] + b[j + 1..];
  }

  lemma {:induction false} ReservedPermutation(a: seq<Reservation>, b: seq<Reservation>)
    requires multiset(a) == multiset(b)
    ensures Reserved(a) == Reserved(b)
    decreases |a|
  {
    if a != [] {
      var x := a[|a| - 1];
      var a' := a[..|a| - 1];
      assert a == a' + [x];
      assert multiset(a') == multiset(a) - multiset{x};
      assert x in multiset(b);
      var j :| 0 <= j < |b| && b[j] == x;
      MultisetRemoveAt(b, j);
      ReservedPermutation(a', b[..j] + b[j + 1..]);
      ReservedRemoveAt(b, j);
    } else {
      assert |b| == |multiset(b)| == 0;
    }
  }

  /** The order in which the reservations are listed does not matter. */
  lemma GetQtyOrderIndependent(item: Item, rs: seq<Reservation>)
    requires multiset(rs) == multiset(item.reservations)
    ensures GetQty(item.(reservations := rs)) == GetQty(item)
  {
    ReservedPermutation(rs, item.reservations);
  }

  lemma {:induction false} ReservedNonNegative(rs: seq<Reservation>)
    requires forall i :: 0 <= i < |rs| ==> rs[i].qty >= 0
    ensures Reserved(rs) >= 0
  {
    if rs != [] {
      ReservedNonNegative(rs[..|rs| - 1]);
    }
  }

  /** Reservations of non-negative quantity never make more available than is stocked. */
  lemma GetQtyAtMostStock(item: Item)
    requires forall i :: 0 <= i < |item.reservations| ==> item.reservations[i].qty >= 0
    ensures GetQty(item) <= item.qty
  {
    ReservedNonNegative(item.reservations);
  }

  // ----- getQty as written -----

  /**
   * What the `reservations` property holds when `getQty` runs. The entity's
   * constructor puts an ArrayCollection there and Doctrine a
   * PersistentCollection, both objects; only code that assigns the public
   * property directly can put a plain array there.
   */
  datatype Holder = CollectionObject | PlainArray

  /** The TypeErrors PHP raises inside the written `getQty`. */
  datatype TypeError =
    | NotAnArray   // `array_reduce` is handed an object where it requires an array
    | NullCarry    // the callback's `int $carry` receives `null`

  /**
   * `getQty` as written. `array_reduce` rejects a collection object outright.
   * Given an array, it is called without an initial value, so the first call
   * of the callback receives `null` for its `int $carry`, which PHP rejects;
   * only an empty array skips the callback, and then `qty - null` is `qty`.
   */
  function GetQtyAsWritten(item: Item, holder: Holder): (r: Result<int, TypeError>)
    ensures holder.CollectionObject? ==> r == Err(NotAnArray)
    ensures holder.PlainArray? && item.reservations != [] ==> r == Err(NullCarry)
    ensures r.Ok? <==> holder.PlainArray? && item.reservations == []
    ensures r.Ok? ==> r.value == item.qty
  {
    match holder
    case CollectionObject => Err(NotAnArray)
    case PlainArray => if item.reservations == [] then Ok(item.qty) else Err(NullCarry)
  }

  /**
   * The written code fails on every item the entity builds, even one without
   * reservations, and on an array holding a single reservation; the fold from
   * 0 gives stock minus the reservations.
   */
  lemma GetQtyAsWrittenFails()
    ensures GetQtyAsWritten(Item(1, 10, Warehouse(1, 1), []), CollectionObject) == Err(NotAnArray)
    ensures GetQty(Item(1, 10, Warehouse(1, 1), [])) == 10
    ensures GetQtyAsWritten(Item(1, 10, Warehouse(1, 1), [Reservation(1, 3)]), PlainArray) == Err(NullCarry)
    ensures GetQty(Item(1, 10, Warehouse(1, 1), [Reservation(1, 3)])) == 7
  {
    var rs := [Reservation(1, 3)];
    assert rs[..0] == [];
  }
}
