/**
 * The handler itself: an object whose methods send queries and commands, save
 * reservations and take and release locks, all recorded in `trace`. Each
 * method is proved to do exactly what the functions of `Saga` say.
 */
module ReservationHandler {
  import opened Wrappers
  import opened Domain
  import opened Messaging
  import opened Saga
  import LockKeys

  /**
   * What `createLocksForItem` returns: a generator that has not run yet. Its
   * locks are created and acquired only while something iterates it, and it
   * can be iterated to the end once.
   */
  class LockGenerator {
    const rows: seq<ItemWarehouse>
    var consumed: bool

    constructor (rows: seq<ItemWarehouse>)
      ensures this.rows == rows && !consumed
    {
      this.rows := rows;
      consumed := false;
    }
  }

  class OrderCreatedEventHandler {
    const env: Env
    var trace: seq<Effect>

    constructor (env: Env)
      ensures this.env == env && trace == []
    {
      this.env := env;
      trace := [];
    }

    /** `__invoke`: exactly the outcome and the effects `Saga.Invoke` gives. */
    method Invoke(event: OrderCreatedEvent) returns (outcome: Outcome)
      modifies this
      ensures trace == old(trace) + Saga.Invoke(env).effects
      ensures outcome == Saga.Invoke(env).outcome
    {
      var found := GetMostProfitableOrderToProcess();
      if found.Err? {
        return Failed(Routing(found.error));
      }
      if found.value.None? {
        trace := trace + [NoOrderWarning];
        return NoOrder;
      }
      var order := found.value.value;
      trace := trace + [ProcessStarted(order.id)];
      outcome := ReserveOrderItems(order);
    }

    /** The outer `foreach` over the order's items, then the closing log line and the event. */
    method ReserveOrderItems(order: Order) returns (outcome: Outcome)
      modifies this
      ensures trace == old(trace) + ReserveAll(env, order).effects
      ensures outcome == ReserveAll(env, order).outcome
    {
      var stop := SweepItems(order);
      if stop.Some? {
        return stop.value;
      }
      ghost var done := ReserveItems(env, order, |order.items|).effects;
      var closing := [ProcessFinished(order.id), EventDispatched(ReservationHasBeenMadeEvent(order.id))];
      trace := trace + closing;
      AppendAssoc(old(trace), done, closing, []);
      return Completed;
    }

    /** The passes of the outer `foreach`, until one of them stops the saga. */
    method SweepItems(order: Order) returns (stop: Option<Outcome>)
      modifies this
      ensures var s := ReserveItems(env, order, |order.items|);
        trace == old(trace) + s.effects && stop == (if s.Stopped? then Some(s.outcome) else None)
    {
      var j := 0;
      stop := None;
      while j < |order.items| && stop.None?
        invariant 0 <= j <= |order.items|
        invariant var s := ReserveItems(env, order, j);
          trace == old(trace) + s.effects && stop == (if s.Stopped? then Some(s.outcome) else None)
      {
        stop := AdvanceSweep(order, j, old(trace));
        j := j + 1;
      }
      if stop.Some? {
        StoppedStays(env, order, j, |order.items|);
      }
    }

    /** One more pass of the outer `foreach`, seen from the whole loop. */
    method AdvanceSweep(order: Order, j: nat, ghost start: seq<Effect>) returns (stop: Option<Outcome>)
      requires j < |order.items|
      requires ReserveItems(env, order, j).Reserving?
      requires trace == start + ReserveItems(env, order, j).effects
      modifies this
      ensures var s := ReserveItems(env, order, j + 1);
        trace == start + s.effects && stop == (if s.Stopped? then Some(s.outcome) else None)
    {
      ghost var done := ReserveItems(env, order, j).effects;
      ghost var step := ItemStep(env, order, j);
      stop := ReserveNextItem(order, j);
      AppendAssoc(start, done, step.effects, []);
    }

    /** One pass of the outer `foreach`: fetch the item's rows through `handle`, then reserve them. */
    method ReserveNextItem(order: Order, j: nat) returns (stop: Option<Outcome>)
      requires j < |order.items|
      requires ReserveItems(env, order, j).Reserving?
      modifies this
      ensures trace == old(trace) + ItemStep(env, order, j).effects
      ensures stop == ItemStep(env, order, j).stop
    {
      var item := order.items[j];
      var chosen := GetWarehousesForItemReservation(item.id, item.qty);
      if chosen.Err? {
        return Some(Failed(Routing(chosen.error)));
      }
      var passed := ReserveItemInWarehouses(order, j, item, chosen.value);
      if !passed {
        return Some(Failed(RequiredQtyHasNotBeenReserved(item)));
      }
      return None;
    }

    /**
     * The rest of the outer `foreach` once the rows of `item` are known: the
     * Make commands, then either the final revert or the saved reservation
     * and the release of the locks.
     */
    method ReserveItemInWarehouses(order: Order, pos: nat, item: Item, rows: seq<ItemWarehouse>) returns (passed: bool)
      requires pos < |order.items| && ReserveItems(env, order, pos).Reserving?
      modifies this
      ensures trace == old(trace) + ReserveItem(env, order, pos, item, rows).effects
      ensures passed == ReserveItem(env, order, pos, item, rows).passed
    {
      var itemLocks := CreateLocksForItem(rows);
      var reservedQty := DispatchMakeCommands(order, rows, itemLocks);
      if item.qty > reservedQty {
        RevertTransaction(order, rows, itemLocks);
        return false;
      }
      var reservation := Reservation(env.clock(pos), order, item, rows);
      trace := trace + [Saved(reservation)];
      ReleaseLocks(itemLocks);
      return true;
    }

    /**
     * The inner `foreach`: one Make command per row in row order; a command
     * that throws triggers a revert and the loop goes on; `reservedQty` sums
     * the quantities of the commands that did not throw.
     */
    method DispatchMakeCommands(order: Order, rows: seq<ItemWarehouse>, itemLocks: LockGenerator) returns (reservedQty: int)
      requires itemLocks.rows == rows && !itemLocks.consumed
      modifies this, itemLocks
      ensures var c := Commit(env, order, rows, |rows|);
        trace == old(trace) + c.effects && reservedQty == c.reserved && itemLocks.consumed == c.consumed
    {
      reservedQty := 0;
      ghost var effects: seq<Effect> := [];
      var k := 0;
      while k < |rows|
        invariant 0 <= k <= |rows|
        invariant trace == old(trace) + effects
        invariant Commit(env, order, rows, k) == Progress(reservedQty, itemLocks.consumed, effects)
      {
        var row := rows[k];
        var make := MakeCommand(row);
        ghost var wasConsumed := itemLocks.consumed;
        trace := trace + [MakeDispatched(make)];
        if env.makeFails(make) {
          RevertTransaction(order, rows, itemLocks);
          effects := effects + [MakeDispatched(make)] + Revert(order, rows, wasConsumed);
        } else {
          reservedQty := reservedQty + row.qty;
          effects := effects + [MakeDispatched(make)];
        }
        k := k + 1;
      }
    }

    /** `getMostProfitableOrderToProcess`: one query, answered through `handle`. */
    method GetMostProfitableOrderToProcess() returns (r: Result<Option<Order>, RoutingError>)
      modifies this
      ensures trace == old(trace) + [OrderQueried]
      ensures r == Handle(env.orderStamps)
    {
      trace := trace + [OrderQueried];
      r := Handle(env.orderStamps);
    }

    /** `getWarehousesForItemReservation`: one query, answered through `handle`. */
    method GetWarehousesForItemReservation(itemId: int, qty: int) returns (r: Result<seq<ItemWarehouse>, RoutingError>)
      modifies this
      ensures trace == old(trace) + [WarehousesQueried(GetWarehousesForItemReservationQuery(itemId, qty))]
      ensures r == Handle(env.warehouseStamps(GetWarehousesForItemReservationQuery(itemId, qty)))
    {
      var query := GetWarehousesForItemReservationQuery(itemId, qty);
      trace := trace + [WarehousesQueried(query)];
      r := Handle(env.warehouseStamps(query));
    }

    /** `createLocksForItem`: builds the generator; no lock is touched yet. */
    method CreateLocksForItem(rows: seq<ItemWarehouse>) returns (g: LockGenerator)
      ensures fresh(g) && g.rows == rows && !g.consumed
    {
      g := new LockGenerator(rows);
    }

    /** `releaseLocks`: runs the generator, which acquires each lock just before it is released. */
    method ReleaseLocks(g: LockGenerator)
      modifies this, g
      ensures trace == old(trace) + TraverseLocks(g.rows, old(g.consumed))
      ensures g.consumed
    {
      if g.consumed {
        return;
      }
      var i := 0;
      while i < |g.rows|
        invariant 0 <= i <= |g.rows|
        invariant trace == old(trace) + LockCycle(g.rows[..i])
      {
        var row := g.rows[i];
        var key := LockKeys.KeyOf(row);
        trace := trace + [LockAcquired(key, LockTtl)];
        trace := trace + [LockReleased(key)];
        assert g.rows[..i + 1][..i] == g.rows[..i];
        i := i + 1;
      }
      assert g.rows[..i] == g.rows;
      g.consumed := true;
    }

    /** `deleteReservationInWarehouses`. */
    method DeleteReservationInWarehouses(rows: seq<ItemWarehouse>)
      modifies this
      ensures trace == old(trace) + Removes(rows)
    {
      var i := 0;
      while i < |rows|
        invariant 0 <= i <= |rows|
        invariant trace == old(trace) + Removes(rows[..i])
      {
        trace := trace + [RemoveDispatched(RemoveCommand(rows[i]))];
        assert rows[..i + 1][..i] == rows[..i];
        i := i + 1;
      }
      assert rows[..i] == rows;
    }

    /** `revertTransation`. */
    method RevertTransaction(order: Order, rows: seq<ItemWarehouse>, itemLocks: LockGenerator)
      requires itemLocks.rows == rows
      modifies this, itemLocks
      ensures trace == old(trace) + Revert(order, rows, old(itemLocks.consumed))
      ensures itemLocks.consumed
    {
      trace := trace + [ReservationFailed(order.id)];
      DeleteReservationInWarehouses(rows);
      ReleaseLocks(itemLocks);
    }
  }
}
