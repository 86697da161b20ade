/**
 * The four situations the handler's unit tests set up, stated on the model:
 * no order, an order without items, an item both warehouses can cover, and an
 * item that one warehouse cannot.
 */
module SagaScenarios {
  import opened Wrappers
  import opened Domain
  import opened Messaging
  import opened Saga
  import LockKeys

  const TheItem := Item(1, 10)
  const TheOrder := Order(1, [TheItem])
  const BothWarehouses := [ItemWarehouse(99, 1, 5), ItemWarehouse(13, 1, 5)]
  const Warehouse99 := [ItemWarehouse(99, 1, 5)]

  /** Both Make commands go through: ten units counted, the generator untouched. */
  lemma {:induction false} BothWarehousesCommit(env: Env)
    requires !env.makeFails(MakeItemReservationInWarehouseCommand(99, 1, 5))
    requires !env.makeFails(MakeItemReservationInWarehouseCommand(13, 1, 5))
    ensures Commit(env, TheOrder, BothWarehouses, 2) == Progress(10, false,
      [MakeDispatched(MakeItemReservationInWarehouseCommand(99, 1, 5)), MakeDispatched(MakeItemReservationInWarehouseCommand(13, 1, 5))])
  {
    assert Commit(env, TheOrder, BothWarehouses, 1) == Progress(5, false, [MakeDispatched(MakeCommand(BothWarehouses[0]))]);
  }

  /** The order query answers null: one query, one warning, nothing else. */
  lemma {:induction false} NoOrderToProcess(env: Env)
    requires env.orderStamps == [HandledStamp(None, "HandlerName")]
    ensures Invoke(env) == Run(NoOrder, [OrderQueried, NoOrderWarning])
  {
  }

  /** An order with no items: the two info lines around nothing, then the event. */
  lemma {:induction false} NoItemsInOrder(env: Env)
    requires env.orderStamps == [HandledStamp(Some(Order(1, [])), "HandlerName")]
    ensures Invoke(env) == Run(Completed,
      [OrderQueried, ProcessStarted(1), ProcessFinished(1), EventDispatched(ReservationHasBeenMadeEvent(1))])
  {
  }

  /** An order of one item whose reservation passes: the item's effects between the info lines, then the event. */
  lemma {:induction false} SingleItemPasses(env: Env, order: Order, rows: seq<ItemWarehouse>, name: string, effects: seq<Effect>)
    requires |order.items| == 1
    requires Handle(env.orderStamps) == Ok(Some(order))
    requires env.warehouseStamps(WarehouseQuery(order.items[0])) == [HandledStamp(rows, name)]
    requires ReserveItem(env, order, 0, order.items[0], rows) == ItemRun(true, effects)
    ensures Invoke(env) == Run(Completed, [OrderQueried, ProcessStarted(order.id), WarehousesQueried(WarehouseQuery(order.items[0]))]
      + effects + [ProcessFinished(order.id), EventDispatched(ReservationHasBeenMadeEvent(order.id))])
  {
    var item := order.items[0];
    var step := [WarehousesQueried(WarehouseQuery(item))] + effects;
    assert ItemStep(env, order, 0) == Step(None, step);
    assert ReserveItems(env, order, 1) == Reserving(step);
  }

  /** An order of one item whose reservation falls short: the item's effects after the first info line, and no event. */
  lemma {:induction false} SingleItemFallsShort(env: Env, order: Order, rows: seq<ItemWarehouse>, name: string, effects: seq<Effect>)
    requires |order.items| == 1
    requires Handle(env.orderStamps) == Ok(Some(order))
    requires env.warehouseStamps(WarehouseQuery(order.items[0])) == [HandledStamp(rows, name)]
    requires ReserveItem(env, order, 0, order.items[0], rows) == ItemRun(false, effects)
    ensures Invoke(env) == Run(Failed(RequiredQtyHasNotBeenReserved(order.items[0])),
      [OrderQueried, ProcessStarted(order.id), WarehousesQueried(WarehouseQuery(order.items[0]))] + effects)
  {
    var item := order.items[0];
    var step := [WarehousesQueried(WarehouseQuery(item))] + effects;
    assert ItemStep(env, order, 0) == Step(Some(Failed(RequiredQtyHasNotBeenReserved(item))), step);
  }

  /**
   * Ten units of item 1, five in warehouse 99 and five in warehouse 13: two
   * Make commands, the reservation saved, both locks cycled, the event sent.
   */
  lemma {:induction false} AllItemsAvailable(env: Env)
    requires env.orderStamps == [HandledStamp(Some(TheOrder), "HandlerName")]
    requires env.warehouseStamps(WarehouseQuery(TheItem))
          == [HandledStamp([ItemWarehouse(99, 1, 5), ItemWarehouse(13, 1, 5)], "HandlerName")]
    requires !env.makeFails(MakeItemReservationInWarehouseCommand(99, 1, 5))
    requires !env.makeFails(MakeItemReservationInWarehouseCommand(13, 1, 5))
    ensures Invoke(env) == Run(Completed, [
      OrderQueried,
      ProcessStarted(1),
      WarehousesQueried(GetWarehousesForItemReservationQuery(1, 10)),
      MakeDispatched(MakeItemReservationInWarehouseCommand(99, 1, 5)),
      MakeDispatched(MakeItemReservationInWarehouseCommand(13, 1, 5)),
      Saved(Reservation(env.clock(0), TheOrder, TheItem, [ItemWarehouse(99, 1, 5), ItemWarehouse(13, 1, 5)])),
      LockAcquired(LockKeys.Key(99, 1), LockTtl),
      LockReleased(LockKeys.Key(99, 1)),
      LockAcquired(LockKeys.Key(13, 1), LockTtl),
      LockReleased(LockKeys.Key(13, 1)),
      ProcessFinished(1),
      EventDispatched(ReservationHasBeenMadeEvent(1))])
  {
    var rows := BothWarehouses;
    var make99, make13 := MakeDispatched(MakeCommand(rows[0])), MakeDispatched(MakeCommand(rows[1]));
    BothWarehousesCommit(env);
    assert rows[..1] == [rows[0]];
    assert LockCycle(rows) == LockPair(rows[0]) + LockPair(rows[1]);
    var saved := Saved(Reservation(env.clock(0), TheOrder, TheItem, rows));
    var run := [make99, make13, saved] + LockPair(rows[0]) + LockPair(rows[1]);
    assert ReserveItem(env, TheOrder, 0, TheItem, rows) == ItemRun(true, run);
    SingleItemPasses(env, TheOrder, rows, "HandlerName", run);
  }

  /**
   * Ten units of item 1 but only five in warehouse 99: the Make command, then
   * the revert (error line, Remove command, the lock cycled) and no event.
   */
  lemma {:induction false} OneItemNotAvailable(env: Env)
    requires env.orderStamps == [HandledStamp(Some(TheOrder), "HandlerName")]
    requires env.warehouseStamps(WarehouseQuery(TheItem)) == [HandledStamp([ItemWarehouse(99, 1, 5)], "HandlerName")]
    requires !env.makeFails(MakeItemReservationInWarehouseCommand(99, 1, 5))
    ensures Invoke(env) == Run(Failed(RequiredQtyHasNotBeenReserved(TheItem)), [
      OrderQueried,
      ProcessStarted(1),
      WarehousesQueried(GetWarehousesForItemReservationQuery(1, 10)),
      MakeDispatched(MakeItemReservationInWarehouseCommand(99, 1, 5)),
      ReservationFailed(1),
      RemoveDispatched(RemoveReservationFromWarehouseCommand(99, 1)),
      LockAcquired(LockKeys.Key(99, 1), LockTtl),
      LockReleased(LockKeys.Key(99, 1))])
  {
    var rows := Warehouse99;
    var make99 := MakeDispatched(MakeCommand(rows[0]));
    assert Commit(env, TheOrder, rows, 1) == Progress(5, false, [make99]);
    assert Removes(rows) == [RemoveDispatched(RemoveCommand(rows[0]))];
    assert LockCycle(rows) == LockPair(rows[0]);
    var run := [make99, ReservationFailed(1), RemoveDispatched(RemoveCommand(rows[0]))] + LockPair(rows[0]);
    assert ReserveItem(env, TheOrder, 0, TheItem, rows) == ItemRun(false, run);
    SingleItemFallsShort(env, TheOrder, rows, "HandlerName", run);
  }
}
