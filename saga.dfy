/**
 * What `OrderCreatedEventHandler::__invoke` does, as a function of its
 * environment: the answers of the query bus, which Make commands the command
 * bus rejects, and the clock. The result is the outcome together with the
 * ordered trace of everything the handler did to the outside world.
 */
module Saga {
  import opened Wrappers
  import opened Domain
  import opened Messaging
  import LockKeys

  /** The TTL every item lock is created with. */
  const LockTtl := 300

  /** One observable action of the handler, in the order it happens. */
  datatype Effect =
    | OrderQueried                                            // GetMostProfitableOrderQuery sent
    | NoOrderWarning                                          // the warning when there is no order
    | ProcessStarted(orderId: int)                            // the first info line
    | WarehousesQueried(query: GetWarehousesForItemReservationQuery)
    | MakeDispatched(make: MakeItemReservationInWarehouseCommand)
    | RemoveDispatched(remove: RemoveReservationFromWarehouseCommand)
    | ReservationFailed(orderId: int)                         // the error line of a revert
    | LockAcquired(key: LockKeys.Key, ttl: int)                // handler's lock name: GenerateLockKey of the pair
    | LockReleased(key: LockKeys.Key)
    | Saved(reservation: Reservation)
    | ProcessFinished(orderId: int)                           // the second info line
    | EventDispatched(event: ReservationHasBeenMadeEvent)

  datatype SagaError =
    | RequiredQtyHasNotBeenReserved(item: Item)
    | Routing(error: RoutingError)

  datatype Outcome = NoOrder | Completed | Failed(error: SagaError)

  /**
   * The collaborators: the handled stamps the query bus returns for the order
   * query and for each warehouse query, whether the command bus throws a
   * RuntimeException for a Make command, and `time()` when the reservation of
   * the item at a given position is built.
   */
  datatype Env = Env(
    orderStamps: seq<HandledStamp<Option<Order>>>,
    warehouseStamps: GetWarehousesForItemReservationQuery -> seq<HandledStamp<seq<ItemWarehouse>>>,
    makeFails: MakeItemReservationInWarehouseCommand -> bool,
    clock: nat -> int)

  function MakeCommand(row: ItemWarehouse): MakeItemReservationInWarehouseCommand
  {
    MakeItemReservationInWarehouseCommand(row.id, row.itemId, row.qty)
  }

  function RemoveCommand(row: ItemWarehouse): RemoveReservationFromWarehouseCommand
  {
    RemoveReservationFromWarehouseCommand(row.id, row.itemId)
  }

  function WarehouseQuery(item: Item): GetWarehousesForItemReservationQuery
  {
    GetWarehousesForItemReservationQuery(item.id, item.qty)
  }

  /** What one step of the lock generator and the loop consuming it do: acquire, then release. */
  function LockPair(row: ItemWarehouse): seq<Effect>
  {
    [LockAcquired(LockKeys.KeyOf(row), LockTtl), LockReleased(LockKeys.KeyOf(row))]
  }

  /** One full traversal of the lock generator by `releaseLocks`. */
  function LockCycle(rows: seq<ItemWarehouse>): seq<Effect>
  {
    if rows == [] then [] else LockCycle(rows[..|rows| - 1]) + LockPair(rows[|rows| - 1])
  }

  /** `releaseLocks`: the generator runs once; once consumed it yields nothing more. */
  function TraverseLocks(rows: seq<ItemWarehouse>, consumed: bool): seq<Effect>
  {
    if consumed then [] else LockCycle(rows)
  }

  /** `deleteReservationInWarehouses`: one Remove command per chosen row. */
  function Removes(rows: seq<ItemWarehouse>): seq<Effect>
  {
    if rows == [] then [] else Removes(rows[..|rows| - 1]) + [RemoveDispatched(RemoveCommand(rows[|rows| - 1]))]
  }

  /** `revertTransation`: log, remove every chosen row, release the locks. */
  function Revert(order: Order, rows: seq<ItemWarehouse>, consumed: bool): seq<Effect>
  {
    [ReservationFailed(order.id)] + Removes(rows) + TraverseLocks(rows, consumed)
  }

  /** The state of the inner loop: `reservedQty`, whether the lock generator has run, and the effects so far. */
  datatype Progress = Progress(reserved: int, consumed: bool, effects: seq<Effect>)

  /** One pass of the inner loop: dispatch the Make command; revert if it throws, else count its quantity. */
  function Dispatch(env: Env, order: Order, rows: seq<ItemWarehouse>, row: ItemWarehouse, p: Progress): Progress
  {
    var make := MakeCommand(row);
    if env.makeFails(make) then
      Progress(p.reserved, true, p.effects + [MakeDispatched(make)] + Revert(order, rows, p.consumed))
    else
      Progress(p.reserved + row.qty, p.consumed, p.effects + [MakeDispatched(make)])
  }

  /** The inner loop after its first `k` rows. */
  function Commit(env: Env, order: Order, rows: seq<ItemWarehouse>, k: nat): Progress
    requires k <= |rows|
  {
    if k == 0 then Progress(0, false, [])
    else Dispatch(env, order, rows, rows[k - 1], Commit(env, order, rows, k - 1))
  }

  datatype ItemRun = ItemRun(passed: bool, effects: seq<Effect>)

  /** The body of the outer loop for the item at position `pos`, once its rows are known. */
  function ReserveItem(env: Env, order: Order, pos: nat, item: Item, rows: seq<ItemWarehouse>): ItemRun
    requires pos < |order.items| && ReserveItems(env, order, pos).Reserving?
    decreases 3 * pos + 1
  {
    var c := Commit(env, order, rows, |rows|);
    if item.qty > c.reserved then
      ItemRun(false, c.effects + Revert(order, rows, c.consumed))
    else
      ItemRun(true, c.effects + [Saved(Reservation(env.clock(pos), order, item, rows))] + TraverseLocks(rows, c.consumed))
  }

  /** What one pass of the outer loop does: its effects, and the outcome if it ends the saga. */
  datatype Step = Step(stop: Option<Outcome>, effects: seq<Effect>)

  /** One pass of the outer loop: ask for the item's rows, then reserve them. */
  function ItemStep(env: Env, order: Order, j: nat): Step
    requires j < |order.items|
    requires ReserveItems(env, order, j).Reserving?
    decreases 3 * j + 2
  {
    var item := order.items[j];
    var query := WarehouseQuery(item);
    var chosen := Handle(env.warehouseStamps(query));
    if chosen.Err? then Step(Some(Failed(Routing(chosen.error))), [WarehousesQueried(query)])
    else
      var r := ReserveItem(env, order, j, item, chosen.value);
      Step(if r.passed then None else Some(Failed(RequiredQtyHasNotBeenReserved(item))),
           [WarehousesQueried(query)] + r.effects)
  }

  /** The outer loop after its first `j` passes: still going, or stopped by an error. */
  datatype Sweep = Reserving(effects: seq<Effect>) | Stopped(outcome: Outcome, effects: seq<Effect>)

  /** The outer loop after the items before position `j`. */
  function ReserveItems(env: Env, order: Order, j: nat): Sweep
    requires j <= |order.items|
    decreases 3 * j
  {
    if j == 0 then Reserving([])
    else
      var s := ReserveItems(env, order, j - 1);
      if s.Stopped? then s
      else
        var step := ItemStep(env, order, j - 1);
        if step.stop.Some? then Stopped(step.stop.value, s.effects + step.effects)
        else Reserving(s.effects + step.effects)
  }

  datatype Run = Run(outcome: Outcome, effects: seq<Effect>)

  /** The whole outer loop, then the closing log line and the event. */
  function ReserveAll(env: Env, order: Order): Run
  {
    var s := ReserveItems(env, order, |order.items|);
    if s.Stopped? then Run(s.outcome, s.effects)
    else Run(Completed, s.effects + [ProcessFinished(order.id), EventDispatched(ReservationHasBeenMadeEvent(order.id))])
  }

  /** Once an item has stopped the loop, no later pass changes anything. */
  lemma {:induction false} StoppedStays(env: Env, order: Order, j: nat, k: nat)
    requires j <= k <= |order.items|
    requires ReserveItems(env, order, j).Stopped?
    ensures ReserveItems(env, order, k) == ReserveItems(env, order, j)
    decreases k - j
  {
    if j < k {
      StoppedStays(env, order, j, k - 1);
    }
  }

  lemma AppendAssoc(a: seq<Effect>, b: seq<Effect>, c: seq<Effect>, d: seq<Effect>)
    ensures a + b + c + d == a + (b + c + d)
    ensures a + b + c + d == (a + b + c) + d
  {
  }

  /** `__invoke`. */
  function Invoke(env: Env): Run
  {
    var found := Handle(env.orderStamps);
    if found.Err? then Run(Failed(Routing(found.error)), [OrderQueried])
    else if found.value.None? then Run(NoOrder, [OrderQueried, NoOrderWarning])
    else
      var order := found.value.value;
      var r := ReserveAll(env, order);
      Run(r.outcome, [OrderQueried, ProcessStarted(order.id)] + r.effects)
  }
}
