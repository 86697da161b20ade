# Order reservation saga — a Dafny model

This project models the reservation workflow of the order service. When an
order has been created, `OrderCreatedEventHandler` does the following:

- It asks the query bus for the most profitable order.
- For each item of that order:
  - it asks which warehouse rows should supply the item;
  - it sends one `MakeItemReservationInWarehouseCommand` per row and adds up
    the quantities of the commands that went through;
  - if the sum falls short, it reverts: one
    `RemoveReservationFromWarehouseCommand` per row, release of the item's
    locks, `RequiredQtyHasNotBeenReservedException`;
  - otherwise it saves a `Reservation` and releases the item's locks.
- When every item has passed, it emits `ReservationHasBeenMadeEvent`.

The model also covers two pieces of the warehouse side:

- how the repository shapes the rows it returns: filter by item (and, for one
  query, by warehouse), order by priority then stock, clamp each quantity;
- how an item row computes its available quantity (`Item::getQty`).

Modules:

- `Wrappers`, `Domain`: `Option`/`Result`, and the orders, items, warehouse
  rows, reservations, commands, queries and events as datatypes.
- `Messaging`: `handle`, the "exactly one handler" rule applied to the handled
  stamps of a query.
- `LockKeys`: the lock key as written (`%c-%c`) and a decimal key that can be
  parsed back.
- `Saga`: what `__invoke` does, as functions of an environment `Env`. The
  environment holds:
  - the stamps the query bus returns for the order query and for each
    warehouse query;
  - which Make commands throw;
  - the clock.

  The result is an outcome (`NoOrder`, `Completed`, `Failed`) and the ordered
  trace of effects: queries, commands, log lines, lock acquire/release, saves
  and the event.
- `ReservationHandler`: the handler as a class. Its field `trace` records the
  effects. Its methods follow the PHP methods loop for loop. Each method is
  proved to produce exactly the trace and result the `Saga` functions give.
- `SagaProperties`: what the saga promises, proved on the `Saga` functions:
  - every row gets its Make command;
  - the reserved quantity is the sum over the commands that went through;
  - a shortfall removes every row and releases the locks;
  - a pass saves exactly one reservation;
  - the event is sent once, last, and only on completion;
  - earlier reservations stay saved when a later item fails.
- `SagaScenarios`: the four situations of the handler's unit tests, as lemmas.
- `WarehouseEntities`: `Item::getQty`, as written and as intended.
- `ItemWarehouseRepository`: `mapItemsToItemWarehouse` and the selection and
  ordering of `getWarehousesForItem` / `getFromInvolvedWhs` over an in-memory
  table.

Locks appear in the trace as `LockAcquired(key, ttl)` / `LockReleased(key)`,
where `key` is the (warehouse id, item id) pair of the row. The handler names
the lock `LockKeys.GenerateLockKey` of that row, which depends on the row only
through this pair (`LockKeys.GenerateLockKeyOfKey`). That name keeps only the
low byte of each id, so two different trace keys are one lock in the handler
exactly when both ids agree modulo 256 (`LockKeys.GenerateLockKeyEqualIff`).
The trace therefore tells apart locks that the handler merges; the decimal key
`LockKeys.LockKey` of the findings below would make them distinct
(`LockKeys.LockKeyInjective`).

## Model

| member | source | states |
|---|---|---|
| Messaging.Handle | src/Application/Reservation/EventHandler/OrderCreatedEventHandler.php:139-155 | a result exactly when there is one stamp, and then it is that stamp's result; "handled zero times" exactly when there is none; "handled multiple times" with the count and the handler names when there are more |
| Messaging.HandlerNames | src/Application/Reservation/EventHandler/OrderCreatedEventHandler.php:148-150 | one name per stamp, in stamp order |
| LockKeys.ByteChar | src/Application/Reservation/EventHandler/OrderCreatedEventHandler.php:130 | `%c` prints the integer's low byte (value mod 256) |
| LockKeys.GenerateLockKey | src/Application/Reservation/EventHandler/OrderCreatedEventHandler.php:128-131 | the key as written is three characters with '-' in the middle |
| LockKeys.GenerateLockKeyEqualIff | src/Application/Reservation/EventHandler/OrderCreatedEventHandler.php:128-131 | two rows get the same key as written iff their warehouse ids and their item ids agree modulo 256 |
| LockKeys.GenerateLockKeyOfKey | src/Application/Reservation/EventHandler/OrderCreatedEventHandler.php:128-131 | rows with the same (warehouse id, item id) pair get the same key as written, so the trace's pair determines the handler's lock name |
| LockKeys.GenerateLockKeyCollision | src/Application/Reservation/EventHandler/OrderCreatedEventHandler.php:128-131 | warehouses 1 and 257 holding item 1 share one lock key |
| LockKeys.LockKeyRoundTrip | src/Application/Reservation/EventHandler/OrderCreatedEventHandler.php:128-131 | the decimal key parses back to the row's (warehouse id, item id) |
| LockKeys.LockKeyInjective | src/Application/Reservation/EventHandler/OrderCreatedEventHandler.php:128-131 | two rows get the same decimal key iff they have the same warehouse id and item id |
| Saga.LockCycle | src/Application/Reservation/EventHandler/OrderCreatedEventHandler.php:88-96 | one full traversal of the generator: for each row in order, its lock acquired with TTL 300 and then released; `SagaProperties.LockCycleShape` states it position by position |
| Saga.TraverseLocks | src/Application/Reservation/EventHandler/OrderCreatedEventHandler.php:114-119 | `releaseLocks`: a fresh generator yields the full lock cycle, a spent one nothing (see Left out) |
| Saga.Removes | src/Application/Reservation/EventHandler/OrderCreatedEventHandler.php:121-126 | `deleteReservationInWarehouses`: one Remove command per row; `SagaProperties.RemovesShape` states it position by position |
| Saga.Revert | src/Application/Reservation/EventHandler/OrderCreatedEventHandler.php:162-167 | `revertTransation`: the error line, the Remove commands of all rows, then the lock traversal; `SagaProperties.RevertRemoves`, `RevertLocks`, `RevertMakes` and `RevertQuiet` state what it emits |
| Saga.Dispatch | src/Application/Reservation/EventHandler/OrderCreatedEventHandler.php:60-67 | one pass of the inner loop: the Make command, then a revert if it throws, else its quantity added to `reservedQty`; properties in `SagaProperties.DispatchMakes`, `DispatchRemoves`, `DispatchLocks`, `DispatchQuiet` |
| Saga.Commit | src/Application/Reservation/EventHandler/OrderCreatedEventHandler.php:59-68 | the inner loop over the first k rows, starting from `reservedQty = 0` and a fresh generator; properties in `SagaProperties.CommitReserved`, `CommitMakes`, `CommitRemoves`, `CommitLocks` |
| Saga.ReserveItem | src/Application/Reservation/EventHandler/OrderCreatedEventHandler.php:58-77 | the item body once its rows are known: the inner loop, then the shortfall revert, or the save and the lock release; properties in `SagaProperties.ItemPassed`, `ShortPath`, `PassPath`, `ItemSaves`, `ItemLocks` |
| Saga.ItemStep | src/Application/Reservation/EventHandler/OrderCreatedEventHandler.php:57-77 | one pass of the outer loop: the warehouse query, then the item body; it stops the saga on a routing error or a shortfall (`SagaProperties.StepStop`, `StepSaves`) |
| Saga.ReserveItems | src/Application/Reservation/EventHandler/OrderCreatedEventHandler.php:55-78 | the outer loop after its first j passes, leaving it at the first pass that throws; properties in `Saga.StoppedStays`, `SagaProperties.SweepPrefix`, `SweepSaves`, `SweepStopsFailed` |
| Saga.ReserveAll | src/Application/Reservation/EventHandler/OrderCreatedEventHandler.php:55-81 | the outer loop, then on completion the closing info line and the event (`SagaProperties.ReserveAllSaves`, `ReserveAllEvent`) |
| Saga.Invoke | src/Application/Reservation/EventHandler/OrderCreatedEventHandler.php:45-82 | `__invoke`: the order query, the warning on null, else the opening info line and `ReserveAll`; a routing error of the order query ends it (`SagaProperties.InvokeNoOrder`, `InvokeEvent`, `InvokeCompleted`) |
| Saga.StoppedStays | src/Application/Reservation/EventHandler/OrderCreatedEventHandler.php:69-74 | once an item has thrown, later items change neither the trace nor the outcome |
| ReservationHandler.LockGenerator.constructor | src/Application/Reservation/EventHandler/OrderCreatedEventHandler.php:88-96 | a fresh generator over the rows that has not run yet |
| ReservationHandler.OrderCreatedEventHandler.constructor | src/Application/Reservation/EventHandler/OrderCreatedEventHandler.php:33-43 | the handler starts with an empty trace over the given collaborators |
| ReservationHandler.OrderCreatedEventHandler.Invoke | src/Application/Reservation/EventHandler/OrderCreatedEventHandler.php:45-82 | appends exactly `Saga.Invoke(env).effects` to the trace and returns its outcome |
| ReservationHandler.OrderCreatedEventHandler.ReserveOrderItems | src/Application/Reservation/EventHandler/OrderCreatedEventHandler.php:55-81 | the item loop, then the closing log line and the event, are exactly `ReserveAll` |
| ReservationHandler.OrderCreatedEventHandler.SweepItems | src/Application/Reservation/EventHandler/OrderCreatedEventHandler.php:55-78 | the outer loop leaves the trace of `ReserveItems` over all items and reports its stop, if any |
| ReservationHandler.OrderCreatedEventHandler.AdvanceSweep | src/Application/Reservation/EventHandler/OrderCreatedEventHandler.php:55-78 | one more pass takes the loop state for the first j items to that for the first j+1 |
| ReservationHandler.OrderCreatedEventHandler.ReserveNextItem | src/Application/Reservation/EventHandler/OrderCreatedEventHandler.php:57-77 | one pass of the outer loop appends exactly `ItemStep`'s effects and returns its stop |
| ReservationHandler.OrderCreatedEventHandler.ReserveItemInWarehouses | src/Application/Reservation/EventHandler/OrderCreatedEventHandler.php:58-77 | the per-item body appends exactly `ReserveItem`'s effects and returns whether the item passed |
| ReservationHandler.OrderCreatedEventHandler.DispatchMakeCommands | src/Application/Reservation/EventHandler/OrderCreatedEventHandler.php:59-68 | the inner loop's trace, `reservedQty` and generator state are those of `Commit` over all rows |
| ReservationHandler.OrderCreatedEventHandler.GetMostProfitableOrderToProcess | src/Application/Reservation/EventHandler/OrderCreatedEventHandler.php:98-101 | one order query, answered by `Handle` on its stamps |
| ReservationHandler.OrderCreatedEventHandler.GetWarehousesForItemReservation | src/Application/Reservation/EventHandler/OrderCreatedEventHandler.php:106-109 | one warehouse query with the item id and quantity, answered by `Handle` on its stamps |
| ReservationHandler.OrderCreatedEventHandler.CreateLocksForItem | src/Application/Reservation/EventHandler/OrderCreatedEventHandler.php:88-96 | builds the generator and touches no lock |
| ReservationHandler.OrderCreatedEventHandler.ReleaseLocks | src/Application/Reservation/EventHandler/OrderCreatedEventHandler.php:114-119 | the first traversal acquires and releases each row's lock (TTL 300) in row order; the generator is spent afterwards |
| ReservationHandler.OrderCreatedEventHandler.DeleteReservationInWarehouses | src/Application/Reservation/EventHandler/OrderCreatedEventHandler.php:121-126 | one Remove command per row, in row order |
| ReservationHandler.OrderCreatedEventHandler.RevertTransaction | src/Application/Reservation/EventHandler/OrderCreatedEventHandler.php:162-167 | error line, Remove commands, lock traversal, in that order; the generator is spent afterwards |
| SagaProperties.MakeEffects | src/Application/Reservation/EventHandler/OrderCreatedEventHandler.php:62 | one Make command per row carrying that row's warehouse id, item id and quantity, in row order |
| SagaProperties.RemovesShape | src/Application/Reservation/EventHandler/OrderCreatedEventHandler.php:121-126 | the Remove commands carry each row's warehouse id and item id, one per row, in order |
| SagaProperties.LockCycleShape | src/Application/Reservation/EventHandler/OrderCreatedEventHandler.php:88-96 | a lock traversal acquires row i's lock with TTL 300 and releases it right after, for every row in order |
| SagaProperties.CommitReserved | src/Application/Reservation/EventHandler/OrderCreatedEventHandler.php:59-68 | `reservedQty` is the sum of the quantities of the rows whose Make command did not throw; the locks have been traversed iff some command threw |
| SagaProperties.Failures | src/Application/Reservation/EventHandler/OrderCreatedEventHandler.php:60-66 | the number of rows whose Make command throws, i.e. of exceptions the inner loop catches; it is the reference count against which `CommitReserved`, `CommitRemoves` and `CommitLocks` are stated (and it never exceeds the number of rows) |
| SagaProperties.RevertMakes | src/Application/Reservation/EventHandler/OrderCreatedEventHandler.php:162-167 | a revert sends no Make command |
| SagaProperties.DispatchMakes | src/Application/Reservation/EventHandler/OrderCreatedEventHandler.php:62 | one pass of the inner loop adds exactly its row's Make command |
| SagaProperties.DispatchRemoves | src/Application/Reservation/EventHandler/OrderCreatedEventHandler.php:62-66 | one pass adds a removal of every row iff its Make command throws, and no Remove command otherwise |
| SagaProperties.DispatchLocks | src/Application/Reservation/EventHandler/OrderCreatedEventHandler.php:62-66 | one pass traverses the lock generator iff its Make command throws |
| SagaProperties.DispatchQuiet | src/Application/Reservation/EventHandler/OrderCreatedEventHandler.php:62-66 | one pass of the inner loop neither saves nor emits an event |
| SagaProperties.RevertRemoves | src/Application/Reservation/EventHandler/OrderCreatedEventHandler.php:162-167 | a revert removes every chosen row, not only the committed ones |
| SagaProperties.RevertLocks | src/Application/Reservation/EventHandler/OrderCreatedEventHandler.php:162-167 | a revert's lock effects are one traversal of the generator |
| SagaProperties.RevertQuiet | src/Application/Reservation/EventHandler/OrderCreatedEventHandler.php:162-167 | a revert neither saves nor emits an event |
| SagaProperties.CommitMakes | src/Application/Reservation/EventHandler/OrderCreatedEventHandler.php:60-68 | every row gets exactly one Make command, in row order, even after an earlier command threw |
| SagaProperties.CommitRemoves | src/Application/Reservation/EventHandler/OrderCreatedEventHandler.php:60-68 | each thrown Make command removes all rows once more |
| SagaProperties.CommitLocks | src/Application/Reservation/EventHandler/OrderCreatedEventHandler.php:60-68 | the inner loop traverses the locks once if some command threw, else not at all |
| SagaProperties.CommitQuiet | src/Application/Reservation/EventHandler/OrderCreatedEventHandler.php:60-68 | the inner loop neither saves nor emits an event |
| SagaProperties.CommitFirst | src/Application/Reservation/EventHandler/OrderCreatedEventHandler.php:58-62 | the first effect of the inner loop is the first row's Make command, so no lock is taken before it |
| SagaProperties.CommitClean | src/Application/Reservation/EventHandler/OrderCreatedEventHandler.php:60-68 | with no thrown command the inner loop is exactly the Make commands and leaves the generator unrun |
| SagaProperties.ItemPassed | src/Application/Reservation/EventHandler/OrderCreatedEventHandler.php:69 | an item passes iff its quantity is at most the committed sum; over-reservation passes |
| SagaProperties.ShortPath | src/Application/Reservation/EventHandler/OrderCreatedEventHandler.php:69-74 | on a shortfall the item's effects are the inner loop then a revert |
| SagaProperties.PassPath | src/Application/Reservation/EventHandler/OrderCreatedEventHandler.php:75-77 | on a pass the item's effects are the inner loop, the save, then the lock traversal |
| SagaProperties.ItemMakes | src/Application/Reservation/EventHandler/OrderCreatedEventHandler.php:58-77 | an item sends exactly one Make command per row and no other Make commands |
| SagaProperties.ItemRemovesShort | src/Application/Reservation/EventHandler/OrderCreatedEventHandler.php:64-74 | a short item removes all rows once per thrown command plus once for the shortfall |
| SagaProperties.ItemRemovesPass | src/Application/Reservation/EventHandler/OrderCreatedEventHandler.php:64-77 | a passing item removes all rows once per thrown command and no more |
| SagaProperties.LoopRemoves | src/Application/Reservation/EventHandler/OrderCreatedEventHandler.php:60-68 | the Remove commands of the whole inner loop: all rows, once per thrown command |
| SagaProperties.ShortRemoves | src/Application/Reservation/EventHandler/OrderCreatedEventHandler.php:69-74 | the revert after a shortfall adds one more removal of every row |
| SagaProperties.PassRemoves | src/Application/Reservation/EventHandler/OrderCreatedEventHandler.php:75-77 | saving and releasing the locks after a pass adds no Remove command |
| SagaProperties.ItemLocks | src/Application/Reservation/EventHandler/OrderCreatedEventHandler.php:58-77 | whatever path an item takes, its lock effects are exactly one traversal: each lock acquired and released once |
| SagaProperties.ItemSaves | src/Application/Reservation/EventHandler/OrderCreatedEventHandler.php:69-76 | a passing item saves exactly one reservation holding the order, the item and the unchanged rows; a short one saves nothing; neither emits an event |
| SagaProperties.ItemStartsWithMake | src/Application/Reservation/EventHandler/OrderCreatedEventHandler.php:58-62 | an item with rows starts with its first Make command: locks are acquired late |
| SagaProperties.ItemHappyPath | src/Application/Reservation/EventHandler/OrderCreatedEventHandler.php:59-77 | with no thrown command and enough quantity: the Make commands, the save, then each lock acquired and released |
| SagaProperties.StepStop | src/Application/Reservation/EventHandler/OrderCreatedEventHandler.php:57-74 | a pass stops the saga with the routing error of the warehouse query, or with `RequiredQtyHasNotBeenReserved` on a shortfall, and otherwise continues |
| SagaProperties.StepSaves | src/Application/Reservation/EventHandler/OrderCreatedEventHandler.php:69-76 | a pass saves one reservation (clock, order, item, chosen rows) iff it continues; it never emits the event |
| SagaProperties.SweepPrefix | src/Application/Reservation/EventHandler/OrderCreatedEventHandler.php:55-78 | later passes only append to the trace, never change what earlier items did |
| SagaProperties.SweepGrows | src/Application/Reservation/EventHandler/OrderCreatedEventHandler.php:55-78 | each pass of the outer loop extends the trace of the passes before it |
| SagaProperties.SweepSaves | src/Application/Reservation/EventHandler/OrderCreatedEventHandler.php:55-78 | the saves so far are one per item, in item order, each with that item's rows; all earlier items are saved while the loop runs; fewer than the items passed once it stopped; no event |
| SagaProperties.SweepStopsFailed | src/Application/Reservation/EventHandler/OrderCreatedEventHandler.php:55-78 | the item loop only stops with a failure |
| SagaProperties.StoppedAt | src/Application/Reservation/EventHandler/OrderCreatedEventHandler.php:55-78 | a stopped loop was stopped by one item: a position where it was still going and the next where it had stopped |
| SagaProperties.StoppedSaves | src/Application/Reservation/EventHandler/OrderCreatedEventHandler.php:55-78 | when item m stops the loop, exactly m reservations are saved in the whole loop |
| SagaProperties.ReserveAllSaves | src/Application/Reservation/EventHandler/OrderCreatedEventHandler.php:55-81 | the saga completes iff one reservation per item was saved, in item order; otherwise it failed, some item m stopped the loop, and exactly the m reservations of the items before it stay saved |
| SagaProperties.ReserveAllEvent | src/Application/Reservation/EventHandler/OrderCreatedEventHandler.php:80-81 | the event carrying the order id appears once, as the last effect, iff the saga completes |
| SagaProperties.InvokeNoOrder | src/Application/Reservation/EventHandler/OrderCreatedEventHandler.php:47-52 | the outcome is "no order" iff the order query answers null; then the only effects are the query and the warning |
| SagaProperties.InvokeEmptyOrder | src/Application/Reservation/EventHandler/OrderCreatedEventHandler.php:53-81 | an order without items gives two info lines and the event with its id, and no command |
| SagaProperties.StartQuiet | src/Application/Reservation/EventHandler/OrderCreatedEventHandler.php:46-53 | the order query and the opening info line carry no event |
| SagaProperties.InvokeEvent | src/Application/Reservation/EventHandler/OrderCreatedEventHandler.php:45-82 | on completion the event with the order's id is emitted once and last; on any other outcome no event is emitted |
| SagaProperties.InvokeCompleted | src/Application/Reservation/EventHandler/OrderCreatedEventHandler.php:45-82 | the saga completes iff an order was found and every one of its items got its reservation saved, in item order |
| SagaScenarios.NoOrderToProcess | tests/Application/Reservation/EventHandler/OrderCreatedEventHandlerTest.php:45-64 | a null order: one query, one warning, nothing else |
| SagaScenarios.NoItemsInOrder | tests/Application/Reservation/EventHandler/OrderCreatedEventHandlerTest.php:66-92 | order 1 without items: two info lines and one event for order 1 |
| SagaScenarios.BothWarehousesCommit | tests/Application/Reservation/EventHandler/OrderCreatedEventHandlerTest.php:94-145 | two accepted Make commands of 5 reserve 10 and leave the generator unrun |
| SagaScenarios.SingleItemPasses | src/Application/Reservation/EventHandler/OrderCreatedEventHandler.php:45-82 | a one-item order whose item passes: query, info, the item's effects, info, event |
| SagaScenarios.SingleItemFallsShort | src/Application/Reservation/EventHandler/OrderCreatedEventHandler.php:45-74 | a one-item order whose item falls short: query, info, the item's effects, and the shortfall error |
| SagaScenarios.AllItemsAvailable | tests/Application/Reservation/EventHandler/OrderCreatedEventHandlerTest.php:94-145 | 10 units from warehouses 99 and 13 (5 each): two Make commands, the save, both locks cycled, two info lines, the event |
| SagaScenarios.OneItemNotAvailable | tests/Application/Reservation/EventHandler/OrderCreatedEventHandlerTest.php:147-200 | 10 units but only 5 in warehouse 99: one Make command, the error line, one Remove command, the lock cycled, the shortfall exception, no event |
| WarehouseEntities.Reserved | src/Infrastructure/Warehouse/Entity/Item.php:35-39 | the reserved sum: the reservation quantities folded left from 0, as `array_reduce` walks the list; `ReservedAppend` and `ReservedPermutation` state its properties |
| WarehouseEntities.GetQty | src/Infrastructure/Warehouse/Entity/Item.php:33-40 | the available quantity: stock minus the reserved sum; `GetQtyAddReservation`, `GetQtyOrderIndependent` and `GetQtyAtMostStock` state its properties |
| WarehouseEntities.ReservedAppend | src/Infrastructure/Warehouse/Entity/Item.php:35-39 | the reserved sum of two lists is the sum of their sums |
| WarehouseEntities.GetQtyNoReservations | src/Infrastructure/Warehouse/Entity/Item.php:35 | with no reservations the available quantity is the stock |
| WarehouseEntities.GetQtyAddReservation | src/Infrastructure/Warehouse/Entity/Item.php:35-39 | one more reservation of q lowers the available quantity by exactly q |
| WarehouseEntities.ReservedPermutation | src/Infrastructure/Warehouse/Entity/Item.php:35-39 | the reserved sum depends only on the multiset of reservations |
| WarehouseEntities.GetQtyOrderIndependent | src/Infrastructure/Warehouse/Entity/Item.php:35-39 | reordering the reservations does not change the available quantity |
| WarehouseEntities.ReservedNonNegative | src/Infrastructure/Warehouse/Entity/Item.php:35-39 | non-negative reservations sum to a non-negative amount |
| WarehouseEntities.GetQtyAtMostStock | src/Infrastructure/Warehouse/Entity/Item.php:35-39 | with non-negative reservations the available quantity never exceeds the stock |
| WarehouseEntities.GetQtyAsWritten | src/Infrastructure/Warehouse/Entity/Item.php:23-40 | as written, `getQty` fails with a TypeError on the collection object the entity always holds, even an empty one; on a plain array it fails on the first reservation (null carry) and succeeds, with the stock, only when the array is empty |
| WarehouseEntities.GetQtyAsWrittenFails | src/Infrastructure/Warehouse/Entity/Item.php:23-40 | a new item with stock 10 and no reservations fails where the intended value is 10; an array holding one reservation of 3 fails where it is 7 |
| ItemWarehouseRepository.ClampedQty | src/Infrastructure/Warehouse/Repository/ItemWarehouseRepository.php:86 | the clamp is the smaller of the available and the requested quantity |
| ItemWarehouseRepository.MapItemsToItemWarehouse | src/Infrastructure/Warehouse/Repository/ItemWarehouseRepository.php:80-90 | same length and order as the rows; each output has the row's warehouse id and item id; its quantity is min(available, requested), and exactly the available quantity when that is at most the requested one |
| ItemWarehouseRepository.MapItemsSumWhenEveryRowSuffices | src/Infrastructure/Warehouse/Repository/ItemWarehouseRepository.php:82-89 | clamping is per row: when every row can cover the request alone, the outputs add up to rows × requested quantity |
| ItemWarehouseRepository.Insert | src/Infrastructure/Warehouse/Repository/ItemWarehouseRepository.php:32-33 | inserting a row keeps every row and adds that one |
| ItemWarehouseRepository.SortRows | src/Infrastructure/Warehouse/Repository/ItemWarehouseRepository.php:32-33 | the ordering is a permutation of the selected rows |
| ItemWarehouseRepository.SortRowsMembers | src/Infrastructure/Warehouse/Repository/ItemWarehouseRepository.php:32-33 | the ordering neither adds nor drops a row |
| ItemWarehouseRepository.InsertSorted | src/Infrastructure/Warehouse/Repository/ItemWarehouseRepository.php:32-33 | inserting a row into a list ordered by priority then stock keeps it ordered |
| ItemWarehouseRepository.SortRowsSorted | src/Infrastructure/Warehouse/Repository/ItemWarehouseRepository.php:32-33 | the result is ordered by warehouse priority descending, then stock descending |
| ItemWarehouseRepository.SelectRows | src/Infrastructure/Warehouse/Repository/ItemWarehouseRepository.php:19-34 | `getWarehousesForItem` reads exactly the table rows of the item that pass the stock condition, in priority-then-stock order |
| ItemWarehouseRepository.SelectInvolvedRows | src/Infrastructure/Warehouse/Repository/ItemWarehouseRepository.php:54-70 | `getFromInvolvedWhs` reads exactly the table rows of the item in the given warehouses that pass the stock condition, in the same order |
| ItemWarehouseRepository.Filter | src/Infrastructure/Warehouse/Repository/ItemWarehouseRepository.php:29-30 | a filter returns only rows of its input that meet its condition |
| ItemWarehouseRepository.MapItemsCovers | src/Infrastructure/Warehouse/Repository/ItemWarehouseRepository.php:80-90 | every row handed to the mapping yields a proposal for its warehouse |
| ItemWarehouseRepository.GetWarehousesForItem | src/Infrastructure/Warehouse/Repository/ItemWarehouseRepository.php:17-37 | every proposal is for the requested item and at most the requested quantity, and every warehouse with a row of the item that passes the stock condition gets one |
| ItemWarehouseRepository.GetFromInvolvedWhs | src/Infrastructure/Warehouse/Repository/ItemWarehouseRepository.php:52-73 | in addition, every proposal is in one of the given warehouses, and every given warehouse with a passing row of the item gets one |
| ItemWarehouseRepository.FilterKeeps | src/Infrastructure/Warehouse/Repository/ItemWarehouseRepository.php:29-30 | a filter keeps every row that meets its condition |
| ItemWarehouseRepository.FilterAnd | src/Infrastructure/Warehouse/Repository/ItemWarehouseRepository.php:64-66 | adding the warehouse condition filters the item's rows further |
| ItemWarehouseRepository.FilterSorted | src/Infrastructure/Warehouse/Repository/ItemWarehouseRepository.php:66-69 | dropping rows from an ordered list keeps it ordered |
| ItemWarehouseRepository.FilterInsert | src/Infrastructure/Warehouse/Repository/ItemWarehouseRepository.php:66-69 | filtering and inserting into an ordered list commute |
| ItemWarehouseRepository.SortFilter | src/Infrastructure/Warehouse/Repository/ItemWarehouseRepository.php:66-69 | ordering after filtering gives the same list as filtering after ordering |
| ItemWarehouseRepository.MapFilterIsSubsequence | src/Infrastructure/Warehouse/Repository/ItemWarehouseRepository.php:80-90 | mapping a filtered list gives an order-preserving sub-list of the mapped list |
| ItemWarehouseRepository.InvolvedIsSubsequence | src/Infrastructure/Warehouse/Repository/ItemWarehouseRepository.php:52-73 | `getFromInvolvedWhs` returns an order-preserving sub-list of `getWarehousesForItem` for the same item and quantity |

## Left out

- Symfony Messenger: envelopes, buses and stamps other than `HandledStamp` are not modelled. A bus is an oracle in `Env`: the stamps each query gets back, and whether each Make command throws a `RuntimeException`.
- Remove commands, the reservation repository's `save` and the event bus are assumed never to throw.
- The `isset($this->queryBus)` check in `handle` is left out: the constructor always sets the bus.
- Real locking is left out: `LockFactory`, the lock store, blocking acquire, TTL expiry and concurrency between sagas. A lock is an acquire/release pair in the trace, with TTL 300.
- Saga.TraverseLocks: a generator that has already been traversed throws an exception in PHP when traversed again; the model assumes a second traversal does nothing. The first Make command that throws traverses the item's generator in its revert (line 66), and every path of that item traverses it once more: a second Make command that throws (line 66), the shortfall revert (line 71), or the lock release after the save (line 77). So in PHP any item in which a Make command throws ends `__invoke` with that exception. The model goes on instead:
  - it reports `RequiredQtyHasNotBeenReserved` on a shortfall;
  - when the item still passes, it goes on to the later items and can report `Completed` and emit `ReservationHasBeenMadeEvent`. PHP throws right after the save there, so the event is never emitted and later items are never reserved.
  `SagaProperties.CommitReserved` (the generator is spent iff some Make command threw) and `ShortPath`/`PassPath` (the traversal that follows) locate this second traversal.
- WarehouseEntities.GetQtyAsWritten: takes what the `reservations` property holds as a parameter. The entity's constructor and Doctrine always put a collection object there, on which the written code always fails; the plain-array case covers only code that assigns the public property directly.
- ItemWarehouseRepository.MapItemsToItemWarehouse: uses the corrected `WarehouseEntities.GetQty`, because the written `getQty` throws on every entity.
- The oracles in `Env` are keyed by value. `warehouseStamps` is keyed by the query, so two order items with the same id and quantity get the same rows. `makeFails` is keyed by the command, so equal commands fail alike. In the system both depend on database state that changes between calls. No property proved here relies on this.
- `time()` is an oracle, `env.clock`, read with the item's position; the reservation's id is whatever it returns.
- Log messages are trace entries without their text or context arrays.
- The `OrderCreatedEvent` payload is ignored, as the handler ignores it.
- `__invoke` is one method in the source. The model splits it along its loops: `ReserveOrderItems`, `SweepItems`/`AdvanceSweep`, `ReserveNextItem`, `ReserveItemInWarehouses`, `DispatchMakeCommands`.
- Saga.ReserveItem and Saga.ItemStep carry the precondition that the item loop is still running at that position. It holds at every call the loop makes; it restricts the two functions to the positions the loop reaches, and the calls it makes to `ReserveItems` are what their `decreases` clauses account for.
- The repository's DQL is not modelled. The stock condition (`item.qty + SUM(reservation.qty) > 0`, which adds the reservations instead of subtracting them) is an abstract predicate `stockFilter`. The same predicate is used for both queries. The aliasing of `$reservations` and `$qb` and the `leftJoin` are not modelled.
- An empty `whs` set gives the empty result in the model; the SQL that Doctrine would produce for `IN ()` is not modelled.
- Rows that tie on priority and stock keep their table order (a stable sort). SQL leaves that order unspecified, separately for each query.
- ItemWarehouseRepository.InvolvedIsSubsequence: its "same order" part depends on both queries breaking ties in the same stable way. What holds whatever the tie order is stated in `SelectInvolvedRows` and `GetFromInvolvedWhs`: the result is sorted, lies within the table, and holds exactly the item's passing rows in the given warehouses.
- `makeReservation` and `removeReservation` of the repository are TODO stubs with no behaviour; the saga sees their effect only through the Make-command oracle.
- PHP integers are 64-bit; the model uses unbounded integers, so sums of quantities do not overflow.
- The order-level warehouse planner described by the query handler's tests has no implementation in the code and is not modelled.
- The order query handler, the warehouse query handler, the Make/Remove command handlers, the event handler and the ORM mappings only delegate; they are not part of this model.

## Findings

| source | as written | input that shows it | evidently intended | confidence | as-written member | corrected member |
|---|---|---|---|---|---|---|
| src/Application/Reservation/EventHandler/OrderCreatedEventHandler.php:128-131 | `sprintf("%c-%c", …)` keeps only the low byte of each id | warehouse 1 and warehouse 257, both for item 1, get the same key, so two different rows share one lock | a key that names the (warehouse, item) pair, e.g. `%d-%d` | high (not executed) | LockKeys.GenerateLockKeyCollision | LockKeys.LockKeyInjective |
| src/Infrastructure/Warehouse/Entity/Item.php:23-40 | `array_reduce` is handed the `reservations` collection object, which is not an array; and it has no initial value, so the first `int $carry` is `null` | a new item with stock 10 and no reservations: a TypeError instead of 10; on an array with one reservation of 3, a TypeError instead of 7 | stock minus the sum of the reservations, folded from 0 | high (not executed) | WarehouseEntities.GetQtyAsWrittenFails | WarehouseEntities.GetQtyAddReservation |
