/**
 * The value objects exchanged by the reservation saga: the order and its items,
 * the warehouse rows chosen for an item, the saved reservation, and the
 * commands, queries and events that travel over the message buses.
 */
module Domain {
  /** An order line: which item, and how many of it. */
  datatype Item = Item(id: int, qty: int)

  /** An order; `items` is what `getItems()` returns, in that order. */
  datatype Order = Order(id: int, items: seq<Item>)

  /** One warehouse chosen for an item: `id` is the warehouse id. */
  datatype ItemWarehouse = ItemWarehouse(id: int, itemId: int, qty: int)

  /** A reservation as handed to the reservation repository. */
  datatype Reservation = Reservation(id: int, order: Order, item: Item, warehouse: seq<ItemWarehouse>)

  datatype MakeItemReservationInWarehouseCommand =
    MakeItemReservationInWarehouseCommand(warehouseId: int, itemId: int, qty: int)

  datatype RemoveReservationFromWarehouseCommand =
    RemoveReservationFromWarehouseCommand(warehouseId: int, itemId: int)

  datatype GetWarehousesForItemReservationQuery =
    GetWarehousesForItemReservationQuery(itemId: int, qty: int)

  datatype ReservationHasBeenMadeEvent = ReservationHasBeenMadeEvent(orderId: int)

  /** The trigger of the saga; the handler never reads the order it carries. */
  datatype OrderCreatedEvent = OrderCreatedEvent(order: Order)
}
