/**
 * The entities of the order and stock engine: stock rows keyed by
 * (product, warehouse), order lines, orders, ledger movements and the
 * errors an action can report.
 */
module Types {

  type ProductId = nat
  type WarehouseId = nat
  type OrderId = nat

  /** The composite primary key of a stock row. */
  datatype StockKey = StockKey(product: ProductId, warehouse: WarehouseId)

  /** One order line: a product and the requested count. */
  datatype Item = Item(product: ProductId, count: int)

  datatype Status = Active | Completed | Canceled

  /** An order header with its lines, in the order they were created. */
  datatype Order = Order(customer: string, warehouse: WarehouseId, status: Status, items: seq<Item>)

  /** Why a movement was written; each carries the id of the order concerned. */
  datatype Reason =
    | OrderCreated(id: OrderId)
    | UpdateRelease(id: OrderId)
    | OrderUpdated(id: OrderId)
    | OrderCanceled(id: OrderId)
    | OrderResumed(id: OrderId)

  /** One ledger entry: a signed quantity applied to one stock row. */
  datatype Movement = Movement(product: ProductId, warehouse: WarehouseId, quantity: int, reason: Reason)
  {
    function Key(): StockKey { StockKey(product, warehouse) }
  }

  datatype Error =
    | ValidationFailed
    | OrderNotFound
    | InvalidTransition
    | InsufficientStock(product: ProductId)

  datatype Option<+T> = None | Some(value: T)

  datatype Result<+T> = Ok(value: T) | Err(error: Error)
}
