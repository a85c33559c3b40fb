/**
 * The order controller as it runs: stock rows, the movement ledger and the
 * orders are fields updated in place, and every action walks its lines one
 * at a time, adjusting one row and appending one movement per line.  Each
 * action is proved to end in the state the matching Engine function gives,
 * and to keep the reservation books balanced.
 */
module Controller {
  import opened Types
  import opened Ledger
  import opened Engine
  import Reservations

  class OrderController {
    var stock: Balances
    var ledger: seq<Movement>
    var orders: map<OrderId, Order>
    /** The id the next created order receives (the table's auto-increment). */
    var nextId: OrderId
    const products: set<ProductId>
    const warehouses: set<WarehouseId>
    /** The balances before the first movement was written. */
    ghost const opening: Balances

    function State(): Db
      reads this
    {
      Db(stock, ledger, orders, nextId, products, warehouses)
    }

    ghost predicate Valid()
      reads this
    {
      Reservations.Books(opening, State())
    }

    constructor (stock: Balances, products: set<ProductId>, warehouses: set<WarehouseId>)
      ensures Valid()
      ensures State() == Reservations.Opening(stock, products, warehouses)
    {
      this.stock := stock;
      this.ledger := [];
      this.orders := map[];
      this.nextId := 1;
      this.products := products;
      this.warehouses := warehouses;
      this.opening := stock;
      new;
      forall k ensures Delta(ledger, k) == -Reservations.Reserved(State(), k) {
        Reservations.ReservedNone(k, 1);
      }
    }

    /**
     * The stock check run before a transaction: the first line whose row is
     * missing or short, each line compared with the row on its own.
     */
    method Preflight(w: WarehouseId, items: seq<Item>) returns (short: Option<nat>)
      ensures short == Shortage(stock, w, items)
      ensures short.None? <==> AllCovered(stock, w, items)
      ensures short.Some? ==> short.value < |items| && !Covered(stock, w, items[short.value])
    {
      var i := 0;
      while i < |items|
        invariant 0 <= i <= |items|
        invariant forall j :: 0 <= j < i ==> Covered(stock, w, items[j])
      {
        var key := StockKey(items[i].product, w);
        if key !in stock || stock[key] < items[i].count {
          return Some(i);
        }
        i := i + 1;
      }
      return None;
    }

    /** Adjust one row and append one movement per line, in line order. */
    method Post(items: seq<Item>, w: WarehouseId, dir: Direction, reason: Reason)
      modifies this`stock, this`ledger
      ensures stock == ApplyMoves(old(stock), Moves(items, w, dir, reason))
      ensures ledger == old(ledger) + Moves(items, w, dir, reason)
    {
      var i := 0;
      while i < |items|
        invariant 0 <= i <= |items|
        invariant stock == ApplyMoves(old(stock), Moves(items[..i], w, dir, reason))
        invariant ledger == old(ledger) + Moves(items[..i], w, dir, reason)
      {
        var item := items[i];
        var m := Line(item, w, dir, reason);
        stock := Adjust(stock, StockKey(item.product, w), Signed(dir, item.count));
        ledger := ledger + [m];
        MovesSnoc(items, i, w, dir, reason);
        ApplyMovesSnoc(old(stock), Moves(items[..i], w, dir, reason), m);
        i := i + 1;
      }
      assert items[..|items|] == items;
    }

    /** For each line: add it to order `id`, take its count from the row and append its movement. */
    method PlaceItems(id: OrderId, w: WarehouseId, items: seq<Item>, reason: Reason)
      requires id in orders
      modifies this`stock, this`ledger, this`orders
      ensures stock == ApplyMoves(old(stock), Moves(items, w, Reserve, reason))
      ensures ledger == old(ledger) + Moves(items, w, Reserve, reason)
      ensures orders == old(orders)[id := old(orders)[id].(items := old(orders)[id].items + items)]
    {
      ghost var header := orders[id];
      assert header.(items := header.items + items[..0]) == header;
      assert old(orders)[id := header] == old(orders);
      var i := 0;
      while i < |items|
        invariant 0 <= i <= |items|
        invariant stock == ApplyMoves(old(stock), Moves(items[..i], w, Reserve, reason))
        invariant ledger == old(ledger) + Moves(items[..i], w, Reserve, reason)
        invariant orders == old(orders)[id := header.(items := header.items + items[..i])]
      {
        var item := items[i];
        var m := Line(item, w, Reserve, reason);
        assert header.items + items[..i + 1] == header.items + items[..i] + [item];
        PlaceLine(id, w, item, reason);
        MovesSnoc(items, i, w, Reserve, reason);
        ApplyMovesSnoc(old(stock), Moves(items[..i], w, Reserve, reason), m);
        i := i + 1;
      }
      assert items[..|items|] == items;
    }

    /** One line: add it to order `id`, take its count from the row and append its movement. */
    method PlaceLine(id: OrderId, w: WarehouseId, item: Item, reason: Reason)
      requires id in orders
      modifies this`stock, this`ledger, this`orders
      ensures orders == old(orders)[id := old(orders)[id].(items := old(orders)[id].items + [item])]
      ensures stock == Adjust(old(stock), StockKey(item.product, w), -item.count)
      ensures ledger == old(ledger) + [Line(item, w, Reserve, reason)]
    {
      orders := orders[id := orders[id].(items := orders[id].items + [item])];
      stock := Adjust(stock, StockKey(item.product, w), -item.count);
      ledger := ledger + [Line(item, w, Reserve, reason)];
    }

    method Store(customer: string, w: WarehouseId, items: seq<Item>) returns (r: Result<OrderId>)
      requires Valid()
      modifies this`stock, this`ledger, this`orders, this`nextId
      ensures Valid()
      ensures var s := Engine.Store(old(State()), customer, w, items); State() == s.db && r == s.result
    {
      if !ValidRequest(State(), customer, w, items) {
        return Err(ValidationFailed);
      }
      var short := Preflight(w, items);
      if short.Some? {
        return Err(InsufficientStock(items[short.value].product));
      }
      var id := Create(customer, w, items);
      r := Ok(id);
    }

    /** The create transaction: record the order header, then place its lines. */
    method Create(customer: string, w: WarehouseId, items: seq<Item>) returns (id: OrderId)
      requires Valid()
      requires ValidRequest(State(), customer, w, items) && AllCovered(stock, w, items)
      modifies this`stock, this`ledger, this`orders, this`nextId
      ensures Valid()
      ensures id == old(nextId)
      ensures State() == Engine.Store(old(State()), customer, w, items).db
    {
      ghost var before := State();
      id := nextId;
      orders := orders[id := Order(customer, w, Active, [])];
      nextId := nextId + 1;
      PlaceItems(id, w, items, OrderCreated(id));
      assert [] + items == items;
      StoreCommits(before, customer, w, items);
      assert State() == Apply(before, StoreRequest(customer, w, items));
      Reservations.StepKeepsBooks(opening, before, StoreRequest(customer, w, items));
    }

    method Complete(id: OrderId) returns (r: Result<Order>)
      requires Valid()
      modifies this`orders
      ensures Valid()
      ensures var s := Engine.Complete(old(State()), id); State() == s.db && r == s.result
    {
      if id !in orders {
        return Err(OrderNotFound);
      }
      var order := orders[id];
      if order.status != Active {
        return Err(InvalidTransition);
      }
      orders := orders[id := order.(status := Completed)];
      r := Ok(orders[id]);
      Reservations.StepKeepsBooks(opening, old(State()), CompleteRequest(id));
    }

    method Update(id: OrderId, customer: string, w: WarehouseId, items: seq<Item>) returns (r: Result<Order>)
      requires Valid()
      modifies this`stock, this`ledger, this`orders
      ensures Valid()
      ensures var s := Engine.Update(old(State()), id, customer, w, items); State() == s.db && r == s.result
    {
      if !ValidRequest(State(), customer, w, items) {
        return Err(ValidationFailed);
      }
      if id !in orders {
        return Err(OrderNotFound);
      }
      var order := orders[id];
      if order.status != Active {
        return Err(InvalidTransition);
      }
      var short := Preflight(w, items);
      if short.Some? {
        return Err(InsufficientStock(items[short.value].product));
      }
      r := Revise(id, customer, w, items);
    }

    /** The update transaction: release the old lines, overwrite the header, place the new lines. */
    method Revise(id: OrderId, customer: string, w: WarehouseId, items: seq<Item>) returns (r: Result<Order>)
      requires Valid()
      requires ValidRequest(State(), customer, w, items) && AllCovered(stock, w, items)
      requires id in orders && orders[id].status == Active
      modifies this`stock, this`ledger, this`orders
      ensures Valid()
      ensures var s := Engine.Update(old(State()), id, customer, w, items); State() == s.db && r == s.result
    {
      ghost var before := State();
      var order := orders[id];
      ghost var released := Moves(order.items, order.warehouse, Release, UpdateRelease(id));
      ghost var reserved := Moves(items, w, Reserve, OrderUpdated(id));
      assert Shortage(stock, w, items) == None;
      Post(order.items, order.warehouse, Release, UpdateRelease(id));
      orders := orders[id := order.(items := [])];
      orders := orders[id := orders[id].(customer := customer, warehouse := w)];
      PlaceItems(id, w, items, OrderUpdated(id));
      assert [] + items == items;
      assert orders == before.orders[id := Order(customer, w, Active, items)];
      assert stock == ApplyMoves(ApplyMoves(before.stock, released), reserved);
      assert ledger == before.ledger + released + reserved;
      r := Ok(orders[id]);
      assert State() == Engine.Update(before, id, customer, w, items).db;
      Reservations.StepKeepsBooks(opening, before, UpdateRequest(id, customer, w, items));
    }

    method Cancel(id: OrderId) returns (r: Result<Order>)
      requires Valid()
      modifies this`stock, this`ledger, this`orders
      ensures Valid()
      ensures var s := Engine.Cancel(old(State()), id); State() == s.db && r == s.result
    {
      if id !in orders {
        return Err(OrderNotFound);
      }
      var order := orders[id];
      if order.status != Active {
        return Err(InvalidTransition);
      }
      Post(order.items, order.warehouse, Release, OrderCanceled(id));
      orders := orders[id := order.(status := Canceled)];
      r := Ok(orders[id]);
      Reservations.StepKeepsBooks(opening, old(State()), CancelRequest(id));
    }

    method Resume(id: OrderId) returns (r: Result<Order>)
      requires Valid()
      modifies this`stock, this`ledger, this`orders
      ensures Valid()
      ensures var s := Engine.Resume(old(State()), id); State() == s.db && r == s.result
    {
      if id !in orders {
        return Err(OrderNotFound);
      }
      var order := orders[id];
      if order.status != Canceled {
        return Err(InvalidTransition);
      }
      var short := Preflight(order.warehouse, order.items);
      if short.Some? {
        return Err(InsufficientStock(order.items[short.value].product));
      }
      Post(order.items, order.warehouse, Reserve, OrderResumed(id));
      orders := orders[id := order.(status := Active)];
      r := Ok(orders[id]);
      Reservations.StepKeepsBooks(opening, old(State()), ResumeRequest(id));
    }
  }
}
