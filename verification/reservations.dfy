/**
 * Reservation accounting: for every stock key, the ledger's net quantity is
 * minus the total that active and completed orders hold against that key.
 * Together with conservation this says that every balance equals its
 * opening value less what the non-canceled orders hold.
 */
module Reservations {
  import opened Types
  import opened Ledger
  import opened Engine

  /** What one order holds against a key: its lines at its warehouse, unless it is canceled. */
  function Held(o: Order, k: StockKey): int
  {
    if o.status == Canceled || o.warehouse != k.warehouse then 0 else Count(o.items, k.product)
  }

  /** Total held against `k` by the orders with ids below `n`. */
  function ReservedBelow(orders: map<OrderId, Order>, k: StockKey, n: nat): int
  {
    if n == 0 then 0
    else ReservedBelow(orders, k, n - 1) + (if n - 1 in orders then Held(orders[n - 1], k) else 0)
  }

  function Reserved(db: Db, k: StockKey): int
  {
    ReservedBelow(db.orders, k, db.nextId)
  }

  /** Order ids are below the next id, and the ledger accounts for exactly what the orders hold. */
  ghost predicate Consistent(db: Db)
  {
    && (forall id :: id in db.orders ==> id < db.nextId)
    && (forall k :: Delta(db.ledger, k) == -Reserved(db, k))
  }

  /** The invariant kept by the controller: consistent, and the balances replay from `opening` through the ledger. */
  ghost predicate Books(opening: Balances, db: Db)
  {
    Consistent(db) && db.stock == ApplyMoves(opening, db.ledger)
  }

  /** The state before any order exists: the given balances, an empty ledger, no orders. */
  function Opening(stock: Balances, products: set<ProductId>, warehouses: set<WarehouseId>): Db
  {
    Db(stock, [], map[], 1, products, warehouses)
  }

  lemma {:induction false} ReservedAgree(o1: map<OrderId, Order>, o2: map<OrderId, Order>, k: StockKey, n: nat)
    requires forall i :: 0 <= i < n ==> (i in o1 <==> i in o2)
    requires forall i :: 0 <= i < n && i in o1 ==> o1[i] == o2[i]
    ensures ReservedBelow(o1, k, n) == ReservedBelow(o2, k, n)
  {
    if n > 0 {
      ReservedAgree(o1, o2, k, n - 1);
    }
  }

  /** Replacing one order changes the total by the difference of what the two versions hold. */
  lemma {:induction false} ReservedReplace(orders: map<OrderId, Order>, k: StockKey, n: nat, id: OrderId, o: Order)
    requires id < n
    ensures ReservedBelow(orders[id := o], k, n) ==
      ReservedBelow(orders, k, n) - (if id in orders then Held(orders[id], k) else 0) + Held(o, k)
  {
    if n - 1 == id {
      ReservedAgree(orders[id := o], orders, k, n - 1);
    } else {
      ReservedReplace(orders, k, n - 1, id, o);
    }
  }

  lemma {:induction false} ReservedNone(k: StockKey, n: nat)
    ensures ReservedBelow(map[], k, n) == 0
  {
    if n > 0 {
      ReservedNone(k, n - 1);
    }
  }

  /** Holding of a batch: what the movements of a batch record for a key. */
  lemma BatchHeld(o: Order, dir: Direction, reason: Reason, k: StockKey)
    requires o.status != Canceled
    ensures Delta(Moves(o.items, o.warehouse, dir, reason), k) == Signed(dir, Held(o, k))
  {
    MovesDelta(o.items, o.warehouse, dir, reason, k);
  }

  /** A create adds exactly what its new order holds, as one reservation per line. */
  lemma StoreKeepsReservations(db: Db, c: string, w: WarehouseId, items: seq<Item>)
    requires Consistent(db)
    ensures Consistent(Store(db, c, w, items).db)
  {
    var d := Store(db, c, w, items).db;
    if Store(db, c, w, items).result.Ok? {
      var n := db.nextId;
      var o := Order(c, w, Active, items);
      var ms := Moves(items, w, Reserve, OrderCreated(n));
      forall k ensures Delta(d.ledger, k) == -Reserved(d, k) {
        DeltaAppend(db.ledger, ms, k);
        BatchHeld(o, Reserve, OrderCreated(n), k);
        ReservedAgree(d.orders, db.orders, k, n);
      }
    }
  }

  /** An update gives back what the order held and takes what its new lines hold. */
  lemma UpdateKeepsReservations(db: Db, id: OrderId, c: string, w: WarehouseId, items: seq<Item>)
    requires Consistent(db)
    ensures Consistent(Update(db, id, c, w, items).db)
  {
    var d := Update(db, id, c, w, items).db;
    if Update(db, id, c, w, items).result.Ok? {
      var previous := db.orders[id];
      var o := d.orders[id];
      var rel := Moves(previous.items, previous.warehouse, Release, UpdateRelease(id));
      var res := Moves(items, w, Reserve, OrderUpdated(id));
      forall k ensures Delta(d.ledger, k) == -Reserved(d, k) {
        DeltaAppend(db.ledger, rel, k);
        DeltaAppend(db.ledger + rel, res, k);
        BatchHeld(previous, Release, UpdateRelease(id), k);
        BatchHeld(o, Reserve, OrderUpdated(id), k);
        ReservedReplace(db.orders, k, db.nextId, id, o);
      }
    }
  }

  /** Every action keeps the ledger in step with what the orders hold. */
  lemma StepKeepsReservations(db: Db, req: Request)
    requires Consistent(db)
    ensures Consistent(Apply(db, req))
  {
    var d := Apply(db, req);
    match req {
      case StoreRequest(c, w, items) =>
        StoreKeepsReservations(db, c, w, items);
      case CompleteRequest(id) =>
        if Complete(db, id).result.Ok? {
          forall k ensures Delta(d.ledger, k) == -Reserved(d, k) {
            ReservedReplace(db.orders, k, db.nextId, id, d.orders[id]);
          }
        }
      case UpdateRequest(id, c, w, items) =>
        UpdateKeepsReservations(db, id, c, w, items);
      case CancelRequest(id) =>
        if Cancel(db, id).result.Ok? {
          var previous := db.orders[id];
          var rel := Moves(previous.items, previous.warehouse, Release, OrderCanceled(id));
          forall k ensures Delta(d.ledger, k) == -Reserved(d, k) {
            DeltaAppend(db.ledger, rel, k);
            BatchHeld(previous, Release, OrderCanceled(id), k);
            ReservedReplace(db.orders, k, db.nextId, id, d.orders[id]);
          }
        }
      case ResumeRequest(id) =>
        if Resume(db, id).result.Ok? {
          var o := d.orders[id];
          var res := Moves(o.items, o.warehouse, Reserve, OrderResumed(id));
          forall k ensures Delta(d.ledger, k) == -Reserved(d, k) {
            DeltaAppend(db.ledger, res, k);
            BatchHeld(o, Reserve, OrderResumed(id), k);
            ReservedReplace(db.orders, k, db.nextId, id, o);
          }
        }
    }
  }

  /** The controller's invariant survives every action. */
  lemma StepKeepsBooks(opening: Balances, db: Db, req: Request)
    requires Books(opening, db)
    ensures Books(opening, Apply(db, req))
  {
    var d := Apply(db, req);
    StepKeepsReservations(db, req);
    EveryActionAppends(db, req);
    var suffix := d.ledger[|db.ledger|..];
    assert d.ledger == db.ledger + suffix;
    ApplyMovesAppend(opening, db.ledger, suffix);
  }

  lemma {:induction false} RunKeepsReservations(db: Db, reqs: seq<Request>)
    requires Consistent(db)
    ensures Consistent(Run(db, reqs))
    decreases |reqs|
  {
    if reqs != [] {
      StepKeepsReservations(db, reqs[0]);
      RunKeepsReservations(Apply(db, reqs[0]), reqs[1..]);
    }
  }

  /**
   * Starting from opening balances with no orders, after any sequence of
   * actions every balance equals its opening value less what the active and
   * completed orders hold against it.
   */
  lemma BalancesAccountForOrders(stock: Balances, products: set<ProductId>, warehouses: set<WarehouseId>, reqs: seq<Request>)
    ensures var d := Run(Opening(stock, products, warehouses), reqs);
      && d.stock.Keys == stock.Keys
      && forall k :: k in stock ==> d.stock[k] == stock[k] - Reserved(d, k)
  {
    var db := Opening(stock, products, warehouses);
    var d := Run(db, reqs);
    forall k ensures Delta(db.ledger, k) == -Reserved(db, k) {
      ReservedNone(k, db.nextId);
    }
    RunKeepsReservations(db, reqs);
    RunAppends(db, reqs);
    assert d.ledger[|db.ledger|..] == d.ledger;
    Conservation(stock, d.ledger);
  }
}
