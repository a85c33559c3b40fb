/**
 * Concrete runs of the actions on one stock row (product 1 at warehouse 1).
 */
module Scenarios {
  import opened Types
  import opened Ledger
  import opened Engine

  const P := StockKey(1, 1)

  function Shop(balance: int, orders: map<OrderId, Order>): Db
  {
    Db(map[P := balance], [], orders, 2, {1}, {1})
  }

  /** 50 on hand, an order for 10: the row drops to 40 and one -10 movement is written. */
  lemma CreateReserves()
    ensures var s := Store(Shop(50, map[]), "acme", 1, [Item(1, 10)]);
      && s.result == Ok(2)
      && s.db.stock == map[P := 40]
      && s.db.ledger == [Movement(1, 1, -10, OrderCreated(2))]
      && s.db.orders[2] == Order("acme", 1, Active, [Item(1, 10)])
  {
    var db := Shop(50, map[]);
    assert "acme"[0] !in TrimmedChars;
    assert ValidRequest(db, "acme", 1, [Item(1, 10)]);
    StoreEffect(db, "acme", 1, [Item(1, 10)]);
    assert Count([Item(1, 10)][1..], 1) == 0;
  }

  /** 5 on hand, an order for 10: refused, nothing written. */
  lemma CreateRefusedWhenShort()
    ensures Store(Shop(5, map[]), "acme", 1, [Item(1, 10)]) == Step(Shop(5, map[]), Err(InsufficientStock(1)))
  {
    var db := Shop(5, map[]);
    assert "acme"[0] !in TrimmedChars;
    assert ValidRequest(db, "acme", 1, [Item(1, 10)]);
  }

  /**
   * An active order for 10 with 40 left on hand is changed to 15 of the same
   * product: the row ends at 35, with one +10 and one -15 movement.
   */
  lemma UpdateSameProduct()
    ensures var s := Update(Shop(40, map[0 := Order("acme", 1, Active, [Item(1, 10)])]), 0, "acme", 1, [Item(1, 15)]);
      && s.result == Ok(Order("acme", 1, Active, [Item(1, 15)]))
      && s.db.stock == map[P := 35]
      && s.db.ledger == [Movement(1, 1, 10, UpdateRelease(0)), Movement(1, 1, -15, OrderUpdated(0))]
  {
    var db := Shop(40, map[0 := Order("acme", 1, Active, [Item(1, 10)])]);
    assert "acme"[0] !in TrimmedChars;
    assert ValidRequest(db, "acme", 1, [Item(1, 15)]);
    UpdateEffect(db, 0, "acme", 1, [Item(1, 15)]);
    assert Count([Item(1, 10)][1..], 1) == 0;
    assert Count([Item(1, 15)][1..], 1) == 0;
  }

  /** A canceled order for 10 cannot be resumed while only 3 are on hand; it stays canceled. */
  lemma ResumeRefusedWhenShort()
    ensures var db := Shop(3, map[0 := Order("acme", 1, Canceled, [Item(1, 10)])]);
      Resume(db, 0) == Step(db, Err(InsufficientStock(1)))
  {
  }
}
