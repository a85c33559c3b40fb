/**
 * The five order actions as functions from one database state to the next.
 * Each action is one atomic step: it either fails and leaves the state as
 * it was, or passes its guards and applies all of its effects.
 */
module Engine {
  import opened Types
  import opened Ledger

  /** Everything the actions read or write. The catalogue sets are read-only. */
  datatype Db = Db(
    stock: Balances,
    ledger: seq<Movement>,
    orders: map<OrderId, Order>,
    nextId: OrderId,
    products: set<ProductId>,
    warehouses: set<WarehouseId>)

  /** The state after an action and what the action answered. */
  datatype Step<+T> = Step(db: Db, result: Result<T>)

  datatype Request =
    | StoreRequest(customer: string, warehouse: WarehouseId, items: seq<Item>)
    | CompleteRequest(id: OrderId)
    | UpdateRequest(id: OrderId, customer: string, warehouse: WarehouseId, items: seq<Item>)
    | CancelRequest(id: OrderId)
    | ResumeRequest(id: OrderId)

  const MaxCustomerLength := 255
  const MaxCount := 10000

  /** The characters PHP's `trim` strips by default. */
  const TrimmedChars: set<char> := {' ', '\t', '\n', '\r', '\0', '\U{000B}'}

  /** A `required` string field is missing when nothing is left of it after trimming. */
  predicate Blank(text: string)
  {
    forall i :: 0 <= i < |text| ==> text[i] in TrimmedChars
  }

  /**
   * The request rules of create and update: a non-blank customer of at most
   * 255 characters, a known warehouse, at least one line, every line naming
   * a known product with a count between 1 and 10000.
   */
  predicate ValidRequest(db: Db, customer: string, w: WarehouseId, items: seq<Item>)
  {
    && !Blank(customer) && |customer| <= MaxCustomerLength
    && w in db.warehouses
    && |items| >= 1
    && forall i :: 0 <= i < |items| ==> items[i].product in db.products && 1 <= items[i].count <= MaxCount
  }

  /**
   * The stock preflight: the index of the first line whose row is missing or
   * holds less than the line's count, each line checked on its own.
   */
  function Shortage(stock: Balances, w: WarehouseId, items: seq<Item>): (r: Option<nat>)
    ensures r.None? <==> forall i :: 0 <= i < |items| ==> Covered(stock, w, items[i])
    ensures r.Some? ==>
      && r.value < |items|
      && !Covered(stock, w, items[r.value])
      && forall j :: 0 <= j < r.value ==> Covered(stock, w, items[j])
  {
    if items == [] then None
    else if !Covered(stock, w, items[0]) then Some(0)
    else match Shortage(stock, w, items[1..])
      case None => None
      case Some(i) => Some(i + 1)
  }

  predicate AllCovered(stock: Balances, w: WarehouseId, items: seq<Item>)
  {
    forall i :: 0 <= i < |items| ==> Covered(stock, w, items[i])
  }

  /** Create an order: validate, preflight, then reserve every line and record the order. */
  function Store(db: Db, customer: string, w: WarehouseId, items: seq<Item>): (s: Step<OrderId>)
    ensures s.result.Err? ==> s.db == db
    ensures !ValidRequest(db, customer, w, items) ==> s.result == Err(ValidationFailed)
    ensures ValidRequest(db, customer, w, items) && !AllCovered(db.stock, w, items) ==>
      exists i :: 0 <= i < |items| && !Covered(db.stock, w, items[i]) &&
        (forall j :: 0 <= j < i ==> Covered(db.stock, w, items[j])) &&
        s.result == Err(InsufficientStock(items[i].product))
    ensures s.result.Ok? <==> ValidRequest(db, customer, w, items) && AllCovered(db.stock, w, items)
    ensures s.result.Ok? ==>
      && s.result.value == db.nextId
      && s.db.nextId == db.nextId + 1
      && s.db.orders == db.orders[db.nextId := Order(customer, w, Active, items)]
      && s.db.products == db.products && s.db.warehouses == db.warehouses
  {
    if !ValidRequest(db, customer, w, items) then Step(db, Err(ValidationFailed))
    else match Shortage(db.stock, w, items)
      case Some(i) => Step(db, Err(InsufficientStock(items[i].product)))
      case None =>
        var id := db.nextId;
        var reserved := Moves(items, w, Reserve, OrderCreated(id));
        Step(db.(stock := ApplyMoves(db.stock, reserved),
                 ledger := db.ledger + reserved,
                 orders := db.orders[id := Order(customer, w, Active, items)],
                 nextId := id + 1),
             Ok(id))
  }

  /** Unfolds `Store` on a request that passes both checks (a proof helper for the controller). */
  lemma StoreCommits(db: Db, customer: string, w: WarehouseId, items: seq<Item>)
    requires ValidRequest(db, customer, w, items) && AllCovered(db.stock, w, items)
    ensures var reserved := Moves(items, w, Reserve, OrderCreated(db.nextId));
      Store(db, customer, w, items) ==
        Step(db.(stock := ApplyMoves(db.stock, reserved),
                 ledger := db.ledger + reserved,
                 orders := db.orders[db.nextId := Order(customer, w, Active, items)],
                 nextId := db.nextId + 1),
             Ok(db.nextId))
  {
  }

  /** Finish an active order; stock, ledger and lines are left alone. */
  function Complete(db: Db, id: OrderId): (s: Step<Order>)
    ensures s.result.Err? ==> s.db == db
    ensures id !in db.orders ==> s.result == Err(OrderNotFound)
    ensures id in db.orders && db.orders[id].status != Active ==> s.result == Err(InvalidTransition)
    ensures s.result.Ok? <==> id in db.orders && db.orders[id].status == Active
    ensures s.result.Ok? ==>
      && s.result.value.status == Completed
      && s.result.value.items == db.orders[id].items
      && s.result.value.customer == db.orders[id].customer
      && s.result.value.warehouse == db.orders[id].warehouse
      && s.db == db.(orders := db.orders[id := s.result.value])
  {
    if id !in db.orders then Step(db, Err(OrderNotFound))
    else if db.orders[id].status != Active then Step(db, Err(InvalidTransition))
    else
      var o := db.orders[id].(status := Completed);
      Step(db.(orders := db.orders[id := o]), Ok(o))
  }

  /**
   * Replace an active order: validate, check the new lines against the
   * current stock of the requested warehouse (before anything is released),
   * then release every old line at the old warehouse, overwrite customer,
   * warehouse and lines, and reserve every new line at the new warehouse.
   */
  function Update(db: Db, id: OrderId, customer: string, w: WarehouseId, items: seq<Item>): (s: Step<Order>)
    ensures s.result.Err? ==> s.db == db
    ensures !ValidRequest(db, customer, w, items) ==> s.result == Err(ValidationFailed)
    ensures ValidRequest(db, customer, w, items) && id !in db.orders ==> s.result == Err(OrderNotFound)
    ensures ValidRequest(db, customer, w, items) && id in db.orders && db.orders[id].status != Active ==>
      s.result == Err(InvalidTransition)
    ensures ValidRequest(db, customer, w, items) && id in db.orders && db.orders[id].status == Active &&
            !AllCovered(db.stock, w, items) ==>
      exists i :: 0 <= i < |items| && !Covered(db.stock, w, items[i]) &&
        (forall j :: 0 <= j < i ==> Covered(db.stock, w, items[j])) &&
        s.result == Err(InsufficientStock(items[i].product))
    ensures s.result.Ok? <==>
      && ValidRequest(db, customer, w, items)
      && id in db.orders && db.orders[id].status == Active
      && AllCovered(db.stock, w, items)
    ensures s.result.Ok? ==>
      && s.result.value == Order(customer, w, Active, items)
      && s.db.orders == db.orders[id := s.result.value]
      && s.db.nextId == db.nextId
      && s.db.products == db.products && s.db.warehouses == db.warehouses
  {
    if !ValidRequest(db, customer, w, items) then Step(db, Err(ValidationFailed))
    else if id !in db.orders then Step(db, Err(OrderNotFound))
    else if db.orders[id].status != Active then Step(db, Err(InvalidTransition))
    else match Shortage(db.stock, w, items)
      case Some(i) => Step(db, Err(InsufficientStock(items[i].product)))
      case None =>
        var previous := db.orders[id];
        var released := Moves(previous.items, previous.warehouse, Release, UpdateRelease(id));
        var reserved := Moves(items, w, Reserve, OrderUpdated(id));
        var o := Order(customer, w, Active, items);
        Step(db.(stock := ApplyMoves(ApplyMoves(db.stock, released), reserved),
                 ledger := db.ledger + released + reserved,
                 orders := db.orders[id := o]),
             Ok(o))
  }

  /** Cancel an active order: give back every line at its warehouse and keep the lines. */
  function Cancel(db: Db, id: OrderId): (s: Step<Order>)
    ensures s.result.Err? ==> s.db == db
    ensures id !in db.orders ==> s.result == Err(OrderNotFound)
    ensures id in db.orders && db.orders[id].status != Active ==> s.result == Err(InvalidTransition)
    ensures s.result.Ok? <==> id in db.orders && db.orders[id].status == Active
    ensures s.result.Ok? ==>
      && s.result.value == db.orders[id].(status := Canceled)
      && s.db.orders == db.orders[id := s.result.value]
      && s.db.nextId == db.nextId
      && s.db.products == db.products && s.db.warehouses == db.warehouses
  {
    if id !in db.orders then Step(db, Err(OrderNotFound))
    else if db.orders[id].status != Active then Step(db, Err(InvalidTransition))
    else
      var previous := db.orders[id];
      var released := Moves(previous.items, previous.warehouse, Release, OrderCanceled(id));
      var o := previous.(status := Canceled);
      Step(db.(stock := ApplyMoves(db.stock, released),
               ledger := db.ledger + released,
               orders := db.orders[id := o]),
           Ok(o))
  }

  /** Resume a canceled order: preflight its own lines, then reserve them again. */
  function Resume(db: Db, id: OrderId): (s: Step<Order>)
    ensures s.result.Err? ==> s.db == db
    ensures id !in db.orders ==> s.result == Err(OrderNotFound)
    ensures id in db.orders && db.orders[id].status != Canceled ==> s.result == Err(InvalidTransition)
    ensures id in db.orders && db.orders[id].status == Canceled &&
            !AllCovered(db.stock, db.orders[id].warehouse, db.orders[id].items) ==>
      exists i :: 0 <= i < |db.orders[id].items| &&
        !Covered(db.stock, db.orders[id].warehouse, db.orders[id].items[i]) &&
        (forall j :: 0 <= j < i ==> Covered(db.stock, db.orders[id].warehouse, db.orders[id].items[j])) &&
        s.result == Err(InsufficientStock(db.orders[id].items[i].product))
    ensures s.result.Ok? <==>
      && id in db.orders && db.orders[id].status == Canceled
      && AllCovered(db.stock, db.orders[id].warehouse, db.orders[id].items)
    ensures s.result.Ok? ==>
      && s.result.value == db.orders[id].(status := Active)
      && s.db.orders == db.orders[id := s.result.value]
      && s.db.nextId == db.nextId
      && s.db.products == db.products && s.db.warehouses == db.warehouses
  {
    if id !in db.orders then Step(db, Err(OrderNotFound))
    else if db.orders[id].status != Canceled then Step(db, Err(InvalidTransition))
    else
      var previous := db.orders[id];
      match Shortage(db.stock, previous.warehouse, previous.items)
      case Some(i) => Step(db, Err(InsufficientStock(previous.items[i].product)))
      case None =>
        var reserved := Moves(previous.items, previous.warehouse, Reserve, OrderResumed(id));
        var o := previous.(status := Active);
        Step(db.(stock := ApplyMoves(db.stock, reserved),
                 ledger := db.ledger + reserved,
                 orders := db.orders[id := o]),
             Ok(o))
  }

  /** The state after serving one request. */
  function Apply(db: Db, req: Request): Db
  {
    match req
    case StoreRequest(c, w, items) => Store(db, c, w, items).db
    case CompleteRequest(id) => Complete(db, id).db
    case UpdateRequest(id, c, w, items) => Update(db, id, c, w, items).db
    case CancelRequest(id) => Cancel(db, id).db
    case ResumeRequest(id) => Resume(db, id).db
  }

  /** The state after serving the requests one after another. */
  function Run(db: Db, reqs: seq<Request>): Db
    decreases |reqs|
  {
    if reqs == [] then db else Run(Apply(db, reqs[0]), reqs[1..])
  }

  // ---------------------------------------------------------------------
  // Per-action effects on stock and ledger.
  // ---------------------------------------------------------------------

  /** A successful create lowers each row of its warehouse by the product's total count and writes one -count movement per line. */
  lemma StoreEffect(db: Db, customer: string, w: WarehouseId, items: seq<Item>)
    requires Store(db, customer, w, items).result.Ok?
    ensures var d := Store(db, customer, w, items).db;
      && d.ledger == db.ledger + Moves(items, w, Reserve, OrderCreated(db.nextId))
      && d.stock.Keys == db.stock.Keys
      && forall k :: k in db.stock ==>
           d.stock[k] == db.stock[k] - (if k.warehouse == w then Count(items, k.product) else 0)
  {
    BatchEffect(db.stock, items, w, Reserve, OrderCreated(db.nextId));
  }

  /** A successful cancel raises each row of the order's warehouse by the product's total count and writes one +count movement per line. */
  lemma CancelEffect(db: Db, id: OrderId)
    requires Cancel(db, id).result.Ok?
    ensures var d := Cancel(db, id).db; var o := db.orders[id];
      && d.ledger == db.ledger + Moves(o.items, o.warehouse, Release, OrderCanceled(id))
      && d.stock.Keys == db.stock.Keys
      && forall k :: k in db.stock ==>
           d.stock[k] == db.stock[k] + (if k.warehouse == o.warehouse then Count(o.items, k.product) else 0)
  {
    var o := db.orders[id];
    BatchEffect(db.stock, o.items, o.warehouse, Release, OrderCanceled(id));
  }

  /** A successful resume lowers each row of the order's warehouse by the product's total count and writes one -count movement per line. */
  lemma ResumeEffect(db: Db, id: OrderId)
    requires Resume(db, id).result.Ok?
    ensures var d := Resume(db, id).db; var o := db.orders[id];
      && d.ledger == db.ledger + Moves(o.items, o.warehouse, Reserve, OrderResumed(id))
      && d.stock.Keys == db.stock.Keys
      && forall k :: k in db.stock ==>
           d.stock[k] == db.stock[k] - (if k.warehouse == o.warehouse then Count(o.items, k.product) else 0)
  {
    var o := db.orders[id];
    BatchEffect(db.stock, o.items, o.warehouse, Reserve, OrderResumed(id));
  }

  /**
   * A successful update gives the old lines back at the old warehouse and
   * takes the new lines at the requested one, writing the release movements
   * first and the reservation movements after them.
   */
  lemma UpdateEffect(db: Db, id: OrderId, customer: string, w: WarehouseId, items: seq<Item>)
    requires Update(db, id, customer, w, items).result.Ok?
    ensures var d := Update(db, id, customer, w, items).db; var o := db.orders[id];
      && d.ledger == db.ledger + Moves(o.items, o.warehouse, Release, UpdateRelease(id))
                               + Moves(items, w, Reserve, OrderUpdated(id))
      && d.stock.Keys == db.stock.Keys
      && forall k :: k in db.stock ==>
           d.stock[k] == db.stock[k]
             + (if k.warehouse == o.warehouse then Count(o.items, k.product) else 0)
             - (if k.warehouse == w then Count(items, k.product) else 0)
  {
    var o := db.orders[id];
    var s1 := ApplyMoves(db.stock, Moves(o.items, o.warehouse, Release, UpdateRelease(id)));
    BatchEffect(db.stock, o.items, o.warehouse, Release, UpdateRelease(id));
    BatchEffect(s1, items, w, Reserve, OrderUpdated(id));
  }

  // ---------------------------------------------------------------------
  // Conservation: every action changes stock exactly as the movements it
  // appends say.
  // ---------------------------------------------------------------------

  /** `after` extends `before`'s ledger and its balances are `before`'s with the new movements applied. */
  predicate Appends(before: Db, after: Db)
  {
    && |before.ledger| <= |after.ledger|
    && after.ledger[..|before.ledger|] == before.ledger
    && after.stock == ApplyMoves(before.stock, after.ledger[|before.ledger|..])
    && after.products == before.products
    && after.warehouses == before.warehouses
  }

  lemma {:induction false} EveryActionAppends(db: Db, req: Request)
    ensures Appends(db, Apply(db, req))
    ensures Apply(db, req).stock.Keys == db.stock.Keys
    ensures forall k :: k in db.stock ==>
      Apply(db, req).stock[k] == db.stock[k] + Delta(Apply(db, req).ledger[|db.ledger|..], k)
  {
    var d := Apply(db, req);
    var n := |db.ledger|;
    match req {
      case StoreRequest(c, w, items) =>
        if Store(db, c, w, items).result.Ok? {
          assert d.ledger[n..] == Moves(items, w, Reserve, OrderCreated(db.nextId));
        } else {
          assert d.ledger[n..] == [];
        }
      case CompleteRequest(id) =>
        assert d.ledger[n..] == [];
      case UpdateRequest(id, c, w, items) =>
        if Update(db, id, c, w, items).result.Ok? {
          var o := db.orders[id];
          var rel := Moves(o.items, o.warehouse, Release, UpdateRelease(id));
          var res := Moves(items, w, Reserve, OrderUpdated(id));
          assert d.ledger == db.ledger + (rel + res);
          assert d.ledger[n..] == rel + res;
          ApplyMovesAppend(db.stock, rel, res);
        } else {
          assert d.ledger[n..] == [];
        }
      case CancelRequest(id) =>
        if Cancel(db, id).result.Ok? {
          var o := db.orders[id];
          assert d.ledger[n..] == Moves(o.items, o.warehouse, Release, OrderCanceled(id));
        } else {
          assert d.ledger[n..] == [];
        }
      case ResumeRequest(id) =>
        if Resume(db, id).result.Ok? {
          var o := db.orders[id];
          assert d.ledger[n..] == Moves(o.items, o.warehouse, Reserve, OrderResumed(id));
        } else {
          assert d.ledger[n..] == [];
        }
    }
    Conservation(db.stock, d.ledger[n..]);
  }

  /** Over any run the ledger only grows and replaying what was appended reproduces the balances. */
  lemma {:induction false} RunAppends(db: Db, reqs: seq<Request>)
    ensures Appends(db, Run(db, reqs))
    decreases |reqs|
  {
    if reqs != [] {
      var d1 := Apply(db, reqs[0]);
      var d := Run(d1, reqs[1..]);
      EveryActionAppends(db, reqs[0]);
      RunAppends(d1, reqs[1..]);
      var a := d1.ledger[|db.ledger|..];
      var b := d.ledger[|d1.ledger|..];
      assert d.ledger == db.ledger + a + b by {
        assert d.ledger == d.ledger[..|d1.ledger|] + b;
        assert d1.ledger == d1.ledger[..|db.ledger|] + a;
      }
      assert d.ledger[|db.ledger|..] == a + b;
      ApplyMovesAppend(db.stock, a, b);
    }
  }

  // ---------------------------------------------------------------------
  // Cancel and resume.
  // ---------------------------------------------------------------------

  /**
   * Cancel followed by a successful resume restores every balance and the
   * order table, and leaves two movements per line in the ledger.
   */
  lemma CancelResumeRoundTrip(db: Db, id: OrderId)
    requires Cancel(db, id).result.Ok?
    requires Resume(Cancel(db, id).db, id).result.Ok?
    ensures var d := Resume(Cancel(db, id).db, id).db;
      && d.stock == db.stock
      && d.orders == db.orders
      && d.nextId == db.nextId
      && |d.ledger| == |db.ledger| + 2 * |db.orders[id].items|
  {
    var o := db.orders[id];
    var d1 := Cancel(db, id).db;
    assert d1.orders[id] == o.(status := Canceled);
    assert d1.orders[id := o] == db.orders;
    ReserveUndoesRelease(db.stock, o.items, o.warehouse, OrderCanceled(id), OrderResumed(id));
  }

  /** Count of a product over lines with non-negative counts is at least any one of its lines. */
  lemma {:induction false} CountCoversLine(items: seq<Item>, i: nat)
    requires i < |items|
    requires forall j :: 0 <= j < |items| ==> items[j].count >= 0
    ensures Count(items, items[i].product) >= items[i].count
  {
    if i == 0 {
      CountNonNegative(items[1..], items[0].product);
    } else {
      CountCoversLine(items[1..], i - 1);
    }
  }

  /**
   * Right after a cancel, resume passes its preflight whenever the balances
   * were non-negative and every line's row exists.
   */
  lemma ResumeAfterCancel(db: Db, id: OrderId)
    requires Cancel(db, id).result.Ok?
    requires NonNegative(db.stock)
    requires forall i :: 0 <= i < |db.orders[id].items| ==> db.orders[id].items[i].count >= 0
    requires forall i :: 0 <= i < |db.orders[id].items| ==>
      StockKey(db.orders[id].items[i].product, db.orders[id].warehouse) in db.stock
    ensures Resume(Cancel(db, id).db, id).result.Ok?
  {
    var o := db.orders[id];
    var d1 := Cancel(db, id).db;
    CancelEffect(db, id);
    forall i | 0 <= i < |o.items| ensures Covered(d1.stock, o.warehouse, o.items[i]) {
      CountCoversLine(o.items, i);
    }
  }

  // ---------------------------------------------------------------------
  // Non-negativity.
  // ---------------------------------------------------------------------

  /** Every order's lines have positive counts and distinct products, and no balance is negative. */
  predicate Sound(db: Db)
  {
    && NonNegative(db.stock)
    && forall id :: id in db.orders ==>
         && DistinctProducts(db.orders[id].items)
         && forall i :: 0 <= i < |db.orders[id].items| ==> db.orders[id].items[i].count >= 1
  }

  /** Whether the lines a request carries name distinct products. */
  predicate DistinctRequest(req: Request)
  {
    match req
    case StoreRequest(_, _, items) => DistinctProducts(items)
    case UpdateRequest(_, _, _, items) => DistinctProducts(items)
    case _ => true
  }

  /** An update releases before it reserves, so lines checked against the old balance stay covered. */
  lemma UpdateKeepsSound(db: Db, id: OrderId, c: string, w: WarehouseId, items: seq<Item>)
    requires Sound(db)
    requires DistinctProducts(items)
    ensures Sound(Update(db, id, c, w, items).db)
  {
    if Update(db, id, c, w, items).result.Ok? {
      var o := db.orders[id];
      var s1 := ApplyMoves(db.stock, Moves(o.items, o.warehouse, Release, UpdateRelease(id)));
      ReleaseRaises(db.stock, o.items, o.warehouse, UpdateRelease(id));
      forall i | 0 <= i < |items| ensures Covered(s1, w, items[i]) {
        assert Covered(db.stock, w, items[i]);
      }
      ReserveKeepsNonNegative(s1, items, w, OrderUpdated(id));
    }
  }

  /** Each action keeps balances non-negative as long as request lines name distinct products. */
  lemma StepKeepsSound(db: Db, req: Request)
    requires Sound(db)
    requires DistinctRequest(req)
    ensures Sound(Apply(db, req))
  {
    match req {
      case StoreRequest(c, w, items) =>
        if Store(db, c, w, items).result.Ok? {
          ReserveKeepsNonNegative(db.stock, items, w, OrderCreated(db.nextId));
        }
      case CompleteRequest(id) =>
      case UpdateRequest(id, c, w, items) =>
        UpdateKeepsSound(db, id, c, w, items);
      case CancelRequest(id) =>
        if Cancel(db, id).result.Ok? {
          var o := db.orders[id];
          ReleaseRaises(db.stock, o.items, o.warehouse, OrderCanceled(id));
        }
      case ResumeRequest(id) =>
        if Resume(db, id).result.Ok? {
          var o := db.orders[id];
          ReserveKeepsNonNegative(db.stock, o.items, o.warehouse, OrderResumed(id));
        }
    }
  }

  predicate AllDistinct(reqs: seq<Request>)
  {
    forall i :: 0 <= i < |reqs| ==> DistinctRequest(reqs[i])
  }

  /** From a sound state, a run of requests whose lines name distinct products never drives a balance negative. */
  lemma {:induction false} RunKeepsSound(db: Db, reqs: seq<Request>)
    requires Sound(db)
    requires AllDistinct(reqs)
    ensures Sound(Run(db, reqs))
    decreases |reqs|
  {
    if reqs != [] {
      StepKeepsSound(db, reqs[0]);
      RunKeepsSound(Apply(db, reqs[0]), reqs[1..]);
    }
  }

  // ---------------------------------------------------------------------
  // Two consequences of checking each line on its own against the stock as
  // it was before the transaction.
  // ---------------------------------------------------------------------

  /** Two lines of the same product, each within stock on its own, take the balance below zero. */
  lemma RepeatedLinesOverdraw()
    ensures var db := Db(map[StockKey(1, 1) := 5], [], map[], 1, {1}, {1});
      var s := Store(db, "c", 1, [Item(1, 3), Item(1, 3)]);
      && s.result == Ok(1)
      && StockKey(1, 1) in s.db.stock
      && s.db.stock[StockKey(1, 1)] == -1
  {
    var db := Db(map[StockKey(1, 1) := 5], [], map[], 1, {1}, {1});
    var items := [Item(1, 3), Item(1, 3)];
    assert "c"[0] !in TrimmedChars;
    assert ValidRequest(db, "c", 1, items);
    assert AllCovered(db.stock, 1, items);
    StoreEffect(db, "c", 1, items);
    assert Count(items[1..], 1) == 3;
  }

  /**
   * An update whose new line would fit once the order's own old line is
   * given back is still refused, because the preflight reads the balance
   * before the release.
   */
  lemma UpdateIgnoresOwnRelease()
    ensures var db := Db(map[StockKey(1, 1) := 5], [], map[0 := Order("c", 1, Active, [Item(1, 10)])], 1, {1}, {1});
      var released := ApplyMoves(db.stock, Moves([Item(1, 10)], 1, Release, UpdateRelease(0)));
      && Covered(released, 1, Item(1, 12))
      && Update(db, 0, "c", 1, [Item(1, 12)]).result == Err(InsufficientStock(1))
  {
    var db := Db(map[StockKey(1, 1) := 5], [], map[0 := Order("c", 1, Active, [Item(1, 10)])], 1, {1}, {1});
    assert "c"[0] !in TrimmedChars;
    assert ValidRequest(db, "c", 1, [Item(1, 12)]);
    assert !Covered(db.stock, 1, Item(1, 12));
    BatchEffect(db.stock, [Item(1, 10)], 1, Release, UpdateRelease(0));
    assert Count([Item(1, 10)][1..], 1) == 0;
  }
}
