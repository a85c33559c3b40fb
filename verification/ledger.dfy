/**
 * Stock balances and the movement ledger.  A balance table is a map from
 * stock key to quantity; a batch of movements is applied to it one entry
 * at a time, exactly as the controller's loops issue one increment or
 * decrement per order line.
 */
module Ledger {
  import opened Types

  type Balances = map<StockKey, int>

  /** Whether a batch of lines gives stock back or takes it. */
  datatype Direction = Release | Reserve

  function Signed(dir: Direction, n: int): int
  {
    if dir == Release then n else -n
  }

  /** Total count requested for product `p` over the lines. */
  function Count(items: seq<Item>, p: ProductId): int
  {
    if items == [] then 0
    else (if items[0].product == p then items[0].count else 0) + Count(items[1..], p)
  }

  /**
   * An increment or decrement issued through a `where` on the key: a missing
   * row matches nothing, so the table is left as it is.
   */
  function Adjust(stock: Balances, key: StockKey, delta: int): Balances
  {
    if key in stock then stock[key := stock[key] + delta] else stock
  }

  /** The balances after applying the movements in order. */
  function ApplyMoves(stock: Balances, moves: seq<Movement>): Balances
  {
    if moves == [] then stock
    else ApplyMoves(Adjust(stock, moves[0].Key(), moves[0].quantity), moves[1..])
  }

  /** Net quantity the movements record for one key. */
  function Delta(moves: seq<Movement>, key: StockKey): int
  {
    if moves == [] then 0
    else (if moves[0].Key() == key then moves[0].quantity else 0) + Delta(moves[1..], key)
  }

  /** The movement written for one order line. */
  function Line(item: Item, w: WarehouseId, dir: Direction, reason: Reason): Movement
  {
    Movement(item.product, w, Signed(dir, item.count), reason)
  }

  /** The movements a batch writes: exactly one per line, in line order. */
  function Moves(items: seq<Item>, w: WarehouseId, dir: Direction, reason: Reason): (ms: seq<Movement>)
    ensures |ms| == |items|
    ensures forall i :: 0 <= i < |items| ==>
      ms[i].product == items[i].product && ms[i].warehouse == w &&
      ms[i].quantity == Signed(dir, items[i].count) && ms[i].reason == reason
  {
    if items == [] then []
    else [Line(items[0], w, dir, reason)] + Moves(items[1..], w, dir, reason)
  }

  predicate Covered(stock: Balances, w: WarehouseId, item: Item)
  {
    StockKey(item.product, w) in stock && stock[StockKey(item.product, w)] >= item.count
  }

  predicate DistinctProducts(items: seq<Item>)
  {
    forall i, j :: 0 <= i < j < |items| ==> items[i].product != items[j].product
  }

  predicate NonNegative(stock: Balances)
  {
    forall k :: k in stock ==> stock[k] >= 0
  }

  // ---------------------------------------------------------------------
  // Conservation: applying movements changes each existing row by exactly
  // the net quantity the movements record for it, and never adds or drops
  // a row.
  // ---------------------------------------------------------------------

  lemma {:induction false} Conservation(stock: Balances, moves: seq<Movement>)
    ensures ApplyMoves(stock, moves).Keys == stock.Keys
    ensures forall k :: k in stock ==> ApplyMoves(stock, moves)[k] == stock[k] + Delta(moves, k)
  {
    if moves != [] {
      Conservation(Adjust(stock, moves[0].Key(), moves[0].quantity), moves[1..]);
    }
  }

  lemma {:induction false} ApplyMovesAppend(stock: Balances, a: seq<Movement>, b: seq<Movement>)
    ensures ApplyMoves(stock, a + b) == ApplyMoves(ApplyMoves(stock, a), b)
  {
    if a == [] {
      assert a + b == b;
    } else {
      assert (a + b)[0] == a[0];
      assert (a + b)[1..] == a[1..] + b;
      ApplyMovesAppend(Adjust(stock, a[0].Key(), a[0].quantity), a[1..], b);
    }
  }

  lemma ApplyMovesSnoc(stock: Balances, a: seq<Movement>, m: Movement)
    ensures ApplyMoves(stock, a + [m]) == Adjust(ApplyMoves(stock, a), m.Key(), m.quantity)
  {
    ApplyMovesAppend(stock, a, [m]);
    assert [m][1..] == [];
  }

  lemma {:induction false} DeltaAppend(a: seq<Movement>, b: seq<Movement>, k: StockKey)
    ensures Delta(a + b, k) == Delta(a, k) + Delta(b, k)
  {
    if a == [] {
      assert a + b == b;
    } else {
      assert (a + b)[0] == a[0];
      assert (a + b)[1..] == a[1..] + b;
      DeltaAppend(a[1..], b, k);
    }
  }

  lemma {:induction false} MovesSnoc(items: seq<Item>, i: nat, w: WarehouseId, dir: Direction, reason: Reason)
    requires i < |items|
    ensures Moves(items[..i + 1], w, dir, reason) == Moves(items[..i], w, dir, reason) + [Line(items[i], w, dir, reason)]
  {
    var lhs := Moves(items[..i + 1], w, dir, reason);
    var rhs := Moves(items[..i], w, dir, reason) + [Line(items[i], w, dir, reason)];
    assert |lhs| == |rhs|;
    forall j | 0 <= j < |lhs| ensures lhs[j] == rhs[j] {
    }
  }

  /** A batch moves each key of its warehouse by the signed total count of that product. */
  lemma {:induction false} MovesDelta(items: seq<Item>, w: WarehouseId, dir: Direction, reason: Reason, k: StockKey)
    ensures Delta(Moves(items, w, dir, reason), k) ==
      if k.warehouse == w then Signed(dir, Count(items, k.product)) else 0
  {
    if items != [] {
      var ms := Moves(items, w, dir, reason);
      assert ms[0] == Line(items[0], w, dir, reason);
      assert ms[1..] == Moves(items[1..], w, dir, reason);
      MovesDelta(items[1..], w, dir, reason, k);
    }
  }

  /** Balances after applying a batch, row by row. */
  lemma {:induction false} BatchEffect(stock: Balances, items: seq<Item>, w: WarehouseId, dir: Direction, reason: Reason)
    ensures ApplyMoves(stock, Moves(items, w, dir, reason)).Keys == stock.Keys
    ensures forall k :: k in stock ==>
      ApplyMoves(stock, Moves(items, w, dir, reason))[k] ==
        stock[k] + (if k.warehouse == w then Signed(dir, Count(items, k.product)) else 0)
  {
    var ms := Moves(items, w, dir, reason);
    Conservation(stock, ms);
    forall k | k in stock
      ensures ApplyMoves(stock, ms)[k] == stock[k] + (if k.warehouse == w then Signed(dir, Count(items, k.product)) else 0)
    {
      MovesDelta(items, w, dir, reason, k);
    }
  }

  /** Releasing a batch of lines and then reserving the same lines restores every balance. */
  lemma ReserveUndoesRelease(stock: Balances, items: seq<Item>, w: WarehouseId, r1: Reason, r2: Reason)
    ensures ApplyMoves(ApplyMoves(stock, Moves(items, w, Release, r1)), Moves(items, w, Reserve, r2)) == stock
  {
    var s1 := ApplyMoves(stock, Moves(items, w, Release, r1));
    var s2 := ApplyMoves(s1, Moves(items, w, Reserve, r2));
    BatchEffect(stock, items, w, Release, r1);
    BatchEffect(s1, items, w, Reserve, r2);
    assert s2.Keys == stock.Keys;
    forall k | k in stock ensures s2[k] == stock[k] {
    }
  }

  // ---------------------------------------------------------------------
  // Counting lines of one product.
  // ---------------------------------------------------------------------

  lemma {:induction false} CountNonNegative(items: seq<Item>, p: ProductId)
    requires forall i :: 0 <= i < |items| ==> items[i].count >= 0
    ensures Count(items, p) >= 0
  {
    if items != [] {
      CountNonNegative(items[1..], p);
    }
  }

  lemma {:induction false} CountAbsent(items: seq<Item>, p: ProductId)
    requires forall i :: 0 <= i < |items| ==> items[i].product != p
    ensures Count(items, p) == 0
  {
    if items != [] {
      CountAbsent(items[1..], p);
    }
  }

  /** With distinct products, the total for a product is the count of its one line. */
  lemma {:induction false} CountDistinct(items: seq<Item>, i: nat)
    requires DistinctProducts(items) && i < |items|
    ensures Count(items, items[i].product) == items[i].count
  {
    if i == 0 {
      CountAbsent(items[1..], items[0].product);
    } else {
      CountDistinct(items[1..], i - 1);
    }
  }

  /**
   * Reserving lines with distinct products, each covered by its row, keeps
   * every balance non-negative.
   */
  lemma {:induction false} ReserveKeepsNonNegative(stock: Balances, items: seq<Item>, w: WarehouseId, reason: Reason)
    requires NonNegative(stock)
    requires DistinctProducts(items)
    requires forall i :: 0 <= i < |items| ==> Covered(stock, w, items[i])
    ensures NonNegative(ApplyMoves(stock, Moves(items, w, Reserve, reason)))
  {
    var s1 := ApplyMoves(stock, Moves(items, w, Reserve, reason));
    BatchEffect(stock, items, w, Reserve, reason);
    forall k | k in s1 ensures s1[k] >= 0 {
      if k.warehouse == w {
        if i :| 0 <= i < |items| && items[i].product == k.product {
          CountDistinct(items, i);
          assert Covered(stock, w, items[i]);
        } else {
          CountAbsent(items, k.product);
        }
      }
    }
  }

  /** Releasing lines with non-negative counts never lowers a balance. */
  lemma {:induction false} ReleaseRaises(stock: Balances, items: seq<Item>, w: WarehouseId, reason: Reason)
    requires forall i :: 0 <= i < |items| ==> items[i].count >= 0
    ensures ApplyMoves(stock, Moves(items, w, Release, reason)).Keys == stock.Keys
    ensures forall k :: k in stock ==> ApplyMoves(stock, Moves(items, w, Release, reason))[k] >= stock[k]
  {
    BatchEffect(stock, items, w, Release, reason);
    forall k | k in stock {
      CountNonNegative(items, k.product);
    }
  }
}
