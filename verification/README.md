# Order lifecycle and stock engine

A Dafny model of the order controller of a small warehouse CRM. The
controller keeps three pieces of state:

- **stock rows**: one integer balance per (product, warehouse) pair, the
  row's composite key;
- **the movement ledger**: an append-only list of entries, each with a
  product, a warehouse, a signed quantity and a reason;
- **orders**: a customer, a warehouse, a status (`active`, `completed` or
  `canceled`) and a list of lines, each a product and a count.

Five actions change that state. Each action's database transaction is
modelled as one atomic step.

- `store` creates an order.
- `complete` finishes an active order.
- `update` replaces an active order's customer, warehouse and lines.
- `cancel` gives an active order's stock back.
- `resume` takes a canceled order's stock again.

The project has two layers.

- `Engine` (engine.dfy) gives each action as a function from one database
  state to the next. It works on `Ledger` (ledger.dfy), which defines
  balances, movement batches and their arithmetic.
- `Controller.OrderController` (controller.dfy) is the controller as it
  runs. Its fields are changed in place. Every action loops over the lines,
  adjusting one row and appending one movement per line. Each method is
  proved to end in exactly the state the `Engine` function gives.

The controller also keeps an object invariant, from `Reservations`
(reservations.dfy): the balances replay from the opening balances through
the ledger, and for every stock key the ledger's net quantity equals minus
what active and completed orders hold against it. `Scenarios`
(scenarios.dfy) holds concrete runs.

The model follows the code as written in three places where the design
notes of the system ask for something else:

- **Update preflight.** `update` checks the new lines against the balance
  before the order's old lines are released. It can therefore refuse an
  update that would fit after the release (`Engine.UpdateIgnoresOwnRelease`).
- **Negative stock.** The stock check looks at each line on its own, and the
  decrements are unconditional. So an order that repeats a product can take
  a balance below zero (`Engine.RepeatedLinesOverdraw`). Non-negativity is
  proved only for requests whose lines name distinct products
  (`Engine.RunKeepsSound`).
- **Warehouse change.** `update` overwrites the order's warehouse. The
  design notes say an order never moves between warehouses.

Missing stock rows are handled as the code does. An increment or decrement
issued through a `where` on a missing row matches no row, so the balance
table is left unchanged. The movement is still written.

## Model

| member | source | states |
|---|---|---|
| `Ledger.Moves` | app/Http/Controllers/OrderController.php:96-102 | a batch writes exactly one movement per line, in line order, carrying the line's product, the batch's warehouse, the line's count signed by direction, and the reason |
| `Ledger.Conservation` | app/Http/Controllers/OrderController.php:91-101 | applying movements never adds or drops a stock row and changes each existing row by exactly the net quantity the movements record for it |
| `Ledger.MovesDelta` | app/Http/Controllers/OrderController.php:251-262 | a batch of lines records, for each key of its warehouse, the signed total count of that product, and nothing for keys of other warehouses |
| `Ledger.BatchEffect` | app/Http/Controllers/OrderController.php:304-315 | after a batch, each row of the batch's warehouse has moved by the signed total count of its product; other rows are unchanged |
| `Ledger.ReserveUndoesRelease` | app/Http/Controllers/OrderController.php:251-315 | releasing a list of lines and then reserving the same lines at the same warehouse restores every balance exactly |
| `Ledger.ReserveKeepsNonNegative` | app/Http/Controllers/OrderController.php:64-94 | reserving lines that name distinct products, each covered by its row, keeps every non-negative balance non-negative |
| `Ledger.ReleaseRaises` | app/Http/Controllers/OrderController.php:251-254 | giving back lines with non-negative counts never lowers a balance and keeps the set of rows |
| `Ledger.CountDistinct` | app/Http/Controllers/OrderController.php:83-94 | when the lines name distinct products, the total a batch takes for a product is the count of that product's single line |
| `Engine.Shortage` | app/Http/Controllers/OrderController.php:64-71 | the stock check: no result exactly when every line's row exists and holds at least the line's count; otherwise the first line that fails |
| `Engine.Store` | app/Http/Controllers/OrderController.php:52-111 | a create request breaking the rules is refused with a validation error; one with a missing or short row is refused with the product of the first such line; a refusal changes nothing; success exactly when valid and every line is covered, and then a new active order with the request's customer, warehouse and lines gets the next id |
| `Engine.Complete` | app/Http/Controllers/OrderController.php:118-139 | unknown id gives not found; a non-active order gives an invalid transition and nothing changes; an active order becomes completed with the same lines, customer and warehouse, and stock and ledger stay as they were |
| `Engine.Update` | app/Http/Controllers/OrderController.php:147-231 | checks in this order: request rules, order exists, order active, then every new line against the current balance before any release, a short line refused with the product of the first such line; a refusal changes nothing; on success the order is active with the new customer, new warehouse and new lines |
| `Engine.Cancel` | app/Http/Controllers/OrderController.php:238-274 | only an existing active order can be canceled; a refusal changes nothing; on success the order is canceled and keeps its lines, customer and warehouse |
| `Engine.Resume` | app/Http/Controllers/OrderController.php:281-327 | only an existing canceled order can be resumed, and only if each of its lines is covered at its warehouse; otherwise the first short line's product is reported and nothing changes; on success the order is active again with the same lines |
| `Engine.StoreEffect` | app/Http/Controllers/OrderController.php:83-103 | a successful create appends one -count movement per line, in order, tagged with the new order, and lowers each row of the warehouse by the total count of its product |
| `Engine.UpdateEffect` | app/Http/Controllers/OrderController.php:177-223 | a successful update appends one +count movement per old line at the old warehouse, then one -count movement per new line at the new warehouse; each row gains the old total at the old warehouse and loses the new total at the new one |
| `Engine.CancelEffect` | app/Http/Controllers/OrderController.php:249-266 | a successful cancel appends one +count movement per line at the order's warehouse and raises each row there by the product's total count |
| `Engine.ResumeEffect` | app/Http/Controllers/OrderController.php:302-319 | a successful resume appends one -count movement per line at the order's warehouse and lowers each row there by the product's total count |
| `Engine.EveryActionAppends` | app/Http/Controllers/OrderController.php:74-326 | every action, successful or not, only appends to the ledger, keeps the set of stock rows, and changes each row by exactly the sum of the quantities it appended for that row |
| `Engine.RunAppends` | app/Http/Controllers/OrderController.php:74-326 | over any sequence of actions the ledger only grows, and replaying what was appended over the earlier balances gives the later balances |
| `Engine.CancelResumeRoundTrip` | app/Http/Controllers/OrderController.php:249-326 | cancel followed by a successful resume restores every balance and the whole order table, and leaves two ledger entries per line |
| `Engine.ResumeAfterCancel` | app/Http/Controllers/OrderController.php:251-299 | right after a cancel, resume always passes its stock check, provided the balances were non-negative and every line's row exists |
| `Engine.StepKeepsSound` | app/Http/Controllers/OrderController.php:64-103 | each action keeps every balance non-negative when the request's lines name distinct products and the stored orders' lines do too |
| `Engine.UpdateKeepsSound` | app/Http/Controllers/OrderController.php:167-223 | an update whose new lines name distinct products keeps every balance non-negative, because lines checked against the balance before the release stay covered after it |
| `Engine.RunKeepsSound` | app/Http/Controllers/OrderController.php:74-326 | any sequence of such actions keeps every balance non-negative |
| `Engine.RepeatedLinesOverdraw` | app/Http/Controllers/OrderController.php:64-94 | with 5 on hand, one create with two lines of 3 of the same product succeeds and leaves the row at -1 |
| `Engine.UpdateIgnoresOwnRelease` | app/Http/Controllers/OrderController.php:167-191 | with 5 on hand and an active order for 10, an update to 12 is refused for short stock although 15 would be on hand after the release |
| `Reservations.StoreKeepsReservations` | app/Http/Controllers/OrderController.php:74-103 | a create keeps the reservation accounting: the new order holds exactly what its movements took |
| `Reservations.UpdateKeepsReservations` | app/Http/Controllers/OrderController.php:177-223 | an update keeps the reservation accounting: the release gives back what the old lines held and the new lines take what the revised order holds |
| `Reservations.StepKeepsReservations` | app/Http/Controllers/OrderController.php:74-326 | every action keeps the ledger's net quantity per key equal to minus what the active and completed orders hold against that key, and keeps order ids below the next id |
| `Reservations.StepKeepsBooks` | app/Http/Controllers/OrderController.php:74-326 | every action keeps the controller's invariant: the reservation accounting above, and balances equal to the opening balances replayed through the ledger |
| `Reservations.RunKeepsReservations` | app/Http/Controllers/OrderController.php:74-326 | the reservation accounting holds after any sequence of actions |
| `Reservations.BalancesAccountForOrders` | app/Http/Controllers/OrderController.php:74-326 | from opening balances and no orders, after any sequence of actions every row exists still and equals its opening balance less what the active and completed orders hold against it |
| `Controller.OrderController.constructor` | app/Models/Stock.php:12-13 | balances are keyed by the composite (product, warehouse) key; the controller starts from the engine's empty starting state (the given balances, an empty ledger, no orders, the id counter at 1) and its invariant holds |
| `Controller.OrderController.Preflight` | app/Http/Controllers/OrderController.php:64-71 | the stock-check loop returns no line exactly when every line is covered, and otherwise the first uncovered line |
| `Controller.OrderController.Post` | app/Http/Controllers/OrderController.php:251-263 | the increment/decrement loop leaves the balances equal to the old balances with the batch applied, and appends exactly the batch's movements |
| `Controller.OrderController.PlaceItems` | app/Http/Controllers/OrderController.php:83-103 | the line-creating loop appends the lines to the order, takes each line's count from its row, and appends one -count movement per line |
| `Controller.OrderController.PlaceLine` | app/Http/Controllers/OrderController.php:84-101 | one line: appended to the order, its count taken from its row if the row exists, one -count movement appended |
| `Controller.OrderController.Store` | app/Http/Controllers/OrderController.php:52-111 | ends in exactly the state and answer of `Engine.Store`, and keeps the invariant |
| `Controller.OrderController.Create` | app/Http/Controllers/OrderController.php:74-103 | the create transaction returns the next id, ends in exactly the state of `Engine.Store` for a valid, covered request, and keeps the invariant |
| `Controller.OrderController.Complete` | app/Http/Controllers/OrderController.php:118-139 | ends in exactly the state and answer of `Engine.Complete`, and keeps the invariant |
| `Controller.OrderController.Update` | app/Http/Controllers/OrderController.php:147-231 | ends in exactly the state and answer of `Engine.Update`, and keeps the invariant |
| `Controller.OrderController.Revise` | app/Http/Controllers/OrderController.php:177-223 | the update transaction on an active order with a valid, covered request ends in exactly the state and answer of `Engine.Update`, and keeps the invariant |
| `Controller.OrderController.Cancel` | app/Http/Controllers/OrderController.php:238-274 | ends in exactly the state and answer of `Engine.Cancel`, and keeps the invariant |
| `Controller.OrderController.Resume` | app/Http/Controllers/OrderController.php:281-327 | ends in exactly the state and answer of `Engine.Resume`, and keeps the invariant |
| `Scenarios.CreateReserves` | app/Http/Controllers/OrderController.php:74-103 | with 50 on hand, an order for 10 leaves 40 and a single -10 movement |
| `Scenarios.CreateRefusedWhenShort` | app/Http/Controllers/OrderController.php:64-71 | with 5 on hand, an order for 10 is refused for product 1 and nothing changes |
| `Scenarios.UpdateSameProduct` | app/Http/Controllers/OrderController.php:177-223 | with 40 on hand, an active order for 10 changed to 15 leaves 35, with one +10 then one -15 movement |
| `Scenarios.ResumeRefusedWhenShort` | app/Http/Controllers/OrderController.php:291-299 | with 3 on hand, a canceled order for 10 is refused for product 1 and stays canceled |

## Left out

- `OrderController::index`: listing with status and warehouse filters, pagination and eager loading. This is display only.
- The stock-movement, product and warehouse listing controllers, the seeding command and the routes. They are queries, fixtures and HTTP routing, not engine logic.
- Concurrency. The stock check runs before the transaction opens, which leaves a check-then-act race. Here each action runs alone as one step, so the race is not represented.
- Database-level failures inside a transaction, such as a column type that rejects a negative value. The schema is not part of the model. Balances are unbounded integers and a decrement always applies to an existing row.
- Timestamps (`created_at`, `completed_at`), the JSON response bodies, HTTP status codes and the human-readable error and reason texts. Errors are a small datatype. Reasons are a tag per action carrying the order id.
- Validation details beyond the rules themselves. A customer made only of the characters PHP's `trim` strips is refused, as the `required` rule does, but the name is stored and measured against the 255 limit as given: the trimming request middleware is not modelled. Product and warehouse existence are checked against read-only sets of known ids.
- Line order on read-back. Cancel, resume and the update release walk an order's lines in the order they were inserted. The source reads them without an `orderBy`, so the database does not promise that order. Only the sequence of ledger entries depends on it, not the balances (`Ledger.BatchEffect`).
- Order and line identities. Lines are stored inside their order rather than as separate rows with their own ids. Order ids come from a counter starting at 1, standing in for the table's auto-increment.
- The eager loading of warehouse and product names into the returned order. Actions return the order's id (create) or the order itself.
