# Order lifecycle of the e-commerce order controller

This project models the order controller of an e-commerce backend
(`controllers/order.controller.js`) as an in-memory state machine, and proves
properties of it. The model covers four things:

- cash and VNPay order creation, with their validation chains;
- status updates through the fixed transition table, including the stock
  decrement on `pending -> confirmed`;
- cancellation, with its authorisation checks and the administrator's stock
  credit-back;
- the small expressions of the listings and the detail view: the status
  filter, the sort direction, the unit-price fallback, the owner-or-admin
  read rule and the six-character order tag used in notifications.

The database becomes a class `Store` with four fields:

- `products`: product id to product. A product has a total `quantity` and a
  sequence of `(color, size, quantity)` variations.
- `orders`: order id to order.
- `carts`: user id to cart items.
- `notices`: the notifications written so far.

Each handler that changes the store is a method of `Store`. The three loops of
the source are methods proved against recursive specification functions:

- `DecrementStock`, specified by `ConfirmRun`: the item-by-item decrement
  when an order is confirmed.
- `CreditStock`, specified by `CreditRun`: the credit-back when an
  administrator cancels.
- `Validate`, specified by `CheckRequest`: the validation chain that stops at
  the first failing check.

The lemmas are stated about those specification functions.

Behaviours of the code that the model keeps on purpose:

- A confirmation that stops at a short item keeps the decrements already made
  for the items before it (`ConfirmStopsAt`).
- An administrator's cancellation credits only the variation's quantity,
  never the product's total. It does so whatever the order's status, even for
  a `pending` order that was never decremented (`CreditExact`,
  `ConfirmThenAdminCancel`).
- Item fields are checked for JavaScript truthiness, so `0` and `""` are
  refused but negative quantities and prices pass.
- The variation lookup takes the first variation matching both color and
  size.
- Items whose product no longer exists are skipped silently, both on
  confirmation and on cancellation.
- `updateOrderStatus` checks no role. A move to `cancelled` through it
  credits no stock.

In particular, the decrement on confirmation is not all-or-nothing: each
item's decrement is saved before the next item is checked. The credit-back
on cancellation restores the variation only, never the product total.

The modules, one per concern:

- `Domain` (domain.dfy): the shared values, such as statuses, items,
  products and orders.
- `Inventory` (inventory.dfy): variation lookup, the confirmation and
  credit-back runs, and their lemmas.
- `Lifecycle` (lifecycle.dfy): the transition table and the cancellation and
  read rules.
- `Creation` (creation.dfy): request validation and the order an accepted
  request builds.
- `Queries` (queries.dfy): the status filter, the sort direction and the unit
  price.
- `Controller` (controller.dfy): the `Store` class and its handlers.

Modelling conventions:

- An absent string field is `""` and an absent number is `0`; both are falsy,
  as in the source.
- A missing or wrong-typed item list, address, fee or total is `None`.
- Money amounts and quantities are `int`.
- The id of a new order comes from the store's id generator. It is a
  parameter of the creation methods, which require that it is not in use yet.

## Model

| member | source | states |
|---|---|---|
| Domain.ParseStatus | controllers/order.controller.js:139 | a string is read as a status only when it is that status's name; otherwise it names no status |
| Domain.ParseStatusName | controllers/order.controller.js:139 | every status's name reads back as that status, and no two statuses share a name |
| Domain.ShortId | controllers/order.controller.js:319 | the notification tag is the last six characters of the order id (the whole id when shorter), a suffix of it |
| Domain.Announce | controllers/order.controller.js:315-325 | a notification goes to the order's owner, references the order, carries the new status, and is tagged with the order's six-character short id |
| Inventory.FindFrom | controllers/order.controller.js:282-284 | the lookup returns the first variation matching both color and size, or none when no variation matches |
| Inventory.Take | controllers/order.controller.js:290-291 | confirming one item lowers both the chosen variation and the product total by the item's quantity; name and price stay |
| Inventory.Give | controllers/order.controller.js:411 | crediting one item raises only the chosen variation; the product total, name and price stay |
| Inventory.ConfirmExact | controllers/order.controller.js:275-296 | a confirmation that completes lowers each variation's stock by exactly what the order's items ask of it and each product total by the product's whole demand. Entry by entry, only the first entry matching a color and size moves; later duplicates, colors, sizes, names and prices stay; no product is added or removed |
| Inventory.ConfirmCompletes | controllers/order.controller.js:278-293 | with no negative quantity, a confirmation completes when every item whose product exists finds its variation holding the whole demand on it; `ConfirmCompletesExactly` covers negative quantities |
| Inventory.ConfirmCompletesExactly | controllers/order.controller.js:278-293 | for every order, negative quantities included, a confirmation completes exactly when each item whose product exists finds its variation holding what that item and the items before it ask of that variation |
| Inventory.ConfirmNeedsEnoughStock | controllers/order.controller.js:278-293 | conversely, a confirmation that completes found every such item's variation, holding the whole demand on it |
| Inventory.ConfirmStopsAt | controllers/order.controller.js:278-293 | a confirmation that fails stops at some item j. The stock is what a complete run over items 0..j-1 leaves, so earlier decrements persist, and item j's variation is missing or short in that stock |
| Inventory.ConfirmKeepsStockNonNegative | controllers/order.controller.js:286-290 | the stock check before each decrement keeps every variation's stock at or above zero |
| Inventory.CreditExact | controllers/order.controller.js:398-423 | an administrator's credit-back raises each variation's stock by exactly what the order's items ask of it, whatever the status. Entry by entry, only the first entry matching a color and size rises; later duplicates, colors and sizes stay; product totals never change; items with a missing product or variation are skipped |
| Inventory.ConfirmThenAdminCancel | controllers/order.controller.js:398-423 | confirming an order and then cancelling it as an administrator restores every variation's stock, but leaves each product total lower by what the order took |
| Inventory.DecrementStock | controllers/order.controller.js:278-293 | the confirmation loop computes exactly `ConfirmRun`, including early exit with earlier decrements kept and skipped missing products |
| Inventory.CreditStock | controllers/order.controller.js:399-422 | the credit-back loop computes exactly `CreditRun` |
| Lifecycle.Transition | controllers/order.controller.js:255-272 | a status update is accepted exactly when the current status is not terminal and the requested string names one of the table's next statuses; an accepted move always moves forward |
| Lifecycle.TransitionEdges | controllers/order.controller.js:255-260 | exactly seven moves are accepted: pending to confirmed or cancelled, confirmed to processing or cancelled, processing to shipping or cancelled, shipping to delivered; no status moves to itself |
| Lifecycle.TraceMovesForward | controllers/order.controller.js:255-272 | over any history in which each call leaves the status, makes a move the table allows, or cancels a non-terminal order, the order never returns to a status it has left, and a delivered or cancelled order never changes |
| Lifecycle.CancelCode | controllers/order.controller.js:379-396 | cancellation gives 400 exactly for delivered or cancelled orders. It is allowed exactly when the order is not terminal and the caller is an administrator or the owner of a pending order; every other case gives 403 |
| Lifecycle.CancelAgainstTable | controllers/order.controller.js:388-396 | whatever an owner may cancel, the transition table may also cancel; an administrator may cancel a shipping order, which the table refuses |
| Lifecycle.ReadCode | controllers/order.controller.js:202-210 | reading an order gives 404 when it is missing. It is allowed exactly for an administrator or the resolved owner, gives 403 for any other resolved user, and fails (500) exactly when a non-admin reads an order whose owner reference does not resolve |
| Creation.Code | controllers/order.controller.js:21-74 | an unauthenticated request gives 401 and an unknown product 404; every other refusal gives 400 |
| Creation.ItemFailure | controllers/order.controller.js:30-57 | an item passes exactly when all five fields are truthy and, for a cash order, it names a stored product whose first matching variation holds at least its quantity; for a VNPay order only the fields are checked. A refusal carries the item's index; it is a missing field exactly when a field is falsy, an unknown product exactly when the fields pass and a cash order's product is missing, and otherwise short stock reporting the stock left (0 without a matching variation) |
| Creation.FirstItemFailure | controllers/order.controller.js:30-57 | the item loop passes exactly when every item passes |
| Creation.FirstItemFailureIsEarliest | controllers/order.controller.js:30-57 | a refusal from the item loop is that of the first failing item; every item before it passed |
| Creation.AcceptedExactly | controllers/order.controller.js:21-74 | a request is accepted exactly when it has a user, a non-empty item list with every item passing, a complete address, a numeric fee and a non-negative numeric total |
| Creation.AcceptedItemsAvailable | controllers/order.controller.js:43-56 | every item of an accepted request has all fields truthy; for a cash order each names a stored product whose matching variation holds its quantity |
| Creation.VNPayAcceptsCash | controllers/order.controller.js:491-499 | the VNPay handler accepts everything the cash handler accepts, and refuses for a different reason only where the cash handler reports a missing product or short stock |
| Creation.Placed | controllers/order.controller.js:76-100 | an accepted request becomes a pending order with empty payment information, the request's items, method, shipping fee and total, and the six address fields copied (fullName to full_name, phone to phone_number) |
| Creation.Validate | controllers/order.controller.js:21-74 | the handlers' validation code computes exactly `CheckRequest` (user, items, each item, address, amounts, stopping at the first failure); it never touches stock |
| Queries.StatusFilter | controllers/order.controller.js:346-348 | the status query filters only when it is one of the six status names, and then filters by that status; otherwise it is ignored |
| Queries.StatusFilterRoundTrip | controllers/order.controller.js:139-140 | filtering by a status's own name selects that status |
| Queries.SortDirection | controllers/order.controller.js:351 | the administrator's listing is ascending exactly for sort `asc` and descending for anything else |
| Queries.UnitPrice | controllers/order.controller.js:173 | the shown unit price is the item's own price when truthy, else the product's price if the product exists, else 0 |
| Queries.AcceptedItemsShowOrderPrice | controllers/order.controller.js:224 | for an order built from an accepted request, every item shows the price captured at ordering time, whatever has become of the product |
| Controller.ClearCart | controllers/order.controller.js:105-116 | emptying a cart affects only the user's existing cart and creates none |
| Controller.Store.CreateCashOrder | controllers/order.controller.js:8-124 | a refused request returns its failure's code and changes nothing. An accepted one returns 201, stores the pending order with the method defaulting to cash, and empties the user's cart; stock is never changed |
| Controller.Store.CreateVNPayOrder | controllers/order.controller.js:471-568 | a VNPay order is checked without products or stock and is always stored with method `vnpay`; the cart and the stock are left alone |
| Controller.Store.UpdateOrderStatus | controllers/order.controller.js:242-335 | a missing order gives 404 and a refused move 400, both changing nothing. For pending to confirmed the stock becomes `ConfirmRun`'s result: on failure 400, status unchanged, earlier decrements kept. Any other accepted move leaves stock alone. Success stores the status and writes one notification. Every order's status takes one `Step` |
| Controller.Store.CancelOrder | controllers/order.controller.js:369-466 | the result is `CancelCode`'s, and a refusal changes nothing. A successful cancel sets `cancelled` and writes one notification. An administrator's cancel credits stock as `CreditRun`; anyone else's leaves stock alone. Every order's status takes one `Step` |

## Left out

- Database calls (`findById`, `populate`, `lean`, `save`, `findOneAndUpdate`,
  `Notification.create`) are map lookups and updates on `Store`; query
  semantics, persistence failures and timestamps are not modelled.
- Running the listing queries of `getMyOrders` and `getAllOrders` (the
  `Order.find` itself, populate, sorting by `createdAt`) is not modelled;
  only the status-filter guard, the sort direction and the unit-price
  fallback they feed in are.
- The enrichment of items with `productName` and `imageUrl` is not modelled.
  It is a string fallback only.
- The first item's image and name in notifications and socket events are not
  modelled.
- The notification's message text is not modelled; only the six-character
  order tag and the announced status are kept.
- Realtime socket emission (`io.to(...).emit`) is fire-and-forget network
  output and is not modelled.
- Logging is not modelled.
- The top-level `try/catch` that maps exceptions to 500 is not modelled. The
  one exception the model keeps is reading an order whose owner reference
  does not resolve (`ReadCode`).
- Concurrency is not modelled: the store is single-threaded, so the race
  between the stock check and the save does not arise.
- A `product_id` sent as an object with an `_id` is assumed to be normalised
  to the id string before the model sees it. Item ids are plain strings.
- JavaScript number semantics (NaN, fractions, numeric strings for
  quantities) are not modelled; amounts and quantities are `int`.
- Query parameters sent as arrays are read as absent.
- `createOrder` is an alias of `createCashOrder`, modelled by
  `Store.CreateCashOrder`.
