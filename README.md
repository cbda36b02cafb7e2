# Orders service core, modelled in Dafny

This project models the business logic of the orders microservice
(`src/orders/orders.service.ts`). The service keeps orders with their line
items. It prices new orders against the product catalog's reply to a
`validate_products` request, lists orders page by page, looks single orders
up with product names joined in, and changes an order's status.

In this model, the order tables are a `map<OrderId, Order>` held by the
class `Orders.OrdersService`, together with the sequence of ids in creation
order. The catalog's reply is an input value: `Products(seq<Product>)`, or
`CatalogFailure`. Money and quantities are exact integers (minor units).

- `order_types.dfy` (module `OrderTypes`): the order, line item, product,
  request and reply values, and the error kinds.
- `pricing.dfy` (module `Pricing`): covers the first-match product lookup
  (`find`), the line items with their price snapshots, the two `reduce`
  folds for `totalAmount` and `totalItems`, name enrichment, and
  `PlaceOrder`, which is the pure part of `create`.
- `pagination.dfy` (module `Pagination`): covers the status filter, the
  skip/take window and the `last_page` ceiling.
- `orders.dfy` (module `Orders`): the order store and the four operations
  `create`, `findAll`, `findOne` and `changeOrderStatus`.

The store invariant `OrdersService.Valid()` says several things:
- every stored order is filed under its own id;
- its `totalAmount` and `totalItems` are the sums over its line items;
- the creation-order sequence lists each stored id exactly once.

`Create` and `ChangeOrderStatus` preserve this invariant.

Some behaviour of the code worth knowing:
- `create` sends the requested product ids as they are, without
  removing duplicates.
- When a line item's product is missing from the catalog's reply, `findOne`
  fails with the lookup's own fault. It does not fail with a validation
  error: only `create` wraps its failures into the one BadRequest error.
- `findOne` does not check that the product names it joins in are
  non-empty, so the model does not promise it.

## Model

| member | source | states |
|---|---|---|
| `Pricing.FindProduct` | src/orders/orders.service.ts:38-40 | `find` by id: a product it returns carries the requested id |
| `Pricing.FindProductSpec` | src/orders/orders.service.ts:38-40 | the lookup fails exactly when no product in the reply has the id, and otherwise returns the product at the first position carrying it |
| `Pricing.FindProductIsFirstMatch` | src/orders/orders.service.ts:59 | conversely, when position k is the first to carry an id, the lookup returns that product, so a later duplicate in the reply is never used for a price |
| `Pricing.LineItems` | src/orders/orders.service.ts:57-61 | defined exactly when every requested product is in the reply; then one line item per requested item, in order, with the same productId and quantity and the first matching product's price |
| `Pricing.QuantityOf` | src/orders/orders.service.ts:46-48 | the `totalItems` fold over the requested quantities: not negative when no quantity is, and at least the number of requested items when every quantity is positive; `QuantityIsQuantityTotal` ties it to the line items |
| `Pricing.AmountOf` | src/orders/orders.service.ts:36-44 | the `totalAmount` left fold is defined exactly when every requested product is in the reply |
| `Pricing.AmountIsLineTotal` | src/orders/orders.service.ts:36-44 | the `totalAmount` left fold over the requested items equals the sum of price times quantity over the line items built from them |
| `Pricing.QuantityIsQuantityTotal` | src/orders/orders.service.ts:46-48 | the `totalItems` fold over the requested quantities equals the sum of the quantities of the line items built from them |
| `Pricing.NameItems` | src/orders/orders.service.ts:80-83 | defined exactly when every line item's product is in the reply; then each item keeps price, quantity and productId and gains the first matching product's name |
| `Pricing.PlaceOrder` | src/orders/orders.service.ts:28-93 | fails with BadRequest "Error validating products" exactly when the catalog call fails or a requested product is missing; otherwise one line item per requested item, priced at the first match, with totalAmount and totalItems equal to the sums over them |
| `Pricing.PlacedItemsHaveNames` | src/orders/orders.service.ts:78-84 | when pricing succeeds, name enrichment of the new order's items cannot fail |
| `Pricing.TwoItemExample` | src/orders/orders.service.ts:36-61 | two items (2 of A at 5, 1 of B at 3) give totalAmount 13, totalItems 3, and line items priced 5 and 3 |
| `Pagination.FilterByStatus` | src/orders/orders.service.ts:99-114 | keeps exactly the rows whose status is the filter's, or all rows when no status is given; every kept row matches |
| `Pagination.FilterAppend` | src/orders/orders.service.ts:109-115 | the filter distributes over concatenation, so rows keep their relative order |
| `Pagination.LastPage` | src/orders/orders.service.ts:119 | `Math.ceil(total / limit)`: the least page count whose pages of `limit` rows hold `total` rows |
| `Pagination.Window` | src/orders/orders.service.ts:110-111 | at most `take` rows, taken in order from position `skip`; empty exactly when `skip` is past the end; a full window or one that runs to the end |
| `Pagination.SkipNext` | src/orders/orders.service.ts:110 | the `(page - 1) * limit` offset that `Skip` computes: page 1 starts at row 0 and each page starts `limit` rows after the one before it |
| `Pagination.PageInRange` | src/orders/orders.service.ts:108-120 | page `page` has rows exactly when `page <= last_page` |
| `Pagination.PagesCoverAll` | src/orders/orders.service.ts:108-120 | pages 1 to `last_page`, concatenated, are the whole filtered listing |
| `Pagination.Paginate` | src/orders/orders.service.ts:98-121 | `meta.total` is the filtered count, `meta.page` the request's page, `meta.last_page` its ceiling; data is the filtered rows from `(page-1)*limit` on, in order: exactly `limit` of them, or fewer only when the page runs to the end of the filtered rows, and empty exactly past the last page |
| `Pagination.TwentyFiveRowsExample` | src/orders/orders.service.ts:98-121 | 25 rows and 10 per page give last_page 3, page 3 holds the last 5 rows, page 4 is empty with total 25 |
| `Orders.OrdersService.Create` | src/orders/orders.service.ts:27-96 | any failure is BadRequest and leaves the store unchanged; success adds exactly the new order under the fresh id, with PlaceOrder's line items and totals, and replies with all order fields and the items with product names |
| `Orders.RowsOf` | src/orders/orders.service.ts:99-115 | the order rows, without their items, that `findMany` and `count` range over: one per id, each the row of the stored order with that id |
| `Orders.OrdersService.FindAll` | src/orders/orders.service.ts:98-122 | the page of the stored rows in listing order, as Paginate states (including the full-or-to-the-end page length); every returned row is a stored order's row and matches the filter |
| `Orders.OrdersService.FindOne` | src/orders/orders.service.ts:124-160 | NotFound exactly for an unknown id; a failed catalog call is passed on; otherwise succeeds exactly when every item's product is in the reply, returning the order's fields and stored prices with each product's name |
| `Orders.OrdersService.ChangeOrderStatus` | src/orders/orders.service.ts:162-178 | fails as FindOne does, store unchanged; same status returns the order's row and its items with product names, store unchanged; otherwise only that order's status changes and the bare updated row is returned |
| `Orders.RepeatStatusChange` | src/orders/orders.service.ts:162-178 | asking twice for the same status, with a catalog reply for each call: after a successful first call the store differs from the start only in that order's status; the second call succeeds exactly when its own reply knows every product of the order, and then takes the no-change path and leaves the store as it was; an unknown id fails both times with the store unchanged |

## Left out

- Database connection and logging (`onModuleInit`, `$connect`, `Logger`) are I/O and are not modelled.
- The RPC transport (`ClientProxy.send`, `firstValueFrom`) is replaced by its outcome, the `CatalogReply` input. The catalog's own validation is not part of this model.
- Order storage is simplified. Creation is one atomic map update, and the outcome of the write is the input `stored`. Id generation is a fresh-id parameter. The default status and the creation time come from the schema, which is not part of this model, so both are parameters.
- Listing order: `findMany` has no `orderBy`, so the database promises no order. The model lists orders in creation order.
- Arithmetic: prices are JavaScript numbers, which are floating point. The model uses exact integers and does not reproduce rounding.
- Request validation is part of the request types, which are not part of this model. `FindAll` requires `page >= 1` and `limit >= 1`, as that validation is meant to ensure. Positive quantities are not assumed.
- Response shapes: `create` names the joined field `productName` and `findOne` names it `name`. Both are `NamedItem.productName` here.
- Errors are datatype variants; their shaping into `RpcException` with HTTP status codes is not modelled.
- async/await, dependency injection and concurrent status changes are not modelled; every operation runs alone.
