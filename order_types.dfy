/**
 * Values shared by the orders service: the order aggregate and its line
 * items, the read-only product view the catalog returns, the request and
 * reply shapes, and the error kinds the service raises.
 *
 * Money and quantities are exact integers (minor units); the service itself
 * computes with floating-point numbers, which this model does not reproduce.
 */
module OrderTypes {

  datatype Option<+T> = None | Some(value: T)

  datatype Result<+T, +E> = Ok(value: T) | Err(error: E)

  type ProductId = int
  type OrderId = string

  /** The closed set of order states. */
  datatype Status = Pending | Paid | Delivered | Cancelled

  /** A product as the catalog reports it. */
  datatype Product = Product(id: ProductId, name: string, price: int)

  /** The outcome of one `validate_products` call to the catalog service. */
  datatype CatalogReply = Products(products: seq<Product>) | CatalogFailure

  /** One requested item of a new order. */
  datatype ItemRequest = ItemRequest(productId: ProductId, quantity: int)

  /** A persisted line item: `price` is the catalog price at creation time. */
  datatype LineItem = LineItem(price: int, quantity: int, productId: ProductId)

  /** The order aggregate as stored, with its line items. */
  datatype Order = Order(
    id: OrderId,
    totalAmount: int,
    totalItems: int,
    status: Status,
    createdAt: int,
    items: seq<LineItem>)

  /** The order row without its items: what listings and updates return. */
  datatype OrderRow = OrderRow(
    id: OrderId,
    totalAmount: int,
    totalItems: int,
    status: Status,
    createdAt: int)

  /** A line item joined with the name of its product. */
  datatype NamedItem = NamedItem(price: int, quantity: int, productId: ProductId, productName: string)

  /** An order whose line items carry product names. */
  datatype NamedOrder = NamedOrder(row: OrderRow, items: seq<NamedItem>)

  /**
   * BadRequest is the uniform failure of order creation; NotFound is an
   * unknown order id; CatalogUnavailable is a catalog failure passed on as
   * it is; ProductMissing is the fault raised when a line item's product is
   * absent from the catalog's reply outside creation's error handling.
   */
  datatype Error =
    | BadRequest(message: string)
    | NotFound(message: string)
    | CatalogUnavailable
    | ProductMissing

  const CreateErrorMessage: string := "Error validating products"
  const NotFoundMessage: string := "Order not found"

  /** The row of a stored order, as a query without its items returns it. */
  function Row(o: Order): OrderRow
  {
    OrderRow(o.id, o.totalAmount, o.totalItems, o.status, o.createdAt)
  }
}
