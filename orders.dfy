/**
 * The orders service: an in-memory order store standing in for the order
 * tables, with the four operations of the service. The catalog's reply to
 * `validate_products`, the id the store generates, the default status, the
 * creation time and the outcome of the write are parameters.
 */
module Orders {
  import opened OrderTypes
  import opened Pricing
  import opened Pagination

  /** The totals stored on an order are the sums over its line items. */
  ghost predicate Consistent(o: Order)
  {
    o.totalAmount == LineTotal(o.items) && o.totalItems == QuantityTotal(o.items)
  }

  /** The rows of the orders named by `ids`, in that order. */
  function RowsOf(ids: seq<OrderId>, orders: map<OrderId, Order>): (r: seq<OrderRow>)
    requires forall k :: 0 <= k < |ids| ==> ids[k] in orders
    ensures |r| == |ids|
    ensures forall k :: 0 <= k < |ids| ==> r[k] == Row(orders[ids[k]])
  {
    if ids == [] then [] else [Row(orders[ids[0]])] + RowsOf(ids[1..], orders)
  }

  /** The reply of a status change: the enriched order when nothing changed,
      the bare updated row otherwise. */
  datatype StatusReply = Unchanged(order: NamedOrder) | Updated(row: OrderRow)

  class OrdersService {
    /** The stored orders, by id. */
    var orders: map<OrderId, Order>
    /** The ids of the stored orders in creation order: the listing order. */
    var created: seq<OrderId>

    ghost predicate Valid()
      reads this
    {
      && (forall id :: id in orders ==> orders[id].id == id && Consistent(orders[id]))
      && (forall k :: 0 <= k < |created| ==> created[k] in orders)
      && (forall id :: id in orders ==> id in created)
      && (forall i, j :: 0 <= i < j < |created| ==> created[i] != created[j])
    }

    constructor ()
      ensures Valid() && orders == map[] && created == []
    {
      orders := map[];
      created := [];
    }

    /** The rows of all stored orders, in creation order. */
    function Listing(): seq<OrderRow>
      reads this
      requires Valid()
    {
      RowsOf(created, orders)
    }

    /**
     * Creates an order. Any failure (catalog call, missing product, write)
     * is the one BadRequest error and leaves the store as it was; on
     * success the store gains exactly the new order, whose line items and
     * totals are those of PlaceOrder, and the reply joins product names.
     */
    method Create(request: seq<ItemRequest>, reply: CatalogReply, freshId: OrderId,
                  status: Status, now: int, stored: bool)
      returns (r: Result<NamedOrder, Error>)
      requires Valid() && freshId !in orders
      modifies this
      ensures Valid()
      ensures r.Ok? <==> PlaceOrder(request, reply).Ok? && stored
      ensures r.Err? ==> r.error == BadRequest(CreateErrorMessage)
      ensures r.Err? ==> orders == old(orders) && created == old(created)
      ensures r.Ok? ==>
        var d := PlaceOrder(request, reply).value;
        var o := Order(freshId, d.totalAmount, d.totalItems, status, now, d.items);
        && orders == old(orders)[freshId := o]
        && created == old(created) + [freshId]
        && r.value.row == Row(o)
        && |r.value.items| == |o.items|
        && forall k :: 0 <= k < |o.items| ==> Named(o.items[k], reply.products, r.value.items[k])
    {
      var placed := PlaceOrder(request, reply);
      if placed.Err? || !stored {
        return Err(BadRequest(CreateErrorMessage));
      }
      var d := placed.value;
      var o := Order(freshId, d.totalAmount, d.totalItems, status, now, d.items);
      orders := orders[freshId := o];
      created := created + [freshId];
      PlacedItemsHaveNames(request, reply);
      r := Ok(NamedOrder(Row(o), NameItems(o.items, reply.products).value));
    }

    /** The page of stored orders that `findAll` returns. */
    method FindAll(status: Option<Status>, page: int, limit: int) returns (r: PageOf)
      requires Valid() && page >= 1 && limit >= 1
      ensures r == Paginate(Listing(), status, page, limit)
      ensures forall k :: 0 <= k < |r.data| ==>
        && r.data[k].id in orders
        && r.data[k] == Row(orders[r.data[k].id])
        && MatchesFilter(r.data[k], status)
    {
      var rows := Listing();
      r := Paginate(rows, status, page, limit);
      forall k | 0 <= k < |r.data| ensures r.data[k].id in orders && r.data[k] == Row(orders[r.data[k].id]) {
        assert r.data[k] in rows;
        var j :| 0 <= j < |rows| && rows[j] == r.data[k];
        assert orders[created[j]].id == created[j];
      }
    }

    /**
     * Looks an order up and joins product names onto its line items. An
     * unknown id is NotFound; a failed catalog call is passed on; a line
     * item whose product is not in the reply makes the name lookup fail.
     * The stored prices are returned as they are, whatever the catalog
     * says now.
     */
    method FindOne(id: OrderId, reply: CatalogReply) returns (r: Result<NamedOrder, Error>)
      requires Valid()
      ensures id !in orders <==> r == Err(NotFound(NotFoundMessage))
      ensures id in orders && reply.CatalogFailure? ==> r == Err(CatalogUnavailable)
      ensures id in orders && reply.Products? ==>
        (r.Ok? <==> forall k :: 0 <= k < |orders[id].items| ==> Found(reply.products, orders[id].items[k].productId))
      ensures id in orders && reply.Products? && r.Err? ==> r.error == ProductMissing
      ensures r.Ok? ==>
        && id in orders && reply.Products?
        && r.value.row == Row(orders[id])
        && |r.value.items| == |orders[id].items|
        && forall k :: 0 <= k < |r.value.items| ==> Named(orders[id].items[k], reply.products, r.value.items[k])
    {
      if id !in orders {
        return Err(NotFound(NotFoundMessage));
      }
      var o := orders[id];
      match reply {
        case CatalogFailure =>
          r := Err(CatalogUnavailable);
        case Products(products) =>
          match NameItems(o.items, products) {
            case None => r := Err(ProductMissing);
            case Some(named) => r := Ok(NamedOrder(Row(o), named));
          }
      }
    }

    /**
     * Changes the status of an order, after looking it up as FindOne does.
     * When the lookup fails or the status is already the requested one,
     * the store is untouched; otherwise only that order's status changes.
     */
    method ChangeOrderStatus(id: OrderId, status: Status, reply: CatalogReply)
      returns (r: Result<StatusReply, Error>)
      requires Valid()
      modifies this
      ensures Valid() && created == old(created)
      ensures r.Err? || r.value.Unchanged? ==> orders == old(orders)
      ensures id !in old(orders) ==> r == Err(NotFound(NotFoundMessage))
      ensures id in old(orders) && reply.CatalogFailure? ==> r == Err(CatalogUnavailable)
      ensures id in old(orders) && reply.Products? && r.Err? ==> r.error == ProductMissing
      ensures id in old(orders) ==>
        var o := old(orders)[id];
        && (r.Ok? <==> reply.Products? && forall k :: 0 <= k < |o.items| ==> Found(reply.products, o.items[k].productId))
        && (r.Ok? && o.status == status ==>
              && r.value.Unchanged? && r.value.order.row == Row(o)
              && |r.value.order.items| == |o.items|
              && forall k :: 0 <= k < |o.items| ==> Named(o.items[k], reply.products, r.value.order.items[k]))
        && (r.Ok? && o.status != status ==>
              && orders == old(orders)[id := o.(status := status)]
              && r == Ok(Updated(Row(o.(status := status)))))
    {
      var found := FindOne(id, reply);
      if found.Err? {
        return Err(found.error);
      }
      var named := found.value;
      if named.row.status == status {
        return Ok(Unchanged(named));
      }
      var o := orders[id].(status := status);
      orders := orders[id := o];
      r := Ok(Updated(Row(o)));
    }
  }

  /**
   * Asking twice in a row for the same status, each call with the catalog
   * reply it gets at that moment. Once the first call has succeeded, the
   * store holds the order with the requested status and nothing else
   * changed; the second call succeeds exactly when its own reply knows
   * every product of the order, and then it takes the no-change path and
   * leaves the store as the first call left it.
   */
  method RepeatStatusChange(service: OrdersService, id: OrderId, status: Status,
                            reply1: CatalogReply, reply2: CatalogReply)
    returns (first: Result<StatusReply, Error>, second: Result<StatusReply, Error>)
    requires service.Valid()
    modifies service
    ensures service.Valid() && service.created == old(service.created)
    ensures id !in old(service.orders) ==>
      && first == Err(NotFound(NotFoundMessage)) && second == first
      && service.orders == old(service.orders)
    ensures first.Ok? ==>
      && id in old(service.orders)
      && service.orders == old(service.orders)[id := old(service.orders)[id].(status := status)]
    ensures first.Ok? ==>
      var items := old(service.orders)[id].items;
      (second.Ok? <==> reply2.Products? && forall k :: 0 <= k < |items| ==> Found(reply2.products, items[k].productId))
    ensures first.Ok? && second.Ok? ==>
      second.value.Unchanged? && second.value.order.row.status == status
  {
    first := service.ChangeOrderStatus(id, status, reply1);
    second := service.ChangeOrderStatus(id, status, reply2);
  }
}
