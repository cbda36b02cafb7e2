/**
 * The pricing and enrichment logic of order creation: looking a requested
 * product up in the catalog's reply (first match wins), building the line
 * items with their price snapshots, folding them into the order totals, and
 * joining product names back onto line items.
 */
module Pricing {
  import opened OrderTypes

  /** `k` is the first position in `products` whose id is `id`. */
  ghost predicate FirstMatch(products: seq<Product>, id: ProductId, k: int)
  {
    && 0 <= k < |products|
    && products[k].id == id
    && forall j :: 0 <= j < k ==> products[j].id != id
  }

  /** The catalog lookup (`find`): the first product of the reply carrying
      `id`, or None. */
  function FindProduct(products: seq<Product>, id: ProductId): (r: Option<Product>)
    ensures r.Some? ==> r.value.id == id
  {
    if products == [] then None
    else if products[0].id == id then Some(products[0])
    else FindProduct(products[1..], id)
  }

  /** The lookup fails exactly when no product carries the id, and
      otherwise returns the product at the first position carrying it. */
  lemma {:induction false} FindProductSpec(products: seq<Product>, id: ProductId)
    ensures FindProduct(products, id).None? <==> forall k :: 0 <= k < |products| ==> products[k].id != id
    ensures FindProduct(products, id).Some? ==>
      exists k :: FirstMatch(products, id, k) && products[k] == FindProduct(products, id).value
  {
    if products != [] && products[0].id != id {
      var tail := products[1..];
      FindProductSpec(tail, id);
      if FindProduct(tail, id).Some? {
        var k :| FirstMatch(tail, id, k) && tail[k] == FindProduct(tail, id).value;
        assert FirstMatch(products, id, k + 1);
      } else {
        forall k | 0 <= k < |products| ensures products[k].id != id {
          if k > 0 {
            assert products[k] == tail[k - 1];
          }
        }
      }
    } else if products != [] {
      assert FirstMatch(products, id, 0);
    }
  }

  /** Conversely, the lookup returns the product at the first position
      carrying the id, so a later duplicate in the reply is never used. */
  lemma {:induction false} FindProductIsFirstMatch(products: seq<Product>, id: ProductId, k: int)
    requires FirstMatch(products, id, k)
    ensures FindProduct(products, id) == Some(products[k])
  {
    if k > 0 {
      var tail := products[1..];
      assert products[0].id != id;
      assert FirstMatch(tail, id, k - 1) by {
        forall j | 0 <= j < k - 1 ensures tail[j].id != id {
          assert tail[j] == products[j + 1];
        }
      }
      FindProductIsFirstMatch(tail, id, k - 1);
    }
  }

  ghost predicate Found(products: seq<Product>, id: ProductId)
  {
    FindProduct(products, id).Some?
  }

  /** Every requested product is in the reply. */
  ghost predicate AllFound(request: seq<ItemRequest>, products: seq<Product>)
  {
    forall k :: 0 <= k < |request| ==> Found(products, request[k].productId)
  }

  /** `line` is what a requested item becomes: same product and quantity,
      priced at the first matching product's price. */
  ghost predicate Priced(req: ItemRequest, products: seq<Product>, line: LineItem)
  {
    && Found(products, req.productId)
    && line == LineItem(FindProduct(products, req.productId).value.price, req.quantity, req.productId)
  }

  /** `named` is `line` with the first matching product's name added. */
  ghost predicate Named(line: LineItem, products: seq<Product>, named: NamedItem)
  {
    && Found(products, line.productId)
    && named == NamedItem(line.price, line.quantity, line.productId,
                          FindProduct(products, line.productId).value.name)
  }

  /** The line items of a new order, one per requested item, in order;
      None when some product is missing from the reply. */
  function LineItems(request: seq<ItemRequest>, products: seq<Product>): (r: Option<seq<LineItem>>)
    ensures r.Some? <==> AllFound(request, products)
    ensures r.Some? ==> |r.value| == |request|
    ensures r.Some? ==> forall k :: 0 <= k < |request| ==> Priced(request[k], products, r.value[k])
  {
    if request == [] then Some([])
    else match FindProduct(products, request[0].productId)
      case None => None
      case Some(p) =>
        match LineItems(request[1..], products)
        case None =>
          assert !AllFound(request[1..], products);
          None
        case Some(rest) =>
          Some([LineItem(p.price, request[0].quantity, request[0].productId)] + rest)
  }

  /** Reference sum of a list of line items: price times quantity. */
  function LineTotal(lines: seq<LineItem>): int
  {
    if lines == [] then 0 else lines[0].price * lines[0].quantity + LineTotal(lines[1..])
  }

  /** Reference sum of the quantities of a list of line items. */
  function QuantityTotal(lines: seq<LineItem>): int
  {
    if lines == [] then 0 else lines[0].quantity + QuantityTotal(lines[1..])
  }

  /** The `totalAmount` fold: left to right over the requested items, adding
      the matched product's price times the quantity; None when some
      product is missing. */
  function AmountOf(request: seq<ItemRequest>, products: seq<Product>): (r: Option<int>)
    ensures r.Some? <==> AllFound(request, products)
  {
    if request == [] then Some(0)
    else
      var init, last := request[..|request| - 1], request[|request| - 1];
      assert forall k :: 0 <= k < |init| ==> init[k] == request[k];
      match AmountOf(init, products)
      case None => None
      case Some(acc) =>
        match FindProduct(products, last.productId)
        case None => None
        case Some(p) => Some(acc + p.price * last.quantity)
  }

  /** The `totalItems` fold: left to right over the requested quantities.
      With no negative quantities it is not negative, and with positive
      quantities it counts at least one unit per requested item. */
  function QuantityOf(request: seq<ItemRequest>): (r: int)
    ensures (forall k :: 0 <= k < |request| ==> request[k].quantity >= 0) ==> r >= 0
    ensures (forall k :: 0 <= k < |request| ==> request[k].quantity >= 1) ==> r >= |request|
  {
    if request == [] then 0
    else QuantityOf(request[..|request| - 1]) + request[|request| - 1].quantity
  }

  lemma {:induction false} LineTotalSnoc(lines: seq<LineItem>, x: LineItem)
    ensures LineTotal(lines + [x]) == LineTotal(lines) + x.price * x.quantity
    ensures QuantityTotal(lines + [x]) == QuantityTotal(lines) + x.quantity
  {
    if lines != [] {
      assert (lines + [x])[1..] == lines[1..] + [x];
      LineTotalSnoc(lines[1..], x);
    }
  }

  /** The two sums, taken apart at the last line item. */
  lemma LineTotalLast(lines: seq<LineItem>)
    requires lines != []
    ensures var n := |lines| - 1;
      && LineTotal(lines) == LineTotal(lines[..n]) + lines[n].price * lines[n].quantity
      && QuantityTotal(lines) == QuantityTotal(lines[..n]) + lines[n].quantity
  {
    var n := |lines| - 1;
    assert lines == lines[..n] + [lines[n]];
    LineTotalSnoc(lines[..n], lines[n]);
  }

  /** One step of the `totalAmount` fold. */
  lemma AmountStep(request: seq<ItemRequest>, products: seq<Product>, acc: int, line: LineItem)
    requires request != []
    requires AmountOf(request[..|request| - 1], products) == Some(acc)
    requires Priced(request[|request| - 1], products, line)
    ensures AmountOf(request, products) == Some(acc + line.price * line.quantity)
  {
  }

  /** The `totalAmount` fold equals the sum of price times quantity over
      the line items built from the request. */
  lemma {:induction false} AmountIsLineTotal(request: seq<ItemRequest>, products: seq<Product>, lines: seq<LineItem>)
    requires |lines| == |request|
    requires forall k :: 0 <= k < |request| ==> Priced(request[k], products, lines[k])
    ensures AmountOf(request, products) == Some(LineTotal(lines))
  {
    if request != [] {
      var n := |request| - 1;
      var init, front := request[..n], lines[..n];
      assert forall k :: 0 <= k < n ==> init[k] == request[k] && front[k] == lines[k];
      AmountIsLineTotal(init, products, front);
      AmountStep(request, products, LineTotal(front), lines[n]);
      LineTotalLast(lines);
    }
  }

  /** The `totalItems` fold equals the sum of the quantities of the line
      items built from the request. */
  lemma {:induction false} QuantityIsQuantityTotal(request: seq<ItemRequest>, products: seq<Product>, lines: seq<LineItem>)
    requires |lines| == |request|
    requires forall k :: 0 <= k < |request| ==> Priced(request[k], products, lines[k])
    ensures QuantityOf(request) == QuantityTotal(lines)
  {
    if request != [] {
      var n := |request| - 1;
      var init := request[..n];
      assert forall k :: 0 <= k < n ==> init[k] == request[k] && lines[..n][k] == lines[k];
      QuantityIsQuantityTotal(init, products, lines[..n]);
      assert Priced(request[n], products, lines[n]);
      LineTotalLast(lines);
    }
  }

  /** The product names joined onto line items; None when some product is
      missing from the reply (the lookup then fails). */
  function NameItems(lines: seq<LineItem>, products: seq<Product>): (r: Option<seq<NamedItem>>)
    ensures r.Some? <==> forall k :: 0 <= k < |lines| ==> Found(products, lines[k].productId)
    ensures r.Some? ==> |r.value| == |lines|
    ensures r.Some? ==> forall k :: 0 <= k < |lines| ==> Named(lines[k], products, r.value[k])
  {
    if lines == [] then Some([])
    else match FindProduct(products, lines[0].productId)
      case None => None
      case Some(p) =>
        match NameItems(lines[1..], products)
        case None =>
          assert !(forall k :: 0 <= k < |lines[1..]| ==> Found(products, lines[1..][k].productId));
          None
        case Some(rest) =>
          var l := lines[0];
          Some([NamedItem(l.price, l.quantity, l.productId, p.name)] + rest)
  }

  /** What order creation computes before it writes: the line items and the
      two totals. */
  datatype Draft = Draft(totalAmount: int, totalItems: int, items: seq<LineItem>)

  /**
   * The pure part of order creation. A failed catalog call or a requested
   * product missing from the reply is the one uniform BadRequest error.
   * Otherwise there is one line item per requested item, in order, priced
   * at its product's first match, and the totals are the sums over them.
   */
  function PlaceOrder(request: seq<ItemRequest>, reply: CatalogReply): (r: Result<Draft, Error>)
    ensures r.Ok? <==> reply.Products? && AllFound(request, reply.products)
    ensures r.Err? ==> r.error == BadRequest(CreateErrorMessage)
    ensures r.Ok? ==> |r.value.items| == |request|
    ensures r.Ok? ==> forall k :: 0 <= k < |request| ==> Priced(request[k], reply.products, r.value.items[k])
    ensures r.Ok? ==> r.value.totalAmount == LineTotal(r.value.items)
    ensures r.Ok? ==> r.value.totalItems == QuantityTotal(r.value.items)
  {
    match reply
    case CatalogFailure => Err(BadRequest(CreateErrorMessage))
    case Products(products) =>
      match AmountOf(request, products)
      case None => Err(BadRequest(CreateErrorMessage))
      case Some(amount) =>
        var lines := LineItems(request, products).value;
        AmountIsLineTotal(request, products, lines);
        QuantityIsQuantityTotal(request, products, lines);
        Ok(Draft(amount, QuantityOf(request), lines))
  }

  /** The items of a placed order all resolve to a name in the same reply. */
  lemma {:induction false} PlacedItemsHaveNames(request: seq<ItemRequest>, reply: CatalogReply)
    requires PlaceOrder(request, reply).Ok?
    ensures NameItems(PlaceOrder(request, reply).value.items, reply.products).Some?
  {
    var lines := PlaceOrder(request, reply).value.items;
    forall k | 0 <= k < |lines| ensures Found(reply.products, lines[k].productId) {
      assert Priced(request[k], reply.products, lines[k]);
    }
  }

  /** Two items, a catalog answering A at 5 and B at 3: the order totals
      2 * 5 + 1 * 3 = 13 over 3 items. */
  lemma TwoItemExample()
    ensures var a, b := Product(1, "A", 5), Product(2, "B", 3);
      var p := PlaceOrder([ItemRequest(1, 2), ItemRequest(2, 1)], Products([a, b]));
      && p.Ok?
      && p.value.totalAmount == 13 && p.value.totalItems == 3
      && p.value.items == [LineItem(5, 2, 1), LineItem(3, 1, 2)]
  {
    var a, b := Product(1, "A", 5), Product(2, "B", 3);
    var request := [ItemRequest(1, 2), ItemRequest(2, 1)];
    FindProductIsFirstMatch([a, b], 1, 0);
    FindProductIsFirstMatch([a, b], 2, 1);
    assert AllFound(request, [a, b]);
    var p := PlaceOrder(request, Products([a, b]));
    assert Priced(request[0], [a, b], p.value.items[0]);
    assert Priced(request[1], [a, b], p.value.items[1]);
    var lines := [LineItem(5, 2, 1), LineItem(3, 1, 2)];
    assert p.value.items == lines;
    assert lines[1..] == [LineItem(3, 1, 2)] && lines[1..][1..] == [];
  }
}
