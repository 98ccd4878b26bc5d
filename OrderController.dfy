/** The order handlers: placing an order from the cart, cancelling it, the admin status update, reads and listings. */
module OrderController {
  import opened Common
  import opened ProductModel
  import opened CartModel
  import opened OrderModel
  import opened UserModel
  import opened Store
  import opened Pagination

  // ---------------------------------------------------------------------------------------------
  // Charges

  /** Orders above 500 rupees ship free; all others pay 50 rupees. */
  const FreeShippingAbove: Paise := 50000
  const FlatShipping: Paise := 5000

  function ShippingPrice(itemsPrice: Paise): (r: Paise)
    ensures r == 0 <==> itemsPrice > FreeShippingAbove
    ensures r == 0 || r == FlatShipping
  {
    if itemsPrice > FreeShippingAbove then 0 else FlatShipping
  }

  /** 18% GST rounded to the paisa, halves away from zero (`toFixed(2)` on the rupee amount). */
  function TaxPrice(itemsPrice: Paise): (r: Paise)
    ensures itemsPrice >= 0 ==> r >= 0
    ensures 18 * itemsPrice - 50 <= 100 * r <= 18 * itemsPrice + 50
  {
    if itemsPrice >= 0 then (18 * itemsPrice + 50) / 100 else -((18 * -itemsPrice + 50) / 100)
  }

  /** The money fields of a new order: shipping and tax from the items price, and their sum. */
  function Breakdown(itemsPrice: Paise): (r: Charges)
    ensures r.itemsPrice == itemsPrice
    ensures r.totalAmount == r.itemsPrice + r.shippingPrice + r.taxPrice
    ensures r.shippingPrice == ShippingPrice(itemsPrice) && r.taxPrice == TaxPrice(itemsPrice)
  {
    var shipping := ShippingPrice(itemsPrice);
    var tax := TaxPrice(itemsPrice);
    Charges(itemsPrice, shipping, tax, itemsPrice + shipping + tax)
  }

  /** Exactly 500 rupees still pays shipping; one paisa more ships free. */
  lemma ShippingThreshold(p: Paise)
    requires p == FreeShippingAbove
    ensures Breakdown(p).shippingPrice == FlatShipping && Breakdown(p + 1).shippingPrice == 0
    ensures Breakdown(p).totalAmount == 64000
  {
  }

  /** 1000 rupees: free shipping, 180 tax, 1180 in all; 300 rupees: 50 shipping, 54 tax, 404 in all. */
  lemma ChargeExamples(large: Paise, small: Paise)
    requires large == 100000 && small == 30000
    ensures Breakdown(large) == Charges(100000, 0, 18000, 118000)
    ensures Breakdown(small) == Charges(30000, 5000, 5400, 40400)
  {
  }

  // ---------------------------------------------------------------------------------------------
  // Reserving the stock for a cart, line by line

  /** The snapshot stored in an order line: the product's id, title and current price, the quantity, the first image. */
  function Snapshot(p: Product, qty: int): (r: OrderItem)
    ensures r.productId == p.id && r.title == p.title && r.price == p.price && r.qty == qty
    ensures r.image == if |p.images| > 0 then p.images[0].url else ""
  {
    OrderItem(p.id, p.title, p.price, qty, if |p.images| > 0 then p.images[0].url else "")
  }

  /** The state of the walk over the cart: the products as left, the lines snapshotted, their price, and the failure if any. */
  datatype Walk = Walk(products: map<ProductId, Product>, items: seq<OrderItem>, itemsPrice: Paise, failure: Option<Error>)

  function Prepend(items: seq<OrderItem>, price: Paise, w: Walk): Walk {
    w.(items := items + w.items, itemsPrice := price + w.itemsPrice)
  }

  lemma PrependTwice(a: seq<OrderItem>, x: Paise, b: seq<OrderItem>, y: Paise, w: Walk)
    ensures Prepend(a, x, Prepend(b, y, w)) == Prepend(a + b, x + y, w)
  {
    assert a + (b + w.items) == (a + b) + w.items;
  }

  /**
   * The loop of `createOrder` over the cart lines. A deleted product makes the handler read through null and
   * throw; a product with less stock than the line stops the walk with a 400. Each accepted line is snapshotted,
   * priced at the product's current price and its quantity taken off the stock (and saved) before the next line.
   */
  function Reserve(products: map<ProductId, Product>, lines: seq<CartLine>): Walk
    decreases |lines|
  {
    if lines == [] then Walk(products, [], 0, None)
    else
      var line := lines[0];
      if line.productId !in products then Walk(products, [], 0, Some(Thrown(NullReference)))
      else
        var p := products[line.productId];
        if p.stock < line.qty then Walk(products, [], 0, Some(Http(400, "Insufficient stock for " + p.title)))
        else
          Prepend([Snapshot(p, line.qty)], p.price * line.qty,
                   Reserve(products[line.productId := p.(stock := p.stock - line.qty)], lines[1..]))
  }

  /** The quantity the lines ask of one product. */
  function QtyOf(lines: seq<CartLine>, productId: ProductId): int {
    if lines == [] then 0
    else (if lines[0].productId == productId then lines[0].qty else 0) + QtyOf(lines[1..], productId)
  }

  lemma QtyOfCons(line: CartLine, lines: seq<CartLine>, productId: ProductId)
    ensures QtyOf([line] + lines, productId) == (if line.productId == productId then line.qty else 0) + QtyOf(lines, productId)
  {
    assert ([line] + lines)[1..] == lines;
  }

  /** One step of the walk: the first line accepted, its quantity taken off, the rest walked from there. */
  lemma ReserveStep(products: map<ProductId, Product>, lines: seq<CartLine>)
    requires lines != [] && lines[0].productId in products && products[lines[0].productId].stock >= lines[0].qty
    ensures var p := products[lines[0].productId];
      Reserve(products, lines)
      == Prepend([Snapshot(p, lines[0].qty)], p.price * lines[0].qty,
                 Reserve(products[lines[0].productId := p.(stock := p.stock - lines[0].qty)], lines[1..]))
  {
  }

  /** One step of the walk, seen from the loop at line `i`: the accepted line joins what was snapshotted before it. */
  lemma ReserveAdvance(products: map<ProductId, Product>, lines: seq<CartLine>, i: nat, items: seq<OrderItem>, price: Paise)
    requires i < |lines| && lines[i].productId in products && products[lines[i].productId].stock >= lines[i].qty
    ensures var p := products[lines[i].productId];
      Prepend(items, price, Reserve(products, lines[i..]))
      == Prepend(items + [Snapshot(p, lines[i].qty)], price + p.price * lines[i].qty,
                 Reserve(products[lines[i].productId := p.(stock := p.stock - lines[i].qty)], lines[i + 1..]))
  {
    var line := lines[i];
    var p := products[line.productId];
    var rest := Reserve(products[line.productId := p.(stock := p.stock - line.qty)], lines[i + 1..]);
    assert lines[i..][0] == line && lines[i..][1..] == lines[i + 1..];
    ReserveStep(products, lines[i..]);
    assert Reserve(products, lines[i..]) == Prepend([Snapshot(p, line.qty)], p.price * line.qty, rest);
    PrependTwice(items, price, [Snapshot(p, line.qty)], p.price * line.qty, rest);
  }

  /** The walk stopping at line `i`, seen from the loop: what was snapshotted before it is kept, with the failure. */
  lemma ReserveFailsAt(products: map<ProductId, Product>, lines: seq<CartLine>, i: nat, items: seq<OrderItem>, price: Paise)
    requires i < |lines|
    ensures lines[i].productId !in products ==>
      Prepend(items, price, Reserve(products, lines[i..])) == Walk(products, items, price, Some(Thrown(NullReference)))
    ensures lines[i].productId in products && products[lines[i].productId].stock < lines[i].qty ==>
      Prepend(items, price, Reserve(products, lines[i..]))
      == Walk(products, items, price, Some(Http(400, "Insufficient stock for " + products[lines[i].productId].title)))
  {
    assert lines[i..][0] == lines[i];
    assert items + [] == items;
  }

  /** The walk stops at line `|items|` (after the last line exactly when it succeeds) and keeps the same products. */
  lemma {:induction false} ReserveStops(products: map<ProductId, Product>, lines: seq<CartLine>)
    ensures var w := Reserve(products, lines);
      && |w.items| <= |lines|
      && (w.failure.None? <==> |w.items| == |lines|)
      && w.products.Keys == products.Keys
    decreases |lines|
  {
    if lines != [] && lines[0].productId in products && products[lines[0].productId].stock >= lines[0].qty {
      var p := products[lines[0].productId];
      ReserveStep(products, lines);
      ReserveStops(products[lines[0].productId := p.(stock := p.stock - lines[0].qty)], lines[1..]);
    }
  }

  /** Stock accounting: each product has its stock lowered by exactly what the lines before the stop asked of it, and nothing else about it changes. */
  lemma {:induction false} ReserveStockOf(products: map<ProductId, Product>, lines: seq<CartLine>, pid: ProductId)
    requires pid in products
    ensures var w := Reserve(products, lines);
      && |w.items| <= |lines| && pid in w.products
      && w.products[pid] == products[pid].(stock := products[pid].stock - QtyOf(lines[..|w.items|], pid))
    decreases |lines|
  {
    ReserveStops(products, lines);
    if lines != [] && lines[0].productId in products && products[lines[0].productId].stock >= lines[0].qty {
      var line := lines[0];
      var p := products[line.productId];
      var ps' := products[line.productId := p.(stock := p.stock - line.qty)];
      ReserveStep(products, lines);
      ReserveStockOf(ps', lines[1..], pid);
      var n := |Reserve(ps', lines[1..]).items|;
      assert lines[..n + 1] == [line] + lines[1..][..n];
      QtyOfCons(line, lines[1..][..n], pid);
    } else {
      assert lines[..0] == [];
    }
  }

  predicate StocksNonNegative(products: map<ProductId, Product>) {
    forall pid | pid in products :: products[pid].stock >= 0
  }

  /** Stock never goes negative: every line passed the check against the stock as it then stood. */
  lemma {:induction false} ReserveKeepsStockNonNegative(products: map<ProductId, Product>, lines: seq<CartLine>)
    requires StocksNonNegative(products)
    ensures StocksNonNegative(Reserve(products, lines).products)
    decreases |lines|
  {
    if lines != [] && lines[0].productId in products && products[lines[0].productId].stock >= lines[0].qty {
      var line := lines[0];
      var p := products[line.productId];
      ReserveStep(products, lines);
      ReserveKeepsStockNonNegative(products[line.productId := p.(stock := p.stock - line.qty)], lines[1..]);
    }
  }

  /** The walk keeps the catalogue valid: it only lowers stock, and never below zero. */
  lemma {:induction false} ReserveKeepsValid(products: map<ProductId, Product>, lines: seq<CartLine>)
    requires ValidProducts(products)
    ensures ValidProducts(Reserve(products, lines).products)
    decreases |lines|
  {
    if lines != [] && lines[0].productId in products && products[lines[0].productId].stock >= lines[0].qty {
      var line := lines[0];
      var p := products[line.productId];
      ReserveStep(products, lines);
      PutStock(products, line.productId, p.stock - line.qty);
      ReserveKeepsValid(products[line.productId := p.(stock := p.stock - line.qty)], lines[1..]);
    }
  }

  /** The value of lines at the products' current prices (a line whose product is gone counts nothing). */
  function CurrentValue(products: map<ProductId, Product>, lines: seq<CartLine>): Paise {
    if lines == [] then 0
    else
      (if lines[0].productId in products then products[lines[0].productId].price * lines[0].qty else 0)
      + CurrentValue(products, lines[1..])
  }

  /** The items price is the value, at the current prices, of the lines taken. */
  lemma {:induction false} ReservePrice(products: map<ProductId, Product>, lines: seq<CartLine>)
    ensures var w := Reserve(products, lines);
      |w.items| <= |lines| && w.itemsPrice == CurrentValue(products, lines[..|w.items|])
    decreases |lines|
  {
    ReserveStops(products, lines);
    if lines != [] && lines[0].productId in products && products[lines[0].productId].stock >= lines[0].qty {
      var line := lines[0];
      var p := products[line.productId];
      var ps' := products[line.productId := p.(stock := p.stock - line.qty)];
      ReserveStep(products, lines);
      ReservePrice(ps', lines[1..]);
      var n := |Reserve(ps', lines[1..]).items|;
      assert lines[..n + 1] == [line] + lines[1..][..n];
      assert ([line] + lines[1..][..n])[1..] == lines[1..][..n];
      CurrentValueIgnoresStock(products, line.productId, p.stock - line.qty, lines[1..][..n]);
    } else {
      assert lines[..0] == [];
    }
  }

  lemma {:induction false} CurrentValueIgnoresStock(products: map<ProductId, Product>, pid: ProductId, stock: int, lines: seq<CartLine>)
    requires pid in products
    ensures CurrentValue(products[pid := products[pid].(stock := stock)], lines) == CurrentValue(products, lines)
  {
    if lines != [] {
      CurrentValueIgnoresStock(products, pid, stock, lines[1..]);
    }
  }

  /** Line `k` of the order is the snapshot of line `k` of the cart, taken from the product's current title, price and image. */
  lemma {:induction false} ReserveSnapshot(products: map<ProductId, Product>, lines: seq<CartLine>, k: nat)
    requires k < |Reserve(products, lines).items|
    ensures k < |lines| && lines[k].productId in products
    ensures Reserve(products, lines).items[k] == Snapshot(products[lines[k].productId], lines[k].qty)
    decreases |lines|
  {
    ReserveStops(products, lines);
    if lines != [] && lines[0].productId in products && products[lines[0].productId].stock >= lines[0].qty {
      var line := lines[0];
      var p := products[line.productId];
      var ps' := products[line.productId := p.(stock := p.stock - line.qty)];
      ReserveStep(products, lines);
      if k > 0 {
        ReserveSnapshot(ps', lines[1..], k - 1);
        assert lines[k] == lines[1..][k - 1];
      }
    }
  }

  /** A failure after some lines were taken leaves the first line's product with less stock than before. */
  lemma EarlierDecrementsStay(products: map<ProductId, Product>, lines: seq<CartLine>)
    requires ValidLines(lines)
    requires Reserve(products, lines).failure.Some? && |Reserve(products, lines).items| >= 1
    ensures lines[0].productId in products && lines[0].productId in Reserve(products, lines).products
    ensures Reserve(products, lines).products[lines[0].productId].stock < products[lines[0].productId].stock
  {
    ReserveSnapshot(products, lines, 0);
    ReserveStockOf(products, lines, lines[0].productId);
    var n := |Reserve(products, lines).items|;
    QtyOfPositive(lines[..n], lines[0].productId);
  }

  lemma {:induction false} QtyOfPositive(lines: seq<CartLine>, pid: ProductId)
    requires ValidLines(lines) && lines != [] && lines[0].productId == pid
    ensures QtyOf(lines, pid) >= 1
  {
    QtyOfNonNegative(lines[1..], pid);
  }

  lemma {:induction false} QtyOfNonNegative(lines: seq<CartLine>, pid: ProductId)
    requires ValidLines(lines)
    ensures QtyOf(lines, pid) >= 0
  {
    if lines != [] {
      QtyOfNonNegative(lines[1..], pid);
    }
  }

  /** The order is priced from the current product price, not from the cart's `priceAtAdd`: a repriced product shows. */
  lemma PricedAtCurrentPrice(products: map<ProductId, Product>, line: CartLine)
    requires line.productId in products && 1 <= line.qty <= products[line.productId].stock
    requires products[line.productId].price != line.priceAtAdd
    ensures Reserve(products, [line]).failure.None?
    ensures Reserve(products, [line]).itemsPrice == products[line.productId].price * line.qty
    ensures Reserve(products, [line]).itemsPrice != TotalPrice([line])
  {
    assert [line][1..] == [];
    assert [line][..0] == [];
    var p := products[line.productId].price;
    if p * line.qty == line.qty * line.priceAtAdd {
      Cancel(p, line.priceAtAdd, line.qty);
    }
  }

  lemma Cancel(a: int, b: int, q: int)
    requires q >= 1 && a * q == q * b
    ensures a == b
  {
    assert (a - b) * q == 0;
  }

  /** The loop of `createOrder`: each cart line checked against the stock as it stands, snapshotted, and taken off the stock. */
  method ReserveStock(db: Db, lines: seq<CartLine>) returns (w: Walk)
    requires ValidProducts(db.products)
    modifies db`products
    ensures w == Reserve(old(db.products), lines)
    ensures db.products == w.products && ValidProducts(db.products)
  {
    ReserveKeepsValid(db.products, lines);
    ghost var target := Reserve(db.products, lines);
    var items: seq<OrderItem> := [];
    var itemsPrice: Paise := 0;
    var i := 0;
    while i < |lines|
      invariant 0 <= i <= |lines|
      invariant target == Prepend(items, itemsPrice, Reserve(db.products, lines[i..]))
    {
      var line := lines[i];
      ReserveFailsAt(db.products, lines, i, items, itemsPrice);
      if line.productId !in db.products {
        return Walk(db.products, items, itemsPrice, Some(Thrown(NullReference)));
      }
      var product := db.products[line.productId];
      if product.stock < line.qty {
        return Walk(db.products, items, itemsPrice, Some(Http(400, "Insufficient stock for " + product.title)));
      }
      ReserveAdvance(db.products, lines, i, items, itemsPrice);
      items := items + [Snapshot(product, line.qty)];
      itemsPrice := itemsPrice + product.price * line.qty;
      db.products := db.products[line.productId := product.(stock := product.stock - line.qty)];
      i := i + 1;
    }
    assert lines[i..] == [];
    assert items + [] == items;
    w := Walk(db.products, items, itemsPrice, None);
  }

  // ---------------------------------------------------------------------------------------------
  // Placing an order

  /**
   * `createOrder`. An absent or empty cart is a 400 and nothing changes. Otherwise the lines are walked as
   * `Reserve` describes, and a failure there keeps the stock already taken. Then the order is created with the
   * charges of the items price; a refused document keeps the stock taken too. For `stripe` a payment intent is
   * requested (`intent`, `None` when the provider call fails: the order stays stored, the cart is not cleared)
   * and its id stored; finally the cart is emptied.
   */
  method CreateOrder(db: Db, user: UserId, address: Option<AddressInput>, paymentMethod: Input<PaymentMethod>,
                     now: Time, intent: Option<string>) returns (r: Result<Order>)
    requires db.Valid()
    modifies db
    ensures db.Valid()
    ensures db.users == old(db.users)
    ensures user !in old(db.carts) || old(db.carts)[user].items == [] ==>
      && r == Err(Http(400, "Cart is empty"))
      && db.products == old(db.products) && db.carts == old(db.carts) && db.orders == old(db.orders)
      && db.nextId == old(db.nextId)
    ensures user in old(db.carts) && old(db.carts)[user].items != [] ==>
      var w := Reserve(old(db.products), old(db.carts)[user].items);
      && db.products == w.products
      && (w.failure.Some? ==>
            r == Err(w.failure.value) && db.carts == old(db.carts) && db.orders == old(db.orders)
            && db.nextId == old(db.nextId))
      && (w.failure.None? ==>
            var placed := NewOrder(old(db.nextId), user, w.items, address, paymentMethod, Breakdown(w.itemsPrice), now);
            && db.nextId == old(db.nextId) + 1
            && (placed.Err? ==> r == Err(placed.error) && db.carts == old(db.carts) && db.orders == old(db.orders))
            && (placed.Ok? && placed.value.paymentMethod == Stripe && intent.None? ==>
                  && r == Err(Thrown(UpstreamFailure)) && db.carts == old(db.carts)
                  && db.orders == old(db.orders)[placed.value.id := placed.value])
            && (placed.Ok? && (placed.value.paymentMethod != Stripe || intent.Some?) ==>
                  var o := if placed.value.paymentMethod == Stripe then placed.value.(paymentId := intent) else placed.value;
                  && r == Ok(o)
                  && db.orders == old(db.orders)[o.id := o]
                  && db.carts == old(db.carts)[user := Cart(user, [])]))
  {
    if user !in db.carts || db.carts[user].items == [] {
      return Err(Http(400, "Cart is empty"));
    }
    var lines := db.carts[user].items;
    var w := ReserveStock(db, lines);
    if w.failure.Some? {
      return Err(w.failure.value);
    }
    r := Record(db, user, w.items, w.itemsPrice, address, paymentMethod, now, intent);
  }

  /** The part of `createOrder` after the stock walk: create the order, request the payment intent, empty the cart. */
  method Record(db: Db, user: UserId, items: seq<OrderItem>, itemsPrice: Paise, address: Option<AddressInput>,
                paymentMethod: Input<PaymentMethod>, now: Time, intent: Option<string>) returns (r: Result<Order>)
    requires db.Valid()
    modifies db`orders, db`carts, db`nextId
    ensures db.Valid()
    ensures db.users == old(db.users) && db.products == old(db.products) && db.nextId == old(db.nextId) + 1
    ensures var placed := NewOrder(old(db.nextId), user, items, address, paymentMethod, Breakdown(itemsPrice), now);
      && (placed.Err? ==> r == Err(placed.error) && db.carts == old(db.carts) && db.orders == old(db.orders))
      && (placed.Ok? && placed.value.paymentMethod == Stripe && intent.None? ==>
            && r == Err(Thrown(UpstreamFailure)) && db.carts == old(db.carts)
            && db.orders == old(db.orders)[placed.value.id := placed.value])
      && (placed.Ok? && (placed.value.paymentMethod != Stripe || intent.Some?) ==>
            var o := if placed.value.paymentMethod == Stripe then placed.value.(paymentId := intent) else placed.value;
            && r == Ok(o)
            && db.orders == old(db.orders)[o.id := o]
            && db.carts == old(db.carts)[user := Cart(user, [])])
  {
    var charges := Breakdown(itemsPrice);
    RaiseBound(db.carts, db.orders, db.users, db.nextId, db.nextId + 1);
    var id := db.FreshId();
    var placed := NewOrder(id, user, items, address, paymentMethod, charges, now);
    if placed.Err? {
      return Err(placed.error);
    }
    r := Settle(db, user, placed.value, intent);
  }

  /**
   * The end of placing an order: the order stored; for a card payment the intent's id attached (no intent: the
   * failure is thrown with the order already stored and the cart kept); then the cart emptied.
   */
  method Settle(db: Db, user: UserId, order: Order, intent: Option<string>) returns (r: Result<Order>)
    requires db.Valid() && ValidOrder(order, db.nextId)
    modifies db`orders, db`carts
    ensures db.Valid()
    ensures order.paymentMethod == Stripe && intent.None? ==>
      r == Err(Thrown(UpstreamFailure)) && db.carts == old(db.carts) && db.orders == old(db.orders)[order.id := order]
    ensures order.paymentMethod != Stripe || intent.Some? ==>
      var o := if order.paymentMethod == Stripe then order.(paymentId := intent) else order;
      && r == Ok(o)
      && db.orders == old(db.orders)[o.id := o]
      && db.carts == old(db.carts)[user := Cart(user, [])]
  {
    var o := order;
    PutOrder(db.orders, o, db.nextId);
    db.orders := db.orders[o.id := o];
    if o.paymentMethod == Stripe {
      if intent.None? {
        return Err(Thrown(UpstreamFailure));
      }
      o := o.(paymentId := intent);
      PutOrder(db.orders, o, db.nextId);
      db.orders := db.orders[o.id := o];
    }
    PutCart(db.carts, user, Cart(user, []), db.nextId);
    db.carts := db.carts[user := Cart(user, [])];
    r := Ok(o);
  }

  // ---------------------------------------------------------------------------------------------
  // Restoring stock

  /** `$inc: {stock: qty}` for one order line; a product that no longer exists is left alone. */
  function Inc(products: map<ProductId, Product>, item: OrderItem): map<ProductId, Product> {
    if item.productId in products
    then products[item.productId := products[item.productId].(stock := products[item.productId].stock + item.qty)]
    else products
  }

  /** Adding a non-negative quantity back keeps the catalogue valid. */
  lemma IncValid(products: map<ProductId, Product>, item: OrderItem)
    requires ValidProducts(products) && item.qty >= 0
    ensures ValidProducts(Inc(products, item))
  {
    if item.productId in products {
      PutStock(products, item.productId, products[item.productId].stock + item.qty);
    }
  }

  /** The restore loop of cancellation: each order line's quantity added back, in order. */
  function Restored(products: map<ProductId, Product>, items: seq<OrderItem>): map<ProductId, Product>
    decreases |items|
  {
    if items == [] then products else Restored(Inc(products, items[0]), items[1..])
  }

  lemma RestoredCons(products: map<ProductId, Product>, items: seq<OrderItem>)
    requires items != []
    ensures Restored(products, items) == Restored(Inc(products, items[0]), items[1..])
  {
  }

  /** The quantity the order lines hold of one product. */
  function ItemQtyOf(items: seq<OrderItem>, productId: ProductId): int {
    if items == [] then 0
    else (if items[0].productId == productId then items[0].qty else 0) + ItemQtyOf(items[1..], productId)
  }

  /** Restoring adds back to each product exactly the quantity the order holds of it, and changes nothing else. */
  lemma {:induction false} RestoredStock(products: map<ProductId, Product>, items: seq<OrderItem>, pid: ProductId)
    ensures Restored(products, items).Keys == products.Keys
    ensures pid in products ==>
      Restored(products, items)[pid] == products[pid].(stock := products[pid].stock + ItemQtyOf(items, pid))
    decreases |items|
  {
    if items != [] {
      RestoredStock(Inc(products, items[0]), items[1..], pid);
    }
  }

  /** Restoring twice, as a second `cancelled` status update does, adds the quantities back twice. */
  lemma RestoredTwice(products: map<ProductId, Product>, items: seq<OrderItem>, pid: ProductId)
    requires pid in products
    ensures pid in Restored(Restored(products, items), items)
    ensures Restored(Restored(products, items), items)[pid].stock == products[pid].stock + 2 * ItemQtyOf(items, pid)
  {
    RestoredStock(products, items, pid);
    RestoredStock(Restored(products, items), items, pid);
  }

  /** Order lines that match cart lines in product and quantity ask the same of every product. */
  lemma {:induction false} SameQuantities(items: seq<OrderItem>, lines: seq<CartLine>, pid: ProductId)
    requires |items| == |lines|
    requires forall k | 0 <= k < |items| :: items[k].productId == lines[k].productId && items[k].qty == lines[k].qty
    ensures ItemQtyOf(items, pid) == QtyOf(lines, pid)
  {
    if items != [] {
      SameQuantities(items[1..], lines[1..], pid);
    }
  }

  /** Every product is stored under its own id. */
  predicate KeyedById(products: map<ProductId, Product>) {
    forall pid | pid in products :: products[pid].id == pid
  }

  /** The lines of a successful walk match the cart lines in product and quantity. */
  lemma ReserveLinesMatch(products: map<ProductId, Product>, lines: seq<CartLine>)
    requires KeyedById(products) && Reserve(products, lines).failure.None?
    ensures var items := Reserve(products, lines).items;
      && |items| == |lines|
      && forall k | 0 <= k < |items| :: items[k].productId == lines[k].productId && items[k].qty == lines[k].qty
  {
    ReserveStops(products, lines);
    var items := Reserve(products, lines).items;
    forall k | 0 <= k < |items|
      ensures items[k].productId == lines[k].productId && items[k].qty == lines[k].qty
    {
      ReserveSnapshot(products, lines, k);
    }
  }

  /** Cancelling an order placed from a cart gives a product back exactly the stock placing it took. */
  lemma CancelUndoesPlacingAt(products: map<ProductId, Product>, lines: seq<CartLine>, pid: ProductId)
    requires KeyedById(products) && Reserve(products, lines).failure.None? && pid in products
    ensures var w := Reserve(products, lines);
      pid in Restored(w.products, w.items) && Restored(w.products, w.items)[pid] == products[pid]
  {
    var w := Reserve(products, lines);
    ReserveStops(products, lines);
    ReserveLinesMatch(products, lines);
    assert lines[..|w.items|] == lines;
    ReserveStockOf(products, lines, pid);
    RestoredStock(w.products, w.items, pid);
    SameQuantities(w.items, lines, pid);
  }

  /** Cancelling an order placed from a cart restores the products exactly as they were. */
  lemma CancelUndoesPlacing(products: map<ProductId, Product>, lines: seq<CartLine>)
    requires KeyedById(products) && Reserve(products, lines).failure.None?
    ensures Restored(Reserve(products, lines).products, Reserve(products, lines).items) == products
  {
    var w := Reserve(products, lines);
    var restored := Restored(w.products, w.items);
    ReserveStops(products, lines);
    RestoredStock(w.products, w.items, 0);
    forall pid | pid in products
      ensures restored[pid] == products[pid]
    {
      CancelUndoesPlacingAt(products, lines, pid);
    }
  }

  /** The restore loop: `findByIdAndUpdate(item.productId, {$inc: {stock: item.qty}})` for each order line. */
  method RestoreStock(db: Db, items: seq<OrderItem>)
    requires ValidProducts(db.products) && ValidItems(items)
    modifies db`products
    ensures db.products == Restored(old(db.products), items) && ValidProducts(db.products)
  {
    ghost var start := db.products;
    var i := 0;
    while i < |items|
      invariant 0 <= i <= |items|
      invariant Restored(start, items) == Restored(db.products, items[i..])
      invariant ValidProducts(db.products)
    {
      var item := items[i];
      assert items[i..][0] == item && items[i..][1..] == items[i + 1..];
      RestoredCons(db.products, items[i..]);
      IncValid(db.products, item);
      db.products := Inc(db.products, item);
      i := i + 1;
    }
    assert items[i..] == [];
  }

  // ---------------------------------------------------------------------------------------------
  // Status changes

  /**
   * The status assignment both handlers share: the new status, one history entry for it with the note, and the
   * timestamp of a delivery (which also marks the payment paid) or a cancellation.
   */
  function WithStatus(o: Order, status: Status, now: Time, note: Option<string>): (r: Order)
    ensures r.currentStatus == status && HistoryCurrent(r)
    ensures r.statusHistory == o.statusHistory + [HistoryEntry(status, now, note)]
    ensures r.paymentStatus == (if status == Delivered then Paid else o.paymentStatus)
    ensures r.deliveredAt == (if status == Delivered then Some(now) else o.deliveredAt)
    ensures r.cancelledAt == (if status == Cancelled then Some(now) else o.cancelledAt)
    ensures r.(currentStatus := o.currentStatus, statusHistory := o.statusHistory, paymentStatus := o.paymentStatus,
               deliveredAt := o.deliveredAt, cancelledAt := o.cancelledAt) == o
  {
    var o' := o.(currentStatus := status, statusHistory := o.statusHistory + [HistoryEntry(status, now, note)]);
    var o'' := if status == Delivered then o'.(deliveredAt := Some(now), paymentStatus := Paid) else o';
    if status == Cancelled then o''.(cancelledAt := Some(now)) else o''
  }

  /** One status change as the handlers apply it: the new status, its time and its note. */
  datatype StatusUpdate = StatusUpdate(status: Status, at: Time, note: Option<string>)

  /** The history entries a sequence of updates records, in order. */
  function Entries(us: seq<StatusUpdate>): (r: seq<HistoryEntry>)
    ensures |r| == |us|
  {
    if us == [] then [] else [HistoryEntry(us[0].status, us[0].at, us[0].note)] + Entries(us[1..])
  }

  /** The order after each update has been applied and the existing document saved again. */
  function Updated(o: Order, us: seq<StatusUpdate>): Order
    decreases |us|
  {
    if us == [] then o
    else Updated(OrderModel.PreSave(WithStatus(o, us[0].status, us[0].at, us[0].note), false, us[0].at), us[1..])
  }

  /**
   * Every update records exactly one history entry, in order, and nothing else: the hook adds none to an
   * existing document. The last entry stays the current status; lines, owner, address and charges are kept.
   */
  lemma {:induction false} UpdatesRecordHistory(o: Order, us: seq<StatusUpdate>)
    ensures var r := Updated(o, us);
      && r.statusHistory == o.statusHistory + Entries(us)
      && r.currentStatus == (if us == [] then o.currentStatus else us[|us| - 1].status)
      && (HistoryCurrent(o) || us != [] ==> HistoryCurrent(r))
      && r.id == o.id && r.userId == o.userId && r.items == o.items
      && r.shippingAddress == o.shippingAddress && r.charges == o.charges
    decreases |us|
  {
    if us != [] {
      var u := us[0];
      var next := OrderModel.PreSave(WithStatus(o, u.status, u.at, u.note), false, u.at);
      assert next.statusHistory == o.statusHistory + [HistoryEntry(u.status, u.at, u.note)];
      UpdatesRecordHistory(next, us[1..]);
      if |us| > 1 {
        assert us[1..][|us[1..]| - 1] == us[|us| - 1];
      }
      assert Entries(us) == [HistoryEntry(u.status, u.at, u.note)] + Entries(us[1..]);
      assert o.statusHistory + [HistoryEntry(u.status, u.at, u.note)] + Entries(us[1..])
          == o.statusHistory + Entries(us);
    }
  }

  /** A placed order's history is its one initial `pending` entry followed by one entry per later update. */
  lemma PlacedOrderHistory(id: OrderId, userId: UserId, items: seq<OrderItem>, address: Option<AddressInput>,
                           paymentMethod: Input<PaymentMethod>, charges: Charges, now: Time, us: seq<StatusUpdate>)
    requires NewOrder(id, userId, items, address, paymentMethod, charges, now).Ok?
    ensures var o := NewOrder(id, userId, items, address, paymentMethod, charges, now).value;
      && Updated(o, us).statusHistory == [HistoryEntry(Pending, now, None)] + Entries(us)
      && HistoryCurrent(Updated(o, us))
  {
    UpdatesRecordHistory(NewOrder(id, userId, items, address, paymentMethod, charges, now).value, us);
  }

  const CancelNote := "Cancelled by user"

  /**
   * `cancelOrder`, checks in order: 404 for an unknown order, 403 for another user's, 400 when already cancelled,
   * 400 when delivered. Otherwise the order is cancelled with one history entry and every line's quantity goes
   * back to its product. Every failure changes nothing.
   */
  method CancelOrder(db: Db, user: UserId, orderId: OrderId, now: Time) returns (r: Result<Order>)
    requires db.Valid()
    modifies db
    ensures db.Valid()
    ensures db.carts == old(db.carts) && db.users == old(db.users) && db.nextId == old(db.nextId)
    ensures r.Err? ==> db.products == old(db.products) && db.orders == old(db.orders)
    ensures orderId !in old(db.orders) ==> r == Err(Http(404, "Order not found"))
    ensures orderId in old(db.orders) ==>
      var o := old(db.orders)[orderId];
      if o.userId != user then r == Err(Http(403, "Not authorized to cancel this order"))
      else if o.currentStatus == Cancelled then r == Err(Http(400, "Order is already cancelled"))
      else if o.currentStatus == Delivered then r == Err(Http(400, "Cannot cancel delivered order"))
      else
        && r == Ok(WithStatus(o, Cancelled, now, Some(CancelNote)))
        && db.orders == old(db.orders)[orderId := r.value]
        && db.products == Restored(old(db.products), o.items)
  {
    if orderId !in db.orders {
      return Err(Http(404, "Order not found"));
    }
    var order := db.orders[orderId];
    if order.userId != user {
      return Err(Http(403, "Not authorized to cancel this order"));
    }
    if order.currentStatus == Cancelled {
      return Err(Http(400, "Order is already cancelled"));
    }
    if order.currentStatus == Delivered {
      return Err(Http(400, "Cannot cancel delivered order"));
    }
    var cancelled := WithStatus(order, Cancelled, now, Some(CancelNote));
    RestoreStock(db, order.items);
    PutOrder(db.orders, cancelled, db.nextId);
    db.orders := db.orders[orderId := cancelled];
    r := Ok(cancelled);
  }

  /**
   * `updateOrderStatus` (admin): 404 for an unknown order; a status outside the enumeration (`None`) is refused
   * on save and changes nothing. Otherwise the status is set with no check of the current one, and a
   * `cancelled` status puts every line's quantity back, even for an order cancelled before.
   */
  method UpdateOrderStatus(db: Db, orderId: OrderId, status: Option<Status>, note: Option<string>, now: Time)
    returns (r: Result<Order>)
    requires db.Valid()
    modifies db
    ensures db.Valid()
    ensures db.carts == old(db.carts) && db.users == old(db.users) && db.nextId == old(db.nextId)
    ensures r.Err? ==> db.products == old(db.products) && db.orders == old(db.orders)
    ensures orderId !in old(db.orders) ==> r == Err(Http(404, "Order not found"))
    ensures orderId in old(db.orders) && status.None? ==> r == Err(Thrown(ValidationFailed))
    ensures orderId in old(db.orders) && status.Some? ==>
      var o := old(db.orders)[orderId];
      && r == Ok(WithStatus(o, status.value, now, note))
      && db.orders == old(db.orders)[orderId := r.value]
      && db.products == (if status.value == Cancelled then Restored(old(db.products), o.items) else old(db.products))
  {
    if orderId !in db.orders {
      return Err(Http(404, "Order not found"));
    }
    if status.None? {
      return Err(Thrown(ValidationFailed));
    }
    var order := db.orders[orderId];
    var updated := WithStatus(order, status.value, now, note);
    if status.value == Cancelled {
      RestoreStock(db, order.items);
    }
    PutOrder(db.orders, updated, db.nextId);
    db.orders := db.orders[orderId := updated];
    r := Ok(updated);
  }

  // ---------------------------------------------------------------------------------------------
  // Reading orders

  /** The owner of an order, or an admin, may read it. */
  predicate MayView(o: Order, caller: PublicUser) {
    o.userId == caller.id || caller.role == Admin
  }

  /**
   * `getOrderById`: 404 for an unknown order; an order whose owner no longer exists throws (its populated
   * `userId` is null); 403 unless the caller owns the order or is an admin.
   */
  method GetOrderById(db: Db, orderId: OrderId, caller: PublicUser) returns (r: Result<Order>)
    ensures orderId !in db.orders ==> r == Err(Http(404, "Order not found"))
    ensures orderId in db.orders && db.orders[orderId].userId !in db.users ==> r == Err(Thrown(NullReference))
    ensures orderId in db.orders && db.orders[orderId].userId in db.users ==>
      (r.Ok? <==> MayView(db.orders[orderId], caller))
      && (r.Ok? ==> r.value == db.orders[orderId])
      && (r.Err? ==> r.error == Http(403, "Not authorized to view this order"))
  {
    if orderId !in db.orders {
      return Err(Http(404, "Order not found"));
    }
    var order := db.orders[orderId];
    if order.userId !in db.users {
      return Err(Thrown(NullReference));
    }
    if order.userId != caller.id && caller.role != Admin {
      return Err(Http(403, "Not authorized to view this order"));
    }
    r := Ok(order);
  }

  /** The orders of one user, in collection order. */
  function OwnedBy(orders: seq<Order>, user: UserId): (r: seq<Order>)
    ensures |r| <= |orders|
    ensures forall k | 0 <= k < |r| :: r[k].userId == user && r[k] in orders
    ensures forall k | 0 <= k < |orders| :: orders[k].userId == user ==> orders[k] in r
  {
    if orders == [] then []
    else if orders[0].userId == user then [orders[0]] + OwnedBy(orders[1..], user)
    else OwnedBy(orders[1..], user)
  }

  /**
   * `status ? {currentStatus: status} : {}`: no parameter lists all orders, a value outside the enumeration none.
   * An empty query value (`status=`) is falsy, so it arrives here as `Missing`, not as `Malformed`.
   */
  function InStatus(orders: seq<Order>, status: Input<Status>): (r: seq<Order>)
    ensures status.Missing? ==> r == orders
    ensures status.Malformed? ==> r == []
    ensures status.Given? ==>
      && (forall k | 0 <= k < |r| :: r[k].currentStatus == status.value && r[k] in orders)
      && (forall k | 0 <= k < |orders| :: orders[k].currentStatus == status.value ==> orders[k] in r)
  {
    match status
    case Missing => orders
    case Malformed => []
    case Given(s) =>
      if orders == [] then []
      else if orders[0].currentStatus == s then [orders[0]] + InStatus(orders[1..], status)
      else InStatus(orders[1..], status)
  }

  function OwnerIs(user: UserId): Order -> bool {
    (o: Order) => o.userId == user
  }

  lemma {:induction false} OwnedByIsFilter(orders: seq<Order>, user: UserId)
    ensures OwnedBy(orders, user) == Filter(orders, OwnerIs(user))
  {
    if orders != [] {
      OwnedByIsFilter(orders[1..], user);
    }
  }

  /** A user's orders keep collection order: those of `a + b` are those of `a` followed by those of `b`. */
  lemma OwnedByConcat(a: seq<Order>, b: seq<Order>, user: UserId)
    ensures OwnedBy(a + b, user) == OwnedBy(a, user) + OwnedBy(b, user)
  {
    OwnedByIsFilter(a + b, user);
    OwnedByIsFilter(a, user);
    OwnedByIsFilter(b, user);
    FilterConcat(a, b, OwnerIs(user));
  }

  function StatusIs(status: Status): Order -> bool {
    (o: Order) => o.currentStatus == status
  }

  lemma {:induction false} InStatusIsFilter(orders: seq<Order>, status: Status)
    ensures InStatus(orders, Given(status)) == Filter(orders, StatusIs(status))
  {
    if orders != [] {
      InStatusIsFilter(orders[1..], status);
    }
  }

  /** The status filter keeps collection order in the same way. */
  lemma InStatusConcat(a: seq<Order>, b: seq<Order>, status: Input<Status>)
    ensures InStatus(a + b, status) == InStatus(a, status) + InStatus(b, status)
  {
    if status.Given? {
      InStatusIsFilter(a + b, status.value);
      InStatusIsFilter(a, status.value);
      InStatusIsFilter(b, status.value);
      FilterConcat(a, b, StatusIs(status.value));
    }
  }

  const UserOrdersLimit := 10
  const AllOrdersLimit := 20

  /** `getUserOrders`: the caller's orders, newest first (`newest` is the collection in that order), ten to a page. */
  function GetUserOrders(newest: seq<Order>, user: UserId, page: Option<int>, limit: Option<int>): (r: Result<Listing<Order>>)
    ensures r.Ok? <==> Skip(page.GetOr(1), limit.GetOr(UserOrdersLimit)) >= 0
    ensures r.Ok? ==> forall k | 0 <= k < |r.value.items| :: r.value.items[k].userId == user
    ensures r.Ok? ==> r.value.pagination.total == |OwnedBy(newest, user)|
    ensures r.Ok? ==> r.value.pagination.limit == limit.GetOr(UserOrdersLimit)
  {
    Page(OwnedBy(newest, user), page.GetOr(1), limit.GetOr(UserOrdersLimit))
  }

  /** `getAllOrders` (admin): orders optionally of one status, newest first, twenty to a page. */
  function GetAllOrders(newest: seq<Order>, status: Input<Status>, page: Option<int>, limit: Option<int>): (r: Result<Listing<Order>>)
    ensures r.Ok? <==> Skip(page.GetOr(1), limit.GetOr(AllOrdersLimit)) >= 0
    ensures r.Ok? && status.Given? ==> forall k | 0 <= k < |r.value.items| :: r.value.items[k].currentStatus == status.value
    ensures r.Ok? ==> r.value.pagination.total == |InStatus(newest, status)|
    ensures r.Ok? && status.Missing? ==> r.value.pagination.total == |newest|
  {
    Page(InStatus(newest, status), page.GetOr(1), limit.GetOr(AllOrdersLimit))
  }
}
