/** The cart handlers: each reads the caller's cart, changes its lines and saves it. */
module CartController {
  import opened Common
  import opened CartModel
  import opened Store

  /** `getCart`: the caller's cart, created empty on first use. */
  method GetCart(db: Db, user: UserId) returns (r: Cart)
    requires db.Valid()
    modifies db`carts
    ensures db.Valid()
    ensures user in db.carts && r == db.carts[user]
    ensures db.carts == if user in old(db.carts) then old(db.carts) else old(db.carts)[user := Cart(user, [])]
    ensures db.products == old(db.products) && db.orders == old(db.orders) && db.users == old(db.users)
    ensures db.nextId == old(db.nextId)
  {
    if user !in db.carts {
      PutCart(db.carts, user, Cart(user, []), db.nextId);
      db.carts := db.carts[user := Cart(user, [])];
    }
    r := db.carts[user];
  }

  const DefaultQty := 1

  /**
   * `addToCart`: quantity defaulting to one; 404 for an unknown product; 400 when the stock is below the
   * requested quantity (the quantity already in the cart is not counted); the cart created on first use
   * (and kept even when the save below fails); the product's line raised, or a new line at the current price
   * appended; a save the line schema refuses throws and leaves the stored lines as they were.
   */
  method AddToCart(db: Db, user: UserId, productId: ProductId, qty: Option<int>) returns (r: Result<Cart>)
    requires db.Valid()
    modifies db`carts, db`nextId
    ensures db.Valid()
    ensures db.products == old(db.products) && db.orders == old(db.orders) && db.users == old(db.users)
    ensures var n := qty.GetOr(DefaultQty);
      if productId !in old(db.products) then
        r == Err(Http(404, "Product not found")) && db.carts == old(db.carts) && db.nextId == old(db.nextId)
      else if old(db.products)[productId].stock < n then
        r == Err(Http(400, "Insufficient stock")) && db.carts == old(db.carts) && db.nextId == old(db.nextId)
      else
        var before := if user in old(db.carts) then old(db.carts)[user].items else [];
        var after := AddItem(before, productId, n, old(db.products)[productId].price, old(db.nextId));
        && db.nextId == old(db.nextId) + 1
        && (ValidLines(after) ==> r == Ok(Cart(user, after)) && db.carts == old(db.carts)[user := Cart(user, after)])
        && (!ValidLines(after) ==>
              r == Err(Thrown(ValidationFailed)) && db.carts == old(db.carts)[user := Cart(user, before)])
  {
    var n := qty.GetOr(DefaultQty);
    if productId !in db.products {
      return Err(Http(404, "Product not found"));
    }
    var product := db.products[productId];
    if product.stock < n {
      return Err(Http(400, "Insufficient stock"));
    }
    r := AddLine(db, user, productId, n, product.price);
  }

  /** The part of `addToCart` after the stock check: find or create the cart, raise or append the line, save. */
  method AddLine(db: Db, user: UserId, productId: ProductId, n: int, price: Paise) returns (r: Result<Cart>)
    requires db.Valid()
    modifies db`carts, db`nextId
    ensures db.Valid()
    ensures db.products == old(db.products) && db.orders == old(db.orders) && db.users == old(db.users)
    ensures db.nextId == old(db.nextId) + 1
    ensures var before := if user in old(db.carts) then old(db.carts)[user].items else [];
      var after := AddItem(before, productId, n, price, old(db.nextId));
      && (ValidLines(after) ==> r == Ok(Cart(user, after)) && db.carts == old(db.carts)[user := Cart(user, after)])
      && (!ValidLines(after) ==> r == Err(Thrown(ValidationFailed)) && db.carts == old(db.carts)[user := Cart(user, before)])
  {
    ghost var carts := db.carts;
    ghost var before := if user in carts then carts[user].items else [];
    assert user in carts ==> carts[user] == Cart(user, before);
    var cart := GetCart(db, user);
    assert cart == Cart(user, before) && db.carts == carts[user := cart];
    r := PushLine(db, user, cart.items, productId, n, price);
  }

  /** The stored cart's lines with the product's line raised, or a line with a fresh id appended; then saved. */
  method PushLine(db: Db, user: UserId, items: seq<CartLine>, productId: ProductId, n: int, price: Paise)
    returns (r: Result<Cart>)
    requires db.Valid() && user in db.carts && db.carts[user] == Cart(user, items)
    modifies db`carts, db`nextId
    ensures db.Valid()
    ensures db.nextId == old(db.nextId) + 1
    ensures var after := AddItem(items, productId, n, price, old(db.nextId));
      && (ValidLines(after) ==> r == Ok(Cart(user, after)) && db.carts == old(db.carts)[user := Cart(user, after)])
      && (!ValidLines(after) ==> r == Err(Thrown(ValidationFailed)) && db.carts == old(db.carts))
  {
    RaiseBound(db.carts, db.orders, db.users, db.nextId, db.nextId + 1);
    var lineId := db.FreshId();
    var after := AddItem(items, productId, n, price, lineId);
    if ValidLines(after) {
      AddItemValid(user, items, productId, n, price, lineId);
    }
    r := SaveLines(db, user, after);
  }

  /** `cart.save()`: the line schema is checked first; a refused document throws and nothing is written. */
  method SaveLines(db: Db, user: UserId, items: seq<CartLine>) returns (r: Result<Cart>)
    requires db.Valid()
    requires ValidLines(items) ==> ValidCart(user, Cart(user, items), db.nextId)
    modifies db`carts
    ensures db.Valid()
    ensures ValidLines(items) ==> r == Ok(Cart(user, items)) && db.carts == old(db.carts)[user := Cart(user, items)]
    ensures !ValidLines(items) ==> r == Err(Thrown(ValidationFailed)) && db.carts == old(db.carts)
  {
    if !ValidLines(items) {
      return Err(Thrown(ValidationFailed));
    }
    PutCart(db.carts, user, Cart(user, items), db.nextId);
    db.carts := db.carts[user := Cart(user, items)];
    r := Ok(Cart(user, items));
  }

  /**
   * `updateCartItem`: 404 without a cart, 404 for an unknown line, 400 when the stock is below the new
   * quantity; otherwise only that line's quantity is set. A line whose product was deleted throws (the handler
   * reads `stock` through null), and so does a save the line schema refuses (no quantity, or one below 1).
   */
  method UpdateCartItem(db: Db, user: UserId, lineId: LineId, qty: Option<int>) returns (r: Result<Cart>)
    requires db.Valid()
    modifies db`carts
    ensures db.Valid()
    ensures db.products == old(db.products) && db.orders == old(db.orders) && db.users == old(db.users)
    ensures db.nextId == old(db.nextId)
    ensures r.Err? ==> db.carts == old(db.carts)
    ensures user !in old(db.carts) ==> r == Err(Http(404, "Cart not found"))
    ensures user in old(db.carts) ==>
      var items := old(db.carts)[user].items;
      var k := FindLine(items, lineId);
      if k < 0 then r == Err(Http(404, "Item not found in cart"))
      else if items[k].productId !in old(db.products) then r == Err(Thrown(NullReference))
      else if qty.Some? && old(db.products)[items[k].productId].stock < qty.value then r == Err(Http(400, "Insufficient stock"))
      else if qty.None? || qty.value < 1 then r == Err(Thrown(ValidationFailed))
      else r == Ok(Cart(user, SetQty(items, k, qty.value))) && db.carts == old(db.carts)[user := r.value]
  {
    if user !in db.carts {
      return Err(Http(404, "Cart not found"));
    }
    var cart := db.carts[user];
    var k := FindLine(cart.items, lineId);
    if k < 0 {
      return Err(Http(404, "Item not found in cart"));
    }
    var productId := cart.items[k].productId;
    if productId !in db.products {
      return Err(Thrown(NullReference));
    }
    if qty.Some? && db.products[productId].stock < qty.value {
      return Err(Http(400, "Insufficient stock"));
    }
    if qty.None? || qty.value < 1 {
      return Err(Thrown(ValidationFailed));
    }
    var items := SetQty(cart.items, k, qty.value);
    SetQtyValid(user, cart.items, k, qty.value, db.nextId);
    PutCart(db.carts, user, Cart(user, items), db.nextId);
    db.carts := db.carts[user := Cart(user, items)];
    r := Ok(db.carts[user]);
  }

  /** `removeFromCart`: 404 without a cart; otherwise every line with that id pulled (none, for an unknown id). */
  method RemoveFromCart(db: Db, user: UserId, lineId: LineId) returns (r: Result<Cart>)
    requires db.Valid()
    modifies db`carts
    ensures db.Valid()
    ensures db.products == old(db.products) && db.orders == old(db.orders) && db.users == old(db.users)
    ensures db.nextId == old(db.nextId)
    ensures user !in old(db.carts) ==> r == Err(Http(404, "Cart not found")) && db.carts == old(db.carts)
    ensures user in old(db.carts) ==>
      && r == Ok(Cart(user, Pull(old(db.carts)[user].items, lineId)))
      && db.carts == old(db.carts)[user := r.value]
  {
    if user !in db.carts {
      return Err(Http(404, "Cart not found"));
    }
    var items := db.carts[user].items;
    PullValid(user, items, lineId, db.nextId);
    PutCart(db.carts, user, Cart(user, Pull(items, lineId)), db.nextId);
    db.carts := db.carts[user := Cart(user, Pull(items, lineId))];
    r := Ok(db.carts[user]);
  }

  /** `clearCart`: 404 without a cart; otherwise the cart is kept with no lines. */
  method ClearCart(db: Db, user: UserId) returns (r: Result<Cart>)
    requires db.Valid()
    modifies db`carts
    ensures db.Valid()
    ensures db.products == old(db.products) && db.orders == old(db.orders) && db.users == old(db.users)
    ensures db.nextId == old(db.nextId)
    ensures user !in old(db.carts) ==> r == Err(Http(404, "Cart not found")) && db.carts == old(db.carts)
    ensures user in old(db.carts) ==> r == Ok(Cart(user, [])) && db.carts == old(db.carts)[user := Cart(user, [])]
  {
    if user !in db.carts {
      return Err(Http(404, "Cart not found"));
    }
    PutCart(db.carts, user, Cart(user, []), db.nextId);
    db.carts := db.carts[user := Cart(user, [])];
    r := Ok(db.carts[user]);
  }
}
