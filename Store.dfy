/** The database: one collection per model, keyed by document id (carts by their owner), and an id generator. */
module Store {
  import opened Common
  import ProductModel
  import opened CartModel
  import opened OrderModel
  import opened UserModel

  class Db {
    var products: map<ProductId, ProductModel.Product>
    var carts: map<UserId, Cart>
    var orders: map<OrderId, Order>
    var users: map<UserId, User>
    /** The next ObjectId to hand out; every id in use is below it. */
    var nextId: nat

    /** What the schemas and the unique indexes guarantee of the stored documents. */
    ghost predicate Valid()
      reads this
    {
      ValidProducts(products) && ValidCarts(carts, nextId) && ValidOrders(orders, nextId) && ValidUsers(users, nextId)
    }

    constructor ()
      ensures products == map[] && carts == map[] && orders == map[] && users == map[] && nextId == 0
      ensures Valid()
    {
      products := map[];
      carts := map[];
      orders := map[];
      users := map[];
      nextId := 0;
    }

    /** A fresh ObjectId: above every id handed out so far. */
    method FreshId() returns (id: nat)
      modifies this`nextId
      ensures id == old(nextId) && nextId == id + 1
    {
      id := nextId;
      nextId := nextId + 1;
    }
  }

  predicate ValidProducts(products: map<ProductId, ProductModel.Product>) {
    forall p | p in products :: products[p].id == p && ProductModel.Valid(products[p])
  }

  predicate ValidCarts(carts: map<UserId, Cart>, bound: nat) {
    forall u | u in carts :: ValidCart(u, carts[u], bound)
  }

  /** A stored order: keyed by its id, valid lines, and a history whose last entry is the current status. */
  predicate ValidOrder(o: Order, bound: nat) {
    o.id < bound && ValidItems(o.items) && HistoryCurrent(o)
  }

  predicate ValidOrders(orders: map<OrderId, Order>, bound: nat) {
    forall o | o in orders :: orders[o].id == o && ValidOrder(orders[o], bound)
  }

  /** Users keyed by id, and the unique index on the e-mail. */
  predicate ValidUsers(users: map<UserId, User>, bound: nat) {
    && (forall u | u in users :: users[u].id == u && u < bound)
    && (forall a, b | a in users && b in users && a != b :: users[a].email != users[b].email)
  }

  /** Raising the id bound keeps every collection valid. */
  lemma RaiseBound(carts: map<UserId, Cart>, orders: map<OrderId, Order>, users: map<UserId, User>, bound: nat, bound': nat)
    requires bound <= bound'
    requires ValidCarts(carts, bound) && ValidOrders(orders, bound) && ValidUsers(users, bound)
    ensures ValidCarts(carts, bound') && ValidOrders(orders, bound') && ValidUsers(users, bound')
  {
    forall u | u in carts
      ensures ValidCart(u, carts[u], bound')
    {
      ValidCartRaise(u, carts[u], bound, bound');
    }
  }

  lemma PutCart(carts: map<UserId, Cart>, u: UserId, c: Cart, bound: nat)
    requires ValidCarts(carts, bound) && ValidCart(u, c, bound)
    ensures ValidCarts(carts[u := c], bound)
  {
  }

  lemma PutOrder(orders: map<OrderId, Order>, o: Order, bound: nat)
    requires ValidOrders(orders, bound) && ValidOrder(o, bound)
    ensures ValidOrders(orders[o.id := o], bound)
  {
  }

  /** Storing a user keeps the collection valid when no other user has its e-mail. */
  lemma PutUser(users: map<UserId, User>, u: User, bound: nat)
    requires ValidUsers(users, bound) && u.id < bound
    requires forall v | v in users && v != u.id :: users[v].email != u.email
    ensures ValidUsers(users[u.id := u], bound)
  {
  }

  /** Setting one product's stock to a non-negative amount keeps the catalogue valid. */
  lemma PutStock(products: map<ProductId, ProductModel.Product>, pid: ProductId, stock: int)
    requires ValidProducts(products) && pid in products && stock >= 0
    ensures ValidProducts(products[pid := products[pid].(stock := stock)])
  {
    ProductModel.StockChangeKeepsValid(products[pid], stock);
  }
}
