/** The cart document: one per user, a sequence of lines, and the two derived totals. */
module CartModel {
  import opened Common

  datatype CartLine = CartLine(id: LineId, productId: ProductId, qty: int, priceAtAdd: Paise)
  datatype Cart = Cart(userId: UserId, items: seq<CartLine>)

  /** The line schema: a quantity of at least one (`priceAtAdd` is required, and always present here). */
  predicate ValidLines(items: seq<CartLine>) {
    forall i | 0 <= i < |items| :: items[i].qty >= 1
  }

  /** No two lines of a cart carry the same subdocument id. */
  predicate DistinctIds(items: seq<CartLine>) {
    forall i, j | 0 <= i < j < |items| :: items[i].id != items[j].id
  }

  /** No two lines of a cart are for the same product. */
  predicate DistinctProducts(items: seq<CartLine>) {
    forall i, j | 0 <= i < j < |items| :: items[i].productId != items[j].productId
  }

  /** The `totalItems` virtual: `items.reduce((total, item) => total + item.qty, 0)`. */
  function TotalItems(items: seq<CartLine>): (r: int)
    ensures items == [] ==> r == 0
    ensures ValidLines(items) ==> r >= |items|
  {
    if items == [] then 0 else TotalItems(items[..|items| - 1]) + items[|items| - 1].qty
  }

  /** What one line adds to `totalPrice`. */
  function Amount(line: CartLine): Paise {
    line.qty * line.priceAtAdd
  }

  /** The `totalPrice` virtual: `items.reduce((total, item) => total + item.qty * item.priceAtAdd, 0)`. */
  function TotalPrice(items: seq<CartLine>): (r: Paise)
    ensures items == [] ==> r == 0
  {
    if items == [] then 0
    else
      TotalPrice(items[..|items| - 1]) + Amount(items[|items| - 1])
  }

  /** Both folds distribute over concatenation. */
  lemma {:induction false} TotalsOfConcat(a: seq<CartLine>, b: seq<CartLine>)
    ensures TotalItems(a + b) == TotalItems(a) + TotalItems(b)
    ensures TotalPrice(a + b) == TotalPrice(a) + TotalPrice(b)
  {
    if b == [] {
      assert a + b == a;
    } else {
      var b' := b[..|b| - 1];
      assert (a + b)[..|a + b| - 1] == a + b';
      assert (a + b)[|a + b| - 1] == b[|b| - 1];
      TotalsOfConcat(a, b');
    }
  }

  /** Appending a line adds exactly that line's contribution to both totals. */
  lemma AppendTotals(items: seq<CartLine>, line: CartLine)
    ensures TotalItems(items + [line]) == TotalItems(items) + line.qty
    ensures TotalPrice(items + [line]) == TotalPrice(items) + Amount(line)
  {
    assert (items + [line])[..|items + [line]| - 1] == items;
  }

  /** Replacing one line changes both totals by the difference of the two lines' contributions. */
  lemma ReplaceTotals(items: seq<CartLine>, k: nat, line: CartLine)
    requires k < |items|
    ensures TotalItems(items[k := line]) == TotalItems(items) - items[k].qty + line.qty
    ensures TotalPrice(items[k := line]) == TotalPrice(items) - Amount(items[k]) + Amount(line)
  {
    var a, b := items[..k], items[k + 1..];
    assert items == a + [items[k]] + b;
    assert items[k := line] == a + [line] + b;
    SplitTotals(a, items[k], b);
    SplitTotals(a, line, b);
  }

  /** The totals of a sequence with one line singled out. */
  lemma SplitTotals(a: seq<CartLine>, x: CartLine, b: seq<CartLine>)
    ensures TotalItems(a + [x] + b) == TotalItems(a) + x.qty + TotalItems(b)
    ensures TotalPrice(a + [x] + b) == TotalPrice(a) + Amount(x) + TotalPrice(b)
  {
    TotalsOfConcat(a + [x], b);
    AppendTotals(a, x);
  }

  /** `items.findIndex(item => item.productId === productId)`: the first line for the product, or -1. */
  function FindProduct(items: seq<CartLine>, productId: ProductId): (r: int)
    ensures -1 <= r < |items|
    ensures r >= 0 ==> items[r].productId == productId && forall k | 0 <= k < r :: items[k].productId != productId
    ensures r == -1 <==> forall k | 0 <= k < |items| :: items[k].productId != productId
  {
    if items == [] then -1
    else if items[0].productId == productId then 0
    else
      var r := FindProduct(items[1..], productId);
      if r == -1 then -1 else r + 1
  }

  /** `items.id(itemId)`: the first line with that subdocument id, or -1. */
  function FindLine(items: seq<CartLine>, id: LineId): (r: int)
    ensures -1 <= r < |items|
    ensures r >= 0 ==> items[r].id == id && forall k | 0 <= k < r :: items[k].id != id
    ensures r == -1 <==> forall k | 0 <= k < |items| :: items[k].id != id
  {
    if items == [] then -1
    else if items[0].id == id then 0
    else
      var r := FindLine(items[1..], id);
      if r == -1 then -1 else r + 1
  }

  /**
   * The lines after adding `qty` of a product: the existing line for it has its quantity raised and keeps its
   * `priceAtAdd`; otherwise one line with a fresh id and the current price is appended.
   */
  function AddItem(items: seq<CartLine>, productId: ProductId, qty: int, price: Paise, freshId: LineId): seq<CartLine> {
    var i := FindProduct(items, productId);
    if i >= 0 then items[i := items[i].(qty := items[i].qty + qty)]
    else items + [CartLine(freshId, productId, qty, price)]
  }

  /** Adding never creates a second line for a product. */
  lemma AddItemKeepsProductsDistinct(items: seq<CartLine>, productId: ProductId, qty: int, price: Paise, freshId: LineId)
    requires DistinctProducts(items)
    ensures DistinctProducts(AddItem(items, productId, qty, price, freshId))
  {
  }

  /** Adding keeps line ids distinct when the appended id is fresh. */
  lemma AddItemKeepsIdsDistinct(items: seq<CartLine>, productId: ProductId, qty: int, price: Paise, freshId: LineId)
    requires DistinctIds(items)
    requires forall k | 0 <= k < |items| :: items[k].id != freshId
    ensures DistinctIds(AddItem(items, productId, qty, price, freshId))
  {
  }

  /**
   * Adding raises `totalItems` by exactly the requested quantity, and `totalPrice` by that quantity at the
   * price the product's line was first added with (for a new line, the current price).
   */
  lemma AddItemTotals(items: seq<CartLine>, productId: ProductId, qty: int, price: Paise, freshId: LineId)
    ensures var r := AddItem(items, productId, qty, price, freshId);
      var i := FindProduct(items, productId);
      && TotalItems(r) == TotalItems(items) + qty
      && TotalPrice(r) == TotalPrice(items) + qty * (if i >= 0 then items[i].priceAtAdd else price)
  {
    var i := FindProduct(items, productId);
    if i >= 0 {
      assert AddItem(items, productId, qty, price, freshId) == items[i := items[i].(qty := items[i].qty + qty)];
      MergeTotals(items, i, qty);
    } else {
      var line := CartLine(freshId, productId, qty, price);
      assert AddItem(items, productId, qty, price, freshId) == items + [line];
      assert Amount(line) == qty * price;
      AppendTotals(items, line);
    }
  }

  /** Raising the quantity of line `k` by `qty` raises the totals by `qty` and by `qty` at that line's price. */
  lemma MergeTotals(items: seq<CartLine>, k: nat, qty: int)
    requires k < |items|
    ensures var r := items[k := items[k].(qty := items[k].qty + qty)];
      && TotalItems(r) == TotalItems(items) + qty
      && TotalPrice(r) == TotalPrice(items) + qty * items[k].priceAtAdd
  {
    var q, p := items[k].qty, items[k].priceAtAdd;
    ReplaceTotals(items, k, items[k].(qty := q + qty));
    assert Amount(items[k].(qty := q + qty)) == (q + qty) * p;
    Distribute(q + qty, q, p);
  }

  /**
   * The stock check looks at the increment only: a line already holding the whole stock still accepts another
   * `qty <= stock`, and the merged line then holds more than the stock.
   */
  lemma MergedLineCanExceedStock(items: seq<CartLine>, productId: ProductId, qty: int, price: Paise, freshId: LineId, stock: int)
    requires FindProduct(items, productId) >= 0 && items[FindProduct(items, productId)].qty == stock
    requires 1 <= qty <= stock
    ensures var i := FindProduct(items, productId);
      AddItem(items, productId, qty, price, freshId)[i].qty > stock
  {
  }

  /** `item.qty = qty` on the line at index `k`. */
  function SetQty(items: seq<CartLine>, k: nat, qty: int): (r: seq<CartLine>)
    requires k < |items|
    ensures |r| == |items| && r[k].qty == qty
    ensures r[k].id == items[k].id && r[k].productId == items[k].productId && r[k].priceAtAdd == items[k].priceAtAdd
    ensures forall j | 0 <= j < |items| && j != k :: r[j] == items[j]
  {
    items[k := items[k].(qty := qty)]
  }

  /** Setting a quantity changes `totalItems` by the difference and `totalPrice` by that difference at the line's price. */
  lemma SetQtyTotals(items: seq<CartLine>, k: nat, qty: int)
    requires k < |items|
    ensures TotalItems(SetQty(items, k, qty)) == TotalItems(items) + (qty - items[k].qty)
    ensures TotalPrice(SetQty(items, k, qty)) == TotalPrice(items) + (qty - items[k].qty) * items[k].priceAtAdd
  {
    ReplaceTotals(items, k, items[k].(qty := qty));
    Distribute(qty, items[k].qty, items[k].priceAtAdd);
  }

  lemma Distribute(x: int, y: int, p: int)
    ensures x * p - y * p == (x - y) * p
  {
  }

  /** `items.pull(itemId)`: every line with that id removed, the others kept in order. */
  function Pull(items: seq<CartLine>, id: LineId): (r: seq<CartLine>)
    ensures |r| <= |items|
    ensures forall k | 0 <= k < |r| :: r[k].id != id
  {
    if items == [] then []
    else if items[0].id == id then Pull(items[1..], id)
    else [items[0]] + Pull(items[1..], id)
  }

  /** Pulling an id no line carries changes nothing. */
  lemma {:induction false} PullAbsent(items: seq<CartLine>, id: LineId)
    requires forall k | 0 <= k < |items| :: items[k].id != id
    ensures Pull(items, id) == items
  {
    if items != [] {
      PullAbsent(items[1..], id);
      assert items == [items[0]] + items[1..];
    }
  }

  /** With distinct ids, pulling the id of line `k` removes exactly that line and keeps the others in order. */
  lemma {:induction false} PullLine(items: seq<CartLine>, k: nat)
    requires k < |items| && DistinctIds(items)
    ensures Pull(items, items[k].id) == items[..k] + items[k + 1..]
  {
    var id := items[k].id;
    if k == 0 {
      PullAbsent(items[1..], id);
    } else {
      assert items[1..][k - 1] == items[k];
      PullLine(items[1..], k - 1);
      assert items[..k] == [items[0]] + items[1..][..k - 1];
      assert items[k + 1..] == items[1..][k..];
    }
  }

  /** Removing a line lowers both totals by exactly its contribution. */
  lemma PullLineTotals(items: seq<CartLine>, k: nat)
    requires k < |items| && DistinctIds(items)
    ensures TotalItems(Pull(items, items[k].id)) == TotalItems(items) - items[k].qty
    ensures TotalPrice(Pull(items, items[k].id)) == TotalPrice(items) - Amount(items[k])
  {
    var a, b := items[..k], items[k + 1..];
    PullLine(items, k);
    assert items == a + [items[k]] + b;
    SplitTotals(a, items[k], b);
    TotalsOfConcat(a, b);
  }

  /** Pulling keeps the lines valid. */
  lemma {:induction false} PullKeepsValidLines(items: seq<CartLine>, id: LineId)
    requires ValidLines(items)
    ensures ValidLines(Pull(items, id))
  {
    if items != [] {
      PullKeepsValidLines(items[1..], id);
    }
  }

  /** Every line left by a pull is one of the original lines. */
  lemma {:induction false} PullMembers(items: seq<CartLine>, id: LineId)
    ensures forall k | 0 <= k < |Pull(items, id)| :: Pull(items, id)[k] in items
  {
    if items != [] {
      PullMembers(items[1..], id);
      forall k | 0 <= k < |Pull(items, id)|
        ensures Pull(items, id)[k] in items
      {
        var r := Pull(items, id);
        if items[0].id != id && k == 0 {
          assert r[0] == items[0];
        } else {
          var k' := if items[0].id != id then k - 1 else k;
          assert r[k] == Pull(items[1..], id)[k'];
          assert Pull(items[1..], id)[k'] in items[1..];
        }
      }
    }
  }

  /** Pulling keeps line ids and products distinct. */
  lemma {:induction false} PullKeepsDistinct(items: seq<CartLine>, id: LineId)
    requires DistinctIds(items) && DistinctProducts(items)
    ensures DistinctIds(Pull(items, id)) && DistinctProducts(Pull(items, id))
  {
    if items != [] {
      var rest := Pull(items[1..], id);
      PullKeepsDistinct(items[1..], id);
      if items[0].id != id {
        PullMembers(items[1..], id);
        forall k | 0 <= k < |rest|
          ensures rest[k].id != items[0].id && rest[k].productId != items[0].productId
        {
          assert rest[k] in items[1..];
          var m :| 0 <= m < |items[1..]| && items[1..][m] == rest[k];
          assert items[m + 1] == rest[k];
        }
        assert Pull(items, id) == [items[0]] + rest;
      }
    }
  }

  /** A stored cart: owned by its key (the unique `userId`), valid lines with distinct ids below `bound`, one line per product. */
  predicate ValidCart(u: UserId, c: Cart, bound: nat) {
    && c.userId == u
    && ValidLines(c.items)
    && DistinctIds(c.items)
    && DistinctProducts(c.items)
    && (forall k | 0 <= k < |c.items| :: c.items[k].id < bound)
  }

  lemma ValidCartRaise(u: UserId, c: Cart, bound: nat, bound': nat)
    requires ValidCart(u, c, bound) && bound <= bound'
    ensures ValidCart(u, c, bound')
  {
  }

  /** Adding with the next id as the fresh line id keeps a cart valid under the raised bound, when the lines pass the schema. */
  lemma AddItemValid(u: UserId, items: seq<CartLine>, productId: ProductId, qty: int, price: Paise, bound: nat)
    requires ValidCart(u, Cart(u, items), bound)
    requires ValidLines(AddItem(items, productId, qty, price, bound))
    ensures ValidCart(u, Cart(u, AddItem(items, productId, qty, price, bound)), bound + 1)
  {
    AddItemKeepsProductsDistinct(items, productId, qty, price, bound);
    AddItemKeepsIdsDistinct(items, productId, qty, price, bound);
  }

  lemma SetQtyValid(u: UserId, items: seq<CartLine>, k: nat, qty: int, bound: nat)
    requires k < |items| && ValidCart(u, Cart(u, items), bound) && qty >= 1
    ensures ValidCart(u, Cart(u, SetQty(items, k, qty)), bound)
  {
    var r := SetQty(items, k, qty);
    assert forall i | 0 <= i < |r| :: r[i].id == items[i].id && r[i].productId == items[i].productId;
  }

  lemma PullValid(u: UserId, items: seq<CartLine>, id: LineId, bound: nat)
    requires ValidCart(u, Cart(u, items), bound)
    ensures ValidCart(u, Cart(u, Pull(items, id)), bound)
  {
    PullKeepsValidLines(items, id);
    PullKeepsDistinct(items, id);
    PullMembers(items, id);
    var r := Pull(items, id);
    forall k | 0 <= k < |r|
      ensures r[k].id < bound
    {
      var m :| 0 <= m < |items| && items[m] == r[k];
    }
  }
}
