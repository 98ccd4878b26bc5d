# ShopDeploy core in Dafny

A model of the core of ShopDeploy, an e-commerce web shop with an Express/Mongoose backend and a React/Redux client.
The model covers:

- the catalogue: product schema bounds, the product listing query and its pagination;
- category slugs;
- the cart store and its totals;
- the order lifecycle: placing an order from the cart with stock reservation and the price breakdown, user
  cancellation, the admin status update with stock restore, the access check and the listings;
- the user schema;
- the session state machine: one stored refresh token per user; register, login, refresh and logout; the
  authentication middleware;
- the four client reducers (orders, auth, cart, products);
- two display helpers.

The database is the class `Store.Db`. It holds products, carts (one per user, keyed by the user), orders and users
as maps, plus a counter that plays the role of the ObjectId generator. `Db.Valid()` collects the schema constraints
every handler preserves:

- products keyed by id, with non-negative price and stock and a rating in [0, 5];
- cart lines with `qty >= 1`, distinct line ids and at most one line per product;
- order lines with `qty >= 1`, and a status history whose last entry is the current status;
- the unique e-mail index on users.

Money is integer paise, so 500 rupees is `50000`. A handler returns `Result`:

- `Err(Http(status, message))` is a response the handler itself sends;
- `Err(Thrown(cause))` is an exception passed on to the error middleware, for example a validation failure on
  save, a read through a null document, or a failed payment call.

Modules follow the source files:

| module | models |
|---|---|
| `ProductModel`, `CategoryModel`, `CartModel`, `OrderModel`, `UserModel` | the schemas |
| `ProductController`, `CartController`, `OrderController`, `AuthController` | the handlers |
| `TokenService` | `tokenService.js` |
| `AuthMiddleware` | `authMiddleware.js` |
| `OrderSlice`, `AuthSlice`, `CartSlice`, `ProductSlice` | the reducers |
| `Helpers` | `helpers.js` |
| `Common`, `Text`, `Pagination`, `Store`, `Thunk` | shared definitions |

Imperative handlers are methods on `Db`. Each one states its whole new state. Loops over the cart lines and over
the order lines are `while` loops, proved against the recursive functions `OrderController.Reserve` and
`OrderController.Restored`, and the properties the code promises are lemmas about those functions.

## Where the code and its description differ

- **Deleted product during checkout.** `createOrder` has a 404 branch for a product that no longer exists
  (`orderController.js:27-29`). It cannot be reached: the cart is populated first (line 15), so a deleted product is
  a `null` reference, and `item.productId._id` on line 25 throws before the check. The model throws
  `NullReference`. `updateCartItem` reads `product.stock` without a check (line 91), so it throws in the same way.
- **"Home & Garden" slug.** The slug hook does not collapse hyphens, so the code gives "home--garden"
  (`CategoryModel.HomeAndGarden`). The seed data and the written description say "home-garden".
- **Thrown errors.** The description says every failure gets the uniform error envelope. Thrown errors go to
  `next(error)`, and their status depends on an error middleware that is not part of this model.
- **Admin cancellation.** An admin "cancelled" update restores stock with no guard, so cancelling twice restores
  twice (`OrderController.RestoredTwice`).
- **Category creation.** The slug is required (`Category.js:13`), and `createCategory` sends none
  (`categoryController.js:41-45`). The hook that derives it is a `pre('save')` hook (`Category.js:33-38`), and
  Mongoose runs the validators before the pre-save hooks. So the required slug is still missing when it is checked,
  and every creation is refused (`CategoryModel.Create`). The seed script sets each slug itself and uses
  `insertMany`, which runs no save hooks. See "## Findings".
- **Owner deleted.** `getOrderById` populates the owner. When the owner's account no longer exists,
  `order.userId._id` throws instead of answering 403 or 200.

## Model

| member | source | states |
|---|---|---|
| Text.TrimIsTrimmed | shopdeploy-backend/src/models/Product.js:5-9 | a trimmed string has no white space at either end, and trimming it again changes nothing |
| Text.TrimmedIsFixed | shopdeploy-backend/src/models/Product.js:5-9 | a string is trimmed exactly when trimming leaves it unchanged, and every trimmed result is trimmed |
| ProductModel.TrimOpt | shopdeploy-backend/src/models/Product.js:44-47 | an optional trimmed field is present exactly when given, and its value is the given value trimmed |
| ProductModel.Create | shopdeploy-backend/src/models/Product.js:3-58 | creation succeeds iff the trimmed title and the description are non-empty, a price >= 0 and a category are given, stock >= 0, 0 <= rating <= 5 and every image has a url; the result satisfies the schema and carries the trimmed title; the defaults are stock 0, rating 0, rating count 0, active, not featured |
| ProductModel.StockChangeKeepsValid | shopdeploy-backend/src/models/Product.js:28-33 | setting a non-negative stock keeps a product valid |
| CategoryModel.SlugAlphabet | shopdeploy-backend/src/models/Category.js:35 | every slug consists of `[a-z0-9_-]` only |
| CategoryModel.SlugIdempotent | shopdeploy-backend/src/models/Category.js:35 | slug(slug(n)) == slug(n) |
| CategoryModel.SpaceRunBetweenWords | shopdeploy-backend/src/models/Category.js:35 | a white-space run of any length between two words becomes exactly one hyphen |
| CategoryModel.SymbolBetweenSpaces | shopdeploy-backend/src/models/Category.js:35 | a symbol between two spaces leaves two hyphens: hyphens are not collapsed |
| CategoryModel.HomeAndGarden | shopdeploy-backend/src/models/Category.js:35 | "Home & Garden" becomes "home--garden" |
| CategoryModel.WordNameHasSlug | shopdeploy-backend/src/models/Category.js:35 | a name with a letter, a digit or `_` has a non-empty slug |
| CategoryModel.SymbolsOnlyName | shopdeploy-backend/src/models/Category.js:35 | a name of symbols only, such as "&&&", is unchanged by trimming yet has an empty slug |
| CategoryModel.Category.constructor | shopdeploy-backend/src/models/Category.js:5-27 | the name (an absent one taken as empty) and the description are trimmed; no slug yet; active by default; the document is in the setters' form (name trimmed, slug lower case) |
| CategoryModel.Category.Validate | shopdeploy-backend/src/models/Category.js:5-16 | the `required` validators pass iff name and slug are both non-empty; otherwise a thrown validation error |
| CategoryModel.Category.PreSave | shopdeploy-backend/src/models/Category.js:33-38 | the slug is recomputed from the name exactly when the name was modified; otherwise it is kept; a recomputed slug is lower case and in the slug alphabet; the name and the active flag are untouched |
| CategoryModel.Category.Save | shopdeploy-backend/src/models/Category.js:33-38 | validators first, then the hook: refused with nothing changed iff the name or the slug as it stood before the hook is empty; accepted saves carry the hook's slug |
| CategoryModel.Category.SaveSlugFirst | shopdeploy-backend/src/models/Category.js:5-38 | the slug derived first, then validated: accepted iff the document then satisfies the schema (`Valid`) |
| CategoryModel.Create | shopdeploy-backend/src/controllers/categoryController.js:41-45 | `Category.create` from a request body is refused for every input, since the slug is required before the hook supplies it |
| CategoryModel.CreateSlugFirst | shopdeploy-backend/src/controllers/categoryController.js:41-45 | with the slug derived first: refused iff the trimmed name or its slug is empty; an accepted category satisfies `Valid`, with the trimmed name, its slug, and active |
| Pagination.PageCount | shopdeploy-backend/src/controllers/productController.js:53 | there is no numeric page count exactly when the limit is 0 |
| Pagination.PageCountIsCeiling | shopdeploy-backend/src/controllers/productController.js:53 | for a positive limit, `pages` is the ceiling of total/limit: pages × limit >= total > (pages − 1) × limit, and pages == 0 iff total == 0 |
| Pagination.Window | shopdeploy-backend/src/controllers/productController.js:39-43 | the window is the contiguous run of the matching sequence starting at `skip` (clamped to the end); a zero limit keeps the whole rest, a non-zero one keeps exactly min(abs(limit), what is left) results |
| Pagination.EveryResultOnItsPage | shopdeploy-backend/src/controllers/productController.js:38-43 | for a positive limit, the i-th match appears on page i/limit + 1, at position i mod limit |
| Pagination.Page | shopdeploy-backend/src/controllers/productController.js:38-55 | a listing succeeds iff skip = (page − 1) × limit is non-negative (a negative skip is a database error); its items are that window and its pagination is page, limit, total and page count |
| ProductController.BuildQuery | shopdeploy-backend/src/controllers/productController.js:10-35 | the query always requires `isActive`; the text clause is present iff the search is non-empty; the category clause iff a category is given; the price clause iff a min or a max is given; a product matches the query iff it satisfies every given filter (both price bounds inclusive) |
| ProductController.Select | shopdeploy-backend/src/controllers/productController.js:39 | `find(query)` keeps exactly the products matching the query (order: `SelectConcat`) |
| ProductController.SelectConcat | shopdeploy-backend/src/controllers/productController.js:39 | selection keeps collection order: the matches of `a + b` are those of `a` followed by those of `b` |
| ProductController.Admitted | shopdeploy-backend/src/controllers/productController.js:21-35 | the filter written directly on the request parameters keeps exactly the admitted products |
| ProductController.AdmittedConcat | shopdeploy-backend/src/controllers/productController.js:21-39 | the reference listing keeps collection order in the same way |
| ProductController.SelectIsAdmitted | shopdeploy-backend/src/controllers/productController.js:21-39 | running the built query selects the same products as filtering on the parameters |
| ProductController.SortKey | shopdeploy-backend/src/controllers/productController.js:10-18 | sorting defaults to `-createdAt` |
| ProductController.GetProducts | shopdeploy-backend/src/controllers/productController.js:8-59 | the response is the page (defaults page 1, limit 12) of the products, sorted by the sort key, that the parameters admit |
| ProductController.ListedProductsAdmitted | shopdeploy-backend/src/controllers/productController.js:21-45 | every listed product is active, in the requested category, within the price bounds and matching the text search |
| CartModel.TotalItems | shopdeploy-backend/src/models/Cart.js:35-37 | `totalItems` is 0 for an empty cart and at least the number of lines when every qty >= 1 |
| CartModel.TotalPrice | shopdeploy-backend/src/models/Cart.js:39-41 | `totalPrice` is 0 for an empty cart |
| CartModel.TotalsOfConcat | shopdeploy-backend/src/models/Cart.js:35-41 | both totals are additive over concatenation |
| CartModel.AppendTotals | shopdeploy-backend/src/models/Cart.js:35-41 | appending a line adds exactly its qty and its qty × priceAtAdd |
| CartModel.SplitTotals | shopdeploy-backend/src/models/Cart.js:35-41 | the totals of a cart with one line singled out are the totals before it, that line's part, and the totals after it |
| CartModel.ReplaceTotals | shopdeploy-backend/src/models/Cart.js:35-41 | replacing a line changes the totals by exactly the difference of the two lines |
| CartModel.FindProduct | shopdeploy-backend/src/controllers/cartController.js:46-48 | the first line for the product, or -1 iff there is none |
| CartModel.FindLine | shopdeploy-backend/src/controllers/cartController.js:84 | the line with the given id, or -1 iff there is none |
| CartModel.AddItemKeepsProductsDistinct | shopdeploy-backend/src/controllers/cartController.js:46-60 | adding never creates a second line for a product |
| CartModel.AddItemKeepsIdsDistinct | shopdeploy-backend/src/controllers/cartController.js:55-59 | a fresh line id keeps the line ids distinct |
| CartModel.AddItemTotals | shopdeploy-backend/src/controllers/cartController.js:50-60 | adding raises `totalItems` by exactly qty and `totalPrice` by qty × the merged line's priceAtAdd, or × the current price for an appended line |
| CartModel.MergeTotals | shopdeploy-backend/src/controllers/cartController.js:52 | merging into line k raises that line's qty and the totals by qty and qty × its priceAtAdd |
| CartModel.MergedLineCanExceedStock | shopdeploy-backend/src/controllers/cartController.js:35-52 | the stock check looks at the increment only, so a merged line can hold more than the stock |
| CartModel.SetQty | shopdeploy-backend/src/controllers/cartController.js:95 | only that line's qty changes; id, product and price stay |
| CartModel.SetQtyTotals | shopdeploy-backend/src/controllers/cartController.js:95 | the totals move by the qty difference (× priceAtAdd for the price) |
| CartModel.Pull | shopdeploy-backend/src/controllers/cartController.js:117 | no line with the id is left and the cart never grows |
| CartModel.PullAbsent | shopdeploy-backend/src/controllers/cartController.js:117 | removing an unknown id changes nothing |
| CartModel.PullLine | shopdeploy-backend/src/controllers/cartController.js:117 | with distinct ids, removing line k leaves exactly the other lines in order |
| CartModel.PullLineTotals | shopdeploy-backend/src/controllers/cartController.js:117 | removing line k lowers the totals by exactly its contribution |
| CartModel.PullKeepsValidLines | shopdeploy-backend/src/controllers/cartController.js:117 | removing keeps every line valid |
| CartModel.PullMembers | shopdeploy-backend/src/controllers/cartController.js:117 | every remaining line was in the cart |
| CartModel.PullKeepsDistinct | shopdeploy-backend/src/controllers/cartController.js:117 | removing keeps ids and products distinct |
| CartModel.AddItemValid | shopdeploy-backend/src/models/Cart.js:3-29 | adding keeps the cart valid whenever the resulting lines pass validation |
| CartModel.SetQtyValid | shopdeploy-backend/src/models/Cart.js:9-14 | setting a qty >= 1 keeps the cart valid |
| CartModel.PullValid | shopdeploy-backend/src/models/Cart.js:3-29 | removing keeps the cart valid |
| CartController.GetCart | shopdeploy-backend/src/controllers/cartController.js:8-20 | returns the user's cart, creating an empty one when there is none; afterwards the user has exactly that cart and nothing else changed |
| CartController.AddToCart | shopdeploy-backend/src/controllers/cartController.js:25-69 | qty defaults to 1; unknown product gives 404 and stock < qty gives 400, both with nothing changed; otherwise the line is merged or appended as `AddItem` says, and a result violating qty >= 1 is a thrown validation error |
| CartController.AddLine | shopdeploy-backend/src/controllers/cartController.js:39-62 | the cart is created lazily (lines 40-43), then the line is merged or appended with a fresh id as `AddItem` says; a result violating the line constraints is a thrown validation error, with the lazily created cart kept |
| CartController.PushLine | shopdeploy-backend/src/controllers/cartController.js:46-62 | under a fresh line id the product's line is raised or a new line appended; lines passing validation are saved as the user's cart, otherwise a thrown validation error leaves the store unchanged |
| CartController.SaveLines | shopdeploy-backend/src/controllers/cartController.js:62 | `cart.save()`: lines passing the line validators become the user's stored cart; lines failing them give a thrown validation error and nothing is stored |
| CartController.UpdateCartItem | shopdeploy-backend/src/controllers/cartController.js:74-103 | checked in order: no cart gives 404, unknown line 404, vanished product throws, stock < qty 400, a missing or non-positive qty fails validation; otherwise only that line's qty is set |
| CartController.RemoveFromCart | shopdeploy-backend/src/controllers/cartController.js:108-125 | no cart gives 404; otherwise the line with the id is pulled and the rest kept |
| CartController.ClearCart | shopdeploy-backend/src/controllers/cartController.js:130-144 | no cart gives 404; otherwise the cart is kept with no lines |
| OrderModel.ToAddress | shopdeploy-backend/src/models/Order.js:15-24 | an address is valid iff every required field is present; country defaults to "India" |
| OrderModel.PreSave | shopdeploy-backend/src/models/Order.js:96-104 | a new document gets exactly one history entry with its current status appended; a saved one gets none; nothing else changes |
| OrderModel.NewOrder | shopdeploy-backend/src/models/Order.js:39-93 | creation succeeds iff the address is valid, the payment method is known and every line has qty >= 1 and a title; a failure is a thrown validation error; defaults cod, payment pending, status pending, history of one pending entry |
| UserModel.MatchesEmailIsShape | shopdeploy-backend/src/models/User.js:29 | the e-mail check accepts exactly the language of `^\S+@\S+\.\S+$` |
| UserModel.NormalizedEmail | shopdeploy-backend/src/models/User.js:23-30 | a normalised e-mail is trimmed, has no upper-case letter, and normalising is idempotent |
| UserModel.NewUser | shopdeploy-backend/src/models/User.js:16-45 | creation succeeds iff the trimmed name is non-empty, the normalised e-mail matches the pattern and the password has at least 6 characters; role defaults to customer; no refresh token |
| UserModel.PreSave | shopdeploy-backend/src/models/User.js:48-58 | the password is rehashed only when it was modified; nothing else changes |
| UserModel.Public | shopdeploy-backend/src/models/User.js:66-71 | the JSON view keeps id, name, e-mail and role |
| UserModel.PublicHidesSecrets | shopdeploy-backend/src/models/User.js:66-71 | the JSON view does not depend on the password hash or the refresh token |
| TokenService.StoreRefreshToken | shopdeploy-backend/src/services/tokenService.js:9 | only that user's stored token changes, to the new one; an unknown id changes nothing |
| TokenService.GenerateTokens | shopdeploy-backend/src/services/tokenService.js:4-12 | the returned pair is the issued one and its refresh token is what is stored on the user |
| TokenService.CookieLifetimes | shopdeploy-backend/src/services/tokenService.js:20-28 | 15 minutes and 7 days are 900000 and 604800000 ms |
| TokenService.SetTokenCookies | shopdeploy-backend/src/services/tokenService.js:14-30 | both cookies are set http-only, same-site strict, secure in production, with their lifetimes |
| TokenService.ClearTokenCookies | shopdeploy-backend/src/services/tokenService.js:32-41 | both cookies are emptied, http-only, expired at the epoch |
| AuthController.ClearRefreshToken | shopdeploy-backend/src/controllers/authController.js:121 | only the user's stored token becomes null |
| AuthController.EmailNamesOne | shopdeploy-backend/src/models/User.js:23-26 | the unique index: one e-mail names at most one user |
| AuthController.Register | shopdeploy-backend/src/controllers/authController.js:9-40 | a taken e-mail gives 400 with nothing created; rejected fields are a thrown validation error; otherwise a customer (the role is never taken from the request) is stored and the issued refresh token saved on it |
| AuthController.Enrol | shopdeploy-backend/src/controllers/authController.js:20-36 | the new user is stored under a fresh id, the token saved and the cookies set; validity (unique e-mail) is kept |
| AuthController.Login | shopdeploy-backend/src/controllers/authController.js:45-78 | an unknown e-mail and a wrong password give the same 401 with nothing changed; otherwise the matching user's stored token becomes the new one and the response is the public user |
| AuthController.Refresh | shopdeploy-backend/src/controllers/authController.js:83-113 | succeeds iff the token is non-empty, verifies, and is the one stored on its user; the error order is 401 required, thrown invalid token, 401 invalid; success stores the new token |
| AuthController.Logout | shopdeploy-backend/src/controllers/authController.js:118-130 | the stored token is cleared and the cookies expired |
| AuthController.NewerTokenRevokesOlder | shopdeploy-backend/src/controllers/authController.js:96-98 | after a newer token is stored for a user, the older one is refused |
| AuthController.StoredTokenAccepted | shopdeploy-backend/src/controllers/authController.js:96-101 | the token just stored is accepted |
| AuthController.LogoutRevokesAll | shopdeploy-backend/src/controllers/authController.js:121 | after logout no token of that user is accepted |
| AuthController.OtherSessionsUntouched | shopdeploy-backend/src/services/tokenService.js:9 | storing or clearing one user's token does not change whether another user's token is accepted |
| AuthMiddleware.Split | shopdeploy-backend/src/middleware/authMiddleware.js:7 | `split(' ')` gives at least one field and no field contains a space |
| AuthMiddleware.JoinSplit | shopdeploy-backend/src/middleware/authMiddleware.js:7 | joining the fields with spaces rebuilds the header |
| AuthMiddleware.SplitAfterWord | shopdeploy-backend/src/middleware/authMiddleware.js:7 | a space-free prefix only extends the first field |
| AuthMiddleware.SplitJoin | shopdeploy-backend/src/middleware/authMiddleware.js:7 | splitting joined space-free fields gives them back |
| AuthMiddleware.ExtractToken | shopdeploy-backend/src/middleware/authMiddleware.js:7-9 | a token is always non-empty, from the header's second field or from the cookie; there is none iff neither is non-empty |
| AuthMiddleware.BearerToken | shopdeploy-backend/src/middleware/authMiddleware.js:7 | `<scheme> <token>` yields the token regardless of the cookie |
| AuthMiddleware.HeaderWithoutSpace | shopdeploy-backend/src/middleware/authMiddleware.js:7 | a header without a space falls back to the cookie |
| AuthMiddleware.DoubleSpace | shopdeploy-backend/src/middleware/authMiddleware.js:7 | two spaces after the scheme give an empty field, so the cookie decides |
| AuthMiddleware.Authenticate | shopdeploy-backend/src/middleware/authMiddleware.js:4-39 | no token, a token that fails verification, and a token for a missing user each give their 401 with `req.user` untouched; otherwise `req.user` is the public view of the user |
| OrderController.ShippingPrice | shopdeploy-backend/src/controllers/orderController.js:51 | shipping is 0 iff the items price exceeds 500 rupees, otherwise 50 rupees |
| OrderController.TaxPrice | shopdeploy-backend/src/controllers/orderController.js:52 | the tax is 18% rounded to the paisa: within half a paisa of the exact value, non-negative for a non-negative price |
| OrderController.Breakdown | shopdeploy-backend/src/controllers/orderController.js:51-53 | the total is items + shipping + tax |
| OrderController.ShippingThreshold | shopdeploy-backend/src/controllers/orderController.js:51-53 | exactly 500 rupees pays shipping (total 640 rupees), one paisa more does not |
| OrderController.ChargeExamples | shopdeploy-backend/src/controllers/orderController.js:51-53 | 1000 rupees gives 0 + 180 (total 1180); 300 rupees gives 50 + 54 (total 404) |
| OrderController.Snapshot | shopdeploy-backend/src/controllers/orderController.js:35-41 | an order line copies id, title, current price and qty, and the first image url or "" |
| OrderController.ReserveStops | shopdeploy-backend/src/controllers/orderController.js:24-48 | the walk snapshots at most one item per line, succeeds iff it snapshots every line, and keeps the set of products |
| OrderController.ReserveStockOf | shopdeploy-backend/src/controllers/orderController.js:24-48 | on success each product's stock drops by exactly the summed qty of its lines; nothing but stock changes |
| OrderController.ReserveKeepsStockNonNegative | shopdeploy-backend/src/controllers/orderController.js:31-46 | every decrement passed `stock >= qty` first, so stock stays non-negative even on failure |
| OrderController.ReserveKeepsValid | shopdeploy-backend/src/controllers/orderController.js:31-47 | the stock walk keeps every product in the store valid, whether it succeeds or stops |
| OrderController.ReservePrice | shopdeploy-backend/src/controllers/orderController.js:35-43 | on success the items price is Σ current price × qty over the lines |
| OrderController.CurrentValueIgnoresStock | shopdeploy-backend/src/controllers/orderController.js:35-43 | the price of the lines does not depend on any product's stock, so earlier decrements do not change later prices |
| OrderController.ReserveSnapshot | shopdeploy-backend/src/controllers/orderController.js:35-41 | the k-th order line is the snapshot of the k-th cart line's product as it stood when reached |
| OrderController.EarlierDecrementsStay | shopdeploy-backend/src/controllers/orderController.js:24-48 | a failure after the first line leaves the first product's stock lowered |
| OrderController.PricedAtCurrentPrice | shopdeploy-backend/src/controllers/orderController.js:38-43 | the order is priced at the current price, not the cart's priceAtAdd, so the two totals differ when the price changed |
| OrderController.ReserveStock | shopdeploy-backend/src/controllers/orderController.js:24-48 | the loop computes exactly the walk `Reserve` and leaves its products in the store, which stays valid |
| OrderController.CreateOrder | shopdeploy-backend/src/controllers/orderController.js:10-83 | an absent or empty cart gives 400 with nothing changed; a failing line stops with the earlier decrements kept and cart and orders unchanged; otherwise the order is recorded |
| OrderController.Record | shopdeploy-backend/src/controllers/orderController.js:50-66 | the charges are computed and the order created with a fresh id; a validation failure stores nothing |
| OrderController.Settle | shopdeploy-backend/src/controllers/orderController.js:68-77 | the order is stored; card payments get the intent id (no intent: thrown, order stored, cart kept); then the cart is emptied |
| OrderController.Inc | shopdeploy-backend/src/controllers/orderController.js:247-249 | `$inc` adds the qty to one product's stock; an unknown product is left alone |
| OrderController.RestoredStock | shopdeploy-backend/src/controllers/orderController.js:246-250 | restoring adds to each product exactly the qty the order holds of it |
| OrderController.SameQuantities | shopdeploy-backend/src/controllers/orderController.js:246-250 | order lines that copy the cart lines' products and quantities hold the same quantity of every product as the cart |
| OrderController.RestoredTwice | shopdeploy-backend/src/controllers/orderController.js:192-200 | two restores of the same order add its quantities twice |
| OrderController.ReserveLinesMatch | shopdeploy-backend/src/controllers/orderController.js:35-41 | the order lines carry the cart lines' products and quantities, in order |
| OrderController.CancelUndoesPlacingAt | shopdeploy-backend/src/controllers/orderController.js:246-250 | restoring a just-placed order gives one product back its original record |
| OrderController.CancelUndoesPlacing | shopdeploy-backend/src/controllers/orderController.js:246-250 | restoring a just-placed order gives back exactly the catalogue before it was placed |
| OrderController.RestoreStock | shopdeploy-backend/src/controllers/orderController.js:246-250 | the loop computes exactly `Restored` and keeps the store valid |
| OrderController.WithStatus | shopdeploy-backend/src/controllers/orderController.js:180-193 | the new status with one history entry appended; delivered sets the delivery time and marks the payment paid; cancelled sets the cancellation time; nothing else changes |
| OrderController.UpdatesRecordHistory | shopdeploy-backend/src/controllers/orderController.js:171-209 | any sequence of status updates, each saved, appends exactly one history entry per update in order and nothing else; the last entry is the current status; lines, owner, address and charges are kept |
| OrderController.PlacedOrderHistory | shopdeploy-backend/src/models/Order.js:96-104 | a placed order's history is its single initial `pending` entry followed by one entry per later update |
| OrderController.CancelOrder | shopdeploy-backend/src/controllers/orderController.js:214-258 | checked in order: 404, 403 for a non-owner, 400 already cancelled, 400 delivered, each changing nothing; otherwise cancelled with note "Cancelled by user" and stock restored |
| OrderController.UpdateOrderStatus | shopdeploy-backend/src/controllers/orderController.js:171-209 | 404 for an unknown order; a missing status fails validation; otherwise the status is applied, with stock restored on every cancelled update |
| OrderController.GetOrderById | shopdeploy-backend/src/controllers/orderController.js:149-166 | 404 for an unknown order, thrown for a missing owner, 403 unless the caller owns the order or is an admin, otherwise the order |
| OrderController.OwnedBy | shopdeploy-backend/src/controllers/orderController.js:93 | keeps exactly the user's orders |
| OrderController.OwnedByConcat | shopdeploy-backend/src/controllers/orderController.js:93-96 | a user's orders keep the order of the sorted collection: those of `a + b` are those of `a` followed by those of `b` |
| OrderController.InStatus | shopdeploy-backend/src/controllers/orderController.js:121 | no status keeps all orders; a value outside the enum matches none; a given status keeps exactly the orders in it |
| OrderController.InStatusConcat | shopdeploy-backend/src/controllers/orderController.js:121-128 | the status filter keeps the order of the sorted collection in the same way |
| OrderController.GetUserOrders | shopdeploy-backend/src/controllers/orderController.js:88-112 | a page (default limit 10) of the user's orders only, counting all of them |
| OrderController.GetAllOrders | shopdeploy-backend/src/controllers/orderController.js:117-144 | a page (default limit 20) of the orders in the status filter, counting all of them |
| OrderSlice.FindIndex | shopdeploy-frontend/src/features/orders/orderSlice.js:121 | the first position with the id, or -1 iff there is none |
| OrderSlice.ReplaceFirst | shopdeploy-frontend/src/features/orders/orderSlice.js:121-124 | the length is kept, nothing changes without a match, otherwise the first match is replaced |
| OrderSlice.ReplaceFirstTouchesOne | shopdeploy-frontend/src/features/orders/orderSlice.js:121-124 | every other position keeps its order |
| OrderSlice.ReplaceFirstIdempotent | shopdeploy-frontend/src/features/orders/orderSlice.js:121-124 | applying the same cancellation twice is applying it once |
| OrderSlice.CancelAfterCreate | shopdeploy-frontend/src/features/orders/orderSlice.js:104-124 | cancelling the order just created replaces the head only |
| OrderSlice.OrderState.constructor | shopdeploy-frontend/src/features/orders/orderSlice.js:53-58 | empty list, no current order, not loading, no error |
| OrderSlice.OrderState.Dispatch | shopdeploy-frontend/src/features/orders/orderSlice.js:60-135 | pending sets loading and clears the error; rejected clears loading and stores the message; create prepends and shows the order; cancel replaces the first match and the shown order only when it has the id; the clear reducers null one field |
| AuthSlice.AuthState.constructor | shopdeploy-frontend/src/features/auth/authSlice.js:48-53 | signed out, not loading, no error |
| AuthSlice.AuthState.Dispatch | shopdeploy-frontend/src/features/auth/authSlice.js:54-108 | "authenticated iff a user is held" is kept; register and login sign in or store the error; logout has only a fulfilled case; a failed current-user fetch signs out |
| CartSlice.CartState.constructor | shopdeploy-frontend/src/features/cart/cartSlice.js:51-55 | no cart, not loading, no error |
| CartSlice.CartState.Dispatch | shopdeploy-frontend/src/features/cart/cartSlice.js:56-86 | a fulfilled action replaces the cart wholesale; a pending fetch keeps the error; pending or rejected add, update, remove and clear change nothing |
| ProductSlice.ProductState.constructor | shopdeploy-frontend/src/features/products/productSlice.js:30-36 | empty list, nothing shown, no pagination, not loading, no error |
| ProductSlice.ProductState.Dispatch | shopdeploy-frontend/src/features/products/productSlice.js:37-74 | a fulfilled listing stores products and pagination; a fulfilled fetch by id only the shown product; a rejection keeps what was listed |
| Helpers.TruncateText | shopdeploy-frontend/src/utils/helpers.js:16-19 | short text is unchanged; longer text keeps its first `maxLength` characters followed by "...", `maxLength` + 3 in all; the default limit is 100 |
| Helpers.TruncateIdempotent | shopdeploy-frontend/src/utils/helpers.js:16-19 | truncating twice with the same limit is truncating once |
| Helpers.TruncateBound | shopdeploy-frontend/src/utils/helpers.js:16-19 | the result is at most 3 characters longer than both the text and the limit |
| Helpers.StatusName | shopdeploy-backend/src/models/Order.js:83-87 | each status is stored under one of the five enum names |
| Helpers.StatusColor | shopdeploy-frontend/src/utils/helpers.js:21-30 | any string other than the five status names and the names inherited from `Object.prototype` gets the grey class |
| Helpers.StatusColorsDistinct | shopdeploy-frontend/src/utils/helpers.js:22-29 | each of the five statuses has its own class, none of them grey |

## Left out

- HTTP plumbing (routes, the server, the response envelope, the error middleware) is not modelled. The status of a
  thrown error is not modelled either.
- MongoDB is modelled as maps:
  - `populate` is not modelled.
  - The sort orders are given as parameters: `sorted` (per sort key) for products and `newest` for orders.
  - The `$text` search is the predicate parameter `textMatch`.
  - `countDocuments` is the length of the matching sequence.
  - Ids are natural numbers, so malformed ids and cast errors are not modelled.
- Concurrency is not modelled. Each request runs alone, so the races that oversell stock or overwrite a session are
  outside the model.
- Money is integer paise. JavaScript doubles are not modelled, and neither is the binary rounding of `toFixed(2)`.
  The tax uses round half away from zero on exact paise.
- Query values arrive as strings in Express. The model takes them as integers and leaves out non-numeric values
  (`NaN`) and string concatenation.
- Strings are sequences of Unicode scalar values (Dafny's `char`). JavaScript strings are UTF-16 code units, so the
  two differ for characters outside the Basic Multilingual Plane, which take two code units. `toLowerCase` is
  modelled for ASCII letters only.
- Helpers.TruncateText: lengths count scalar values, not UTF-16 code units. For "😀😀" with limit 2, JavaScript's
  `length` is 4 and the result is "😀..."; the model keeps the text whole.
- UserModel.NewUser: the 6-character password minimum counts scalar values. JavaScript counts code units, so it
  accepts "😀😀😀" (length 6), which the model refuses (length 3).
- Helpers.StatusColor: for a name inherited from `Object.prototype` ("toString", "constructor", "__proto__" and the
  rest of `InheritedName`), `colors[status]` yields a function or an object, not the grey class. The model answers
  grey there and its contract promises nothing for those names.
- bcrypt is the parameters `hashed` (the hash) and `matches` (the comparison).
- JWT signing is the issued `Tokens` parameter; verification is a `string -> Option<UserId>` parameter.
- Stripe is the optional intent id; no intent means the payment call failed.
- The cancellation and status-update timestamps are the parameter `now`.
- Not modelled at all:
  - image handling and file storage;
  - product CRUD other than the listing, and category reads, updates and deletes (creation is modelled);
  - `getProductById`;
  - the seed script;
  - network clients and thunk bodies, including localStorage and the retry on 401;
  - React pages;
  - `formatPrice` and `formatDate`;
  - `constants.js`.
- The saved addresses of a user (`User.js:4-14`) are not part of this model. The core never reads them.
- `getCurrentUser` (`authController.js:135-141`) only echoes `req.user` and is not modelled.
- Mongoose hook ordering: validation runs before the pre-save hooks, as Mongoose orders them. So the password
  minimum length applies to the plain password, and a category's slug is required before its hook derives it.
- Category uniqueness (the unique index on name and slug) is not modelled. The model holds one category document.
- AuthController.Login: absent e-mail or password fields are not modelled. With the e-mail absent, Mongoose would
  search with an empty filter; the model takes both fields as strings.
- AuthController.EmailTaken: an absent e-mail is assumed to reach MongoDB as an empty filter (Mongoose drops keys
  whose value is `undefined`). Any existing user then counts as a match, and register answers 400. If the value
  reached the driver as `null` instead, no user would match, and register would end in a thrown validation error.
- AuthMiddleware.Authenticate: a database error while loading the user also produces "Invalid token.". The model
  only covers a failed token verification for that message.
- Pagination.PageCount: `Math.ceil(total / 0)` is `Infinity` or `NaN` in JavaScript. The model returns no count.

## Findings

| source | as written | input that shows it | evidently intended | confidence | as-written member | corrected member |
|---|---|---|---|---|---|---|
| shopdeploy-backend/src/models/Category.js:33-38 | the slug is derived in a `pre('save')` hook, which Mongoose runs after the validators, while the slug is required (line 13) and `createCategory` sends none | `Category.create({ name: "Books" })`: the slug is missing when validated, so the category is refused | derive the slug before validation (a `pre('validate')` hook): "Books" is stored with slug "books", and only a name whose trimmed form or slug is empty is refused | medium; not executed | CategoryModel.Create | CategoryModel.CreateSlugFirst |
