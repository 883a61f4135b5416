# Vendor marketplace commerce core, in Dafny

This project models the in-memory commerce state of a small marketplace backend (a Rust/axum server with a React buyer front end) and proves properties of that model. It covers:

- **Cart store** (`CartService`): a map from user id to that user's cart lines. Adding a product merges quantities. Updating overwrites a quantity or does nothing. Removing filters lines out. Reading returns a copy.
- **Cart HTTP handlers** (`CartApi`): every handler acts for the fixed user `"user123"`. A missing quantity defaults to 1 on add and skips the update on update. Each of the add, update and remove handlers always answers with a fixed success message; the read handler answers with the demo user's lines.
- **Order store** (`CheckoutService`): an append-only sequence of orders with the status machine `PendingPayment -> Paid | Failed`. A cancel is allowed only from `PendingPayment`. A status update overwrites the status unconditionally.
- **Checkout coordinator** (`Checkout`): reads the cart, prices every line all-or-nothing, and creates one pending order holding the cart's product ids and the total. The payment callback maps `"success"` to `Paid` and any other string to `Failed`.
- **Catalog search** (`Search`, `Catalog`): a conjunctive product filter followed by skip/take pagination, and the two-product mock catalog.
- **Error conversions** (`Binding`): the two conversions between the product error and the cart error.
- **Front-end cart state** (`CartContext`): `addToCart`, `removeFromCart` and `toggleCart`.

Every service method touches its collection only while holding one lock over all of it. `create_order` builds the new order, drawing its UUID, before it takes the lock; every other method holds the lock for its whole body. Each call is therefore modelled as one atomic transition from one immutable store value to the next. Money is a whole `int` amount (XAF). Cart quantities are `u32` values, and a merge must not overflow them. The order store carries a `poisoned` flag, so each `lock().map_err(|_| LockError)?` becomes an explicit `LockError` outcome that changes nothing. The random order id becomes a parameter that must not already be in the store. The product lookup becomes a function parameter `string -> Option<int>`; `Catalog.MockPrice` instantiates it with the mock catalog.

Facts about the code that the model follows:
- Checkout errors are `CartError::GenericError` with the messages "Cart is empty", "product not found" and "Failed to create order". There are no dedicated `EmptyCart` or `ProductNotFound` checkout variants.
- The cart store never reports a lock error. Its methods return plain values and `unwrap` the lock.
- Zero quantities are accepted on add and on update. Nothing enforces quantity ≥ 1.
- A cart is an ordered sequence of lines, not a set.
- `CartError` is not defined in `src/services/cart_services.rs`, and `ProductError` is not defined in `src/api/model.rs`. Their variants are taken from the exhaustive matches in `src/models/binding.rs`.
- `add_item`/`get_cart` return plain values, yet callers apply `.unwrap()` and `?` to them. The model follows the cart store's own signatures.

## Model

| member | source | states |
|---|---|---|
| CartService.FindLine | src/services/cart_services.rs:24 | the position found is the first line for the product; there is none exactly when no line has that product |
| CartService.GetCart | src/services/cart_services.rs:47-50 | returns the user's lines, and no lines when the user has no cart |
| CartService.MergeLine | src/services/cart_services.rs:24-28 | an existing product's first line gains the added quantity, with the length and every other line unchanged; a new product is appended as the last line; one-line-per-product is preserved |
| CartService.SetQuantity | src/services/cart_services.rs:34-36 | only the first matching line takes the new quantity, the rest are unchanged; with no matching line nothing changes; one-line-per-product is preserved |
| CartService.RemoveLines | src/services/cart_services.rs:43 | the remaining lines are exactly the lines of other products; with no line of the product the cart is unchanged |
| CartService.RemoveLinesRemovesAll | src/services/cart_services.rs:43 | no line of the removed product survives |
| CartService.RemoveLinesKeepsUnique | src/services/cart_services.rs:43 | removal keeps a cart free of duplicate products |
| CartService.RemoveLinesAppend | src/services/cart_services.rs:43 | removal distributes over concatenation, so surviving lines keep their order |
| CartService.AddItem | src/services/cart_services.rs:20-29 | the user's cart exists afterwards; an existing product's first line keeps its product, gains the quantity, and the line count and every other line are unchanged; a new product is appended; other users' carts are untouched; one-line-per-product is preserved |
| CartService.UpdateItem | src/services/cart_services.rs:31-38 | the matching line takes the new quantity and nothing else changes; with no cart or no matching line the store is unchanged and no cart is created; other users' carts are untouched |
| CartService.RemoveItem | src/services/cart_services.rs:40-45 | the user's cart becomes exactly the order-preserving removal of the product's lines (RemoveLines), so no line of it survives and every other line is kept in order; unknown user or product leaves the store unchanged; other users' carts are untouched |
| CartService.GetCartAfterAdd | src/services/cart_services.rs:47-50 | reading after an add shows the merged lines, and other users read as before |
| CartService.AddTwiceMerges | src/services/cart_services.rs:24-25 | adding p and then q of the same new product leaves one line holding p + q |
| CartApi.AddToCart | src/api/cart.rs:54-65 | the demo cart gets the requested quantity, or 1 when omitted: a new product is appended with it, and an existing product's first line gains it with every other line unchanged; the answer is always "Item added to cart"; other users are untouched |
| CartApi.UpdateCart | src/api/cart.rs:83-96 | without a quantity the store is unchanged yet the answer is the success message; with one, the first matching line becomes (product, quantity) and every other line and user is unchanged; an absent product changes nothing; no cart is created |
| CartApi.RemoveFromCart | src/api/cart.rs:112-119 | the answer is always the success message; the demo cart keeps exactly its lines of other products, in order; removing an absent product changes nothing; other users are untouched |
| CartApi.GetCartHandler | src/api/cart.rs:132-136 | returns exactly the demo user's lines, and an empty array when that user has no cart |
| CartApi.AddThenRemoveRestores | src/api/cart.rs:54-136 | for every store and quantity, adding a product the demo cart lacks and then removing it reads back the original cart |
| CartApi.UpdateTwiceIsUpdateOnce | src/api/cart.rs:83-96 | sending the same update twice leaves the store as sending it once |
| CartApi.AddThenGetScenario | src/api/cart.rs:179-221 | adding ("3", 1) to a fresh store and reading yields exactly the line ("3", 1) |
| CartApi.AddThenUpdateScenario | src/api/cart.rs:224-282 | adding ("2", 2) then updating to 5 yields the single line ("2", 5) |
| CartApi.AddThenRemoveScenario | src/api/cart.rs:285-342 | adding ("2", 2) then removing "2" yields an empty cart |
| CartApi.LenientUpdateScenario | src/api/cart.rs:81-95 | updating a product absent from an empty store succeeds and leaves the store empty |
| CheckoutService.FindOrder | src/services/checkout_service.rs:44 | the position found is the first order with the id; there is none exactly when no order has it |
| CheckoutService.OrdersOf | src/services/checkout_service.rs:32-36 | the result holds exactly the store's orders placed by the user |
| CheckoutService.OrdersOfAppend | src/services/checkout_service.rs:32-36 | filtering by user distributes over concatenation, so results keep store order |
| CheckoutService.GetUserOrders | src/services/checkout_service.rs:30-37 | fails only on a poisoned lock, with LockError; otherwise returns the user's orders in store order (the OrdersOf filter), and an empty list when there are none |
| CheckoutService.GetOrderById | src/services/checkout_service.rs:40-47 | with a healthy lock, a present id always gives Ok with the first order holding it, and an absent id gives OrderNotFound; LockError on a poisoned lock |
| CheckoutService.CreateOrder | src/services/checkout_service.rs:64-82 | appends exactly one order with the given id, user, items and total in status PendingPayment, and returns that order; distinct ids stay distinct; a poisoned lock gives LockError and no change |
| CheckoutService.CancelOrder | src/services/checkout_service.rs:50-62 | a pending order becomes Failed and only its status changes; any other status gives CannotCancelOrder; an unknown id gives OrderNotFound; every failure leaves the store unchanged |
| CheckoutService.UpdateOrderStatus | src/services/checkout_service.rs:84-95 | the matched order's status is overwritten with no transition check, and only that field changes; an unknown id succeeds with no change |
| CheckoutService.CreatedOrderIsFound | src/services/checkout_service.rs:64-82 | looking up a newly created order by its id returns exactly that order |
| CheckoutService.CreatedOrderIsListed | src/services/checkout_service.rs:30-37 | a newly created order appears last in its user's order list, after the user's earlier orders |
| CheckoutService.CancelSucceedsIffPending | src/services/checkout_service.rs:50-62 | a cancel succeeds if and only if the order exists and is PendingPayment |
| CheckoutService.CancelKeepsResolvedOrders | src/services/checkout_service.rs:53-58 | cancelling a Paid or Failed order changes nothing |
| Catalog.MockProducts | src/api/model.rs:34-53 | the mock catalog has exactly two products with distinct ids and positive prices |
| Catalog.MockCatalogContents | src/api/model.rs:36-51 | product "2" is Bamileke Stool, 15000, Furniture, Ouest, certified; product "3" is Cameroon T-shirt, 5000, Clothing, Centre, not certified |
| Catalog.MockPrice | src/api/model.rs:34-53 | the mock lookup prices exactly the ids "2" (15000) and "3" (5000) and finds nothing else |
| Text.ContainsIffOccurs | src/api/handler.rs:41 | the substring scan succeeds if and only if the needle occurs at some position of the text |
| Text.Lower | src/api/handler.rs:41 | folding keeps the length, turns each ASCII capital into its own lower-case letter (code + 32), and keeps every other character |
| Text.LowerIgnoresCase | src/api/handler.rs:41-46 | two texts fold to the same text exactly when, position by position, they differ only in the case of ASCII letters |
| Text.LowerIdempotent | src/api/handler.rs:41 | folding twice is folding once |
| Text.Contains | src/api/handler.rs:41 | the empty needle is always found, and a found needle is no longer than the text |
| Search.FilterProducts | src/api/handler.rs:37-72 | a product is kept if and only if it is in the catalog and passes every supplied filter |
| Search.Matches | src/api/handler.rs:39-71 | a query that supplies none of the six filters matches every product |
| Search.MatchesIgnoresCase | src/api/handler.rs:40-64 | the name, category and region filters ignore case: folding those fields of the product, or the query's text filters, changes no verdict |
| Search.FilterAppend | src/api/handler.rs:37-72 | filtering distributes over concatenation, so results keep catalog order |
| Search.FilterWithoutFilters | src/api/handler.rs:39-71 | a query without filters keeps the whole catalog |
| Search.PriceBoundsInclusive | src/api/handler.rs:50-59 | a price equal to both min_price and max_price is kept |
| Search.PagesTile | src/api/handler.rs:78 | the windows at start and start + limit together are the window of 2 × limit at start: consecutive windows leave no gap and no overlap |
| Search.ConsecutivePagesTile | src/api/handler.rs:74-78 | page p + 1 starts exactly limit products after page p, so pages p and p + 1 together hold the 2 × limit products from page p's start |
| Search.PageOf | src/api/handler.rs:78 | at most limit products, none once the start reaches the end, and the k-th is the filtered list's (start + k)-th |
| Search.SearchProducts | src/api/handler.rs:33-88 | page defaults to 1 and limit to 10; page 0 aborts; total is the full filtered count; the page holds exactly min(limit, total − start) products, none once start reaches total, the k-th being filtered[start + k] |
| Search.TotalIndependentOfPaging | src/api/handler.rs:80-85 | two queries differing only in page and limit filter to the same list, so both report the same total (total is the filtered count) |
| Search.MockNoFilters | src/api/handler.rs:105-126 | on the mock catalog, no filters gives total 2 |
| Search.MockQueryStool | src/api/handler.rs:128-145 | on the mock catalog, "stool" gives total 1 and the Bamileke Stool |
| Search.MockCategoryClothing | src/api/handler.rs:147-164 | on the mock catalog, category "Clothing" gives total 1, a Clothing product |
| Search.MockCertified | src/api/handler.rs:166-183 | on the mock catalog, certified=true gives total 1, a certified product |
| Binding.CartErrorFrom | src/models/binding.rs:3-12 | LockError maps to LockError, and ProductNotFound maps to GenericError("Product not found") |
| Binding.IntoProductError | src/models/binding.rs:14-21 | LockError maps to LockError, and CartNotFound and every GenericError map to ProductNotFound |
| Binding.ProductErrorRoundTrip | src/models/binding.rs:3-21 | product error to cart error and back is the identity |
| Binding.CartErrorRoundTrip | src/models/binding.rs:3-21 | cart error to product error and back is the identity exactly on LockError and GenericError("Product not found") |
| Binding.CartNotFoundIsLost | src/models/binding.rs:14-21 | CartNotFound does not survive the round trip |
| Checkout.PriceFrom | src/api/checkout.rs:39-47 | the pricing loop yields a total exactly when every line's product is found, and that total is the sum of quantity × price |
| Checkout.PriceCart | src/api/checkout.rs:39-47 | pricing is all-or-nothing and, on success, equals the sum of quantity × price over the cart |
| Checkout.CartTotalAppend | src/api/checkout.rs:39-47 | the amount due for a cart is the sum of the amounts due for its parts |
| Checkout.ProductIds | src/api/checkout.rs:49 | one product id per cart line, in cart order |
| Checkout.Checkout | src/api/checkout.rs:28-58 | an empty cart fails with "Cart is empty" and an unknown product with "product not found", both creating no order; success exactly when the cart is non-empty, fully priced and the store healthy; then exactly one PendingPayment order is appended with the cart's product ids in order and the priced total; the cart is never changed |
| Checkout.CallbackStatus | src/api/checkout.rs:64-68 | "success" maps to Paid, and every other string to Failed |
| Checkout.PaymentCallback | src/api/checkout.rs:60-75 | the order's status is overwritten with the mapped status, the carts and the lock state are kept and no other order changes; an unknown order id succeeds with no change |
| Checkout.RepeatedCheckoutReorders | src/api/checkout.rs:28-58 | checking out the same cart twice creates two orders with equal items and totals |
| Checkout.MockPricingScenario | src/api/checkout.rs:39-47 | the cart {"2": 2, "3": 1} prices to 35000 on the mock catalog |
| Checkout.EmptyCartScenario | src/services/checkout_service.rs:131-148 | checkout on a fresh server fails with "Cart is empty" and changes nothing |
| Checkout.StoolCheckoutScenario | src/services/checkout_service.rs:150-199 | two stools in the cart check out into one pending order of 30000 |
| Checkout.UnknownOrderCallbackScenario | src/services/checkout_service.rs:201-223 | a "success" callback for an unknown id succeeds and changes nothing |
| Checkout.CheckoutThenCallback | src/api/checkout.rs:49-74 | a checked-out order reads back PendingPayment; after the callback it is Paid exactly when the outcome was "success" |
| CartContext.AddToCart | frontend/src/buyerInterface/context/CartContext.tsx:12-23 | a present id gains one unit with length and the other items unchanged; a new id is appended with quantity 1; unique ids stay unique |
| CartContext.RemoveFromCart | frontend/src/buyerInterface/context/CartContext.tsx:25-27 | keeps exactly the items with another id; an absent id leaves the cart unchanged |
| CartContext.RemoveFromCartAppend | frontend/src/buyerInterface/context/CartContext.tsx:26 | removal distributes over concatenation, so the other items keep their order |
| CartContext.ToggleCart | frontend/src/buyerInterface/context/CartContext.tsx:29 | flips whether the drawer is open and keeps the items |
| CartContext.AddToCartAddsOneUnit | frontend/src/buyerInterface/context/CartContext.tsx:14-21 | with unique ids, every add puts exactly one more unit in the cart |
| CartContext.AddThenRemoveRestores | frontend/src/buyerInterface/context/CartContext.tsx:12-27 | adding a new product and then removing it restores the cart |
| CartContext.ToggleTwice | frontend/src/buyerInterface/context/CartContext.tsx:29 | toggling twice restores the state |
| CartContext.FirstAdd | frontend/src/buyerInterface/context/CartContext.tsx:9-21 | the initial state has the drawer closed, and the first add gives a one-item cart of quantity 1 |

## Left out

- Locking and concurrency: mutexes, lock poisoning in the cart store (its `unwrap` panics), and the window between the cart read and the order creation in checkout. Each store call is atomic, and checkout is their sequential composition.
- Floating point: prices and totals are `f64` in the code and whole integers here.
- `Uuid::new_v4`: it is random, so the new order id is a parameter with a freshness precondition.
- `PaymentService::initiate_payment` only prints, so checkout has no observable payment effect.
- `ProductService::get_product_by_id` is not part of this model. Checkout takes the product lookup as a parameter.
- HTTP plumbing: routing, JSON (de)serialisation, status-code mapping in `src/api/orders.rs`, and the wiring in `src/main.rs` and `src/state.rs`.
- `src/auth/authenticator.rs` is entirely commented out.
- Unicode case folding: `to_lowercase` is modelled as ASCII lower-casing.
- Front-end UI and I/O (components, pages, the axios client, network status, the request queue, sample data).
- CartApi.AddToCart: inherits the requirement below that the merged quantity fits in `u32`; the handler panics in a debug build when it does not.
- CartService.AddItem: requires that the merged quantity fits in `u32`. This matches a debug build, where the `+=` panics on overflow. A release build would wrap around instead.
- Search.SearchProducts: page 0 and a `(page - 1) * limit` above `usize::MAX` abort the request, as a debug build panics. A release build would wrap around instead. The catalog is a parameter; the handler always passes the mock catalog.
- Search.SearchProducts: `total` is an unbounded count rather than a `usize`.
- CartContext.AddToCart: quantities are unbounded integers rather than JavaScript numbers.
