# Order, cart, catalogue and store rules of a small e-commerce backend, with its frontend form helpers

This project models the business rules of an Express/Mongoose shop in Dafny and proves
properties of the model. The parts modelled are:

- the order ledger: the fixed status enumeration, the transition table, and the two
  `pre("save")` hooks that recompute the total and append to the status history;
- the order controller: placement with stock checks and decrements, status and payment
  updates, the owner check of `getOrderById`, and the seller fan-out view with its
  per-status histogram;
- the product schema bounds and its SKU hook;
- the cart schema and its total hook;
- the cart, wishlist, product, store and user controllers;
- the two authentication middlewares, with `jwt.verify` as an oracle;
- the frontend helpers: the checkout page's card, expiry and CVV formatters and its
  subtotal; the login form's validation; the product list's category options and
  filter; and the new-product form's image limit and validation.

## How the model is built

The database is the class `Database.Db`. It holds one `seq` per Mongoose model, in
insertion order, and lookups are first-match scans. `Db.Valid()` holds the schema bounds
and the unique indexes as an invariant that every controller method keeps.

Each controller operation has two parts:

- a specification function on values, such as `CreateOrderSpec` or `UpdateStoreStatusSpec`,
  which returns the reply and the new collections;
- a method on `Db` that performs the operation step by step and whose `ensures` ties the
  new state to that function.

The lemmas about the specification functions state what the source promises.

Loaded Mongoose documents that the source changes in place are classes with `modifies`
clauses:

- `OrderModel.OrderDocument`;
- `CartModel.CartDocument`;
- the request object `Auth.HttpRequest`;
- the two React form states `LoginForm.Form` and `NewProductForm.Form`.

The Express reply is `Common.Reply`: either `Ok(status, body)` or `Err(status, message)`.

Inputs from outside are parameters:

- the clock (`now`);
- fresh document ids, with a freshness `requires`;
- `jwt.verify`, a function from a token to its outcome;
- JavaScript's `Number`, a function from a string to `NaN` or a number.

ObjectIds are natural numbers, and parsing of an id string is the decimal reading
`Strings.ParseNat`. Money and quantities are integers (cents).

## Model

| member | source | states |
|---|---|---|
| OrderModel.ParseStatus | backend/src/models/order.model.ts:98-113 | a string is accepted by the `status` enum exactly when it is one of the ten status names, and then yields that status |
| OrderModel.ParseStatusName | backend/src/models/order.model.ts:18-28 | every status is accepted under its own name (the enum and the names agree) |
| OrderModel.ParsePayment | backend/src/models/order.model.ts:127-131 | a string is accepted by the `paymentStatus` enum exactly when it is one of the five payment names |
| OrderModel.ParsePaymentName | backend/src/models/order.model.ts:127-131 | every payment status is accepted under its own name, the converse of `ParsePayment` |
| OrderModel.TransitionMovesForward | backend/src/models/order.model.ts:168-179 | every allowed step raises the status rank; no status is its own target; `cancelled` and `refunded` have no targets |
| OrderModel.PathRanksIncrease | backend/src/models/order.model.ts:168-179 | along any chain of allowed steps the rank grows by at least one per step |
| OrderModel.PathsAreShort | backend/src/models/order.model.ts:168-179 | a chain of allowed steps never revisits a status and has at most nine statuses |
| OrderModel.SaveTotal | backend/src/models/order.model.ts:148-153 | after a successful save the total is the sum of price × quantity, 0 for no lines, and never negative |
| OrderModel.SaveHistory | backend/src/models/order.model.ts:155-160 | save appends exactly one entry with the new status when `status` is modified, none otherwise, and changes nothing but total and history |
| OrderModel.SaveSucceedsIff | backend/src/models/order.model.ts:166-191 | with the validator reading the persisted status, save succeeds iff the schema holds and a modified status is a table transition; otherwise the error is "Invalid status transition from X to Y" |
| OrderModel.AsWrittenRejectsEveryStatusChange | backend/src/models/order.model.ts:148-191 | as written the validator reads the entry the first hook just pushed, so every status change fails as a transition from the new status to itself |
| OrderModel.AsWrittenAgreesWhenUnmodified | backend/src/models/order.model.ts:155-167 | when `status` is not modified, the as-written and corrected saves coincide |
| OrderModel.ConfirmPendingOrderAsWritten | backend/src/models/order.model.ts:164-191 | witness input only, for the first Findings row: one pending order confirmed by payment, which the table allows and the as-written save rejects as "confirmed to confirmed" |
| OrderModel.NewOrder | backend/src/models/order.model.ts:112-130 | the record of the corrected create: status `pending` and payment `pending` by default, and the total of its lines supplied |
| OrderModel.CreateSaveAsWritten | backend/src/models/order.model.ts:71-75 | as written the create's save always fails, since `totalAmount` is required and absent when the validators run; with the rest of the schema met the error is Mongoose's `required` message |
| OrderModel.OrderDocument.Load | backend/src/controllers/order.controller.ts:112 | a loaded document holds the stored order and is clean |
| OrderModel.OrderDocument.SetStatus | backend/src/controllers/order.controller.ts:119 | assigning `status` changes only the status and marks it modified exactly when the value differs |
| OrderModel.OrderDocument.PushHistory | backend/src/controllers/order.controller.ts:141-145 | `statusHistory.push` appends one entry and changes nothing else |
| OrderModel.OrderDocument.Save | backend/src/models/order.model.ts:148-191 | the in-place save gives the result of the corrected save (the hooks as written are `SaveAsWritten`); on success the document holds the saved order and is clean |
| OrderController.PriceItems | backend/src/controllers/order.controller.ts:16-31 | every item priced in request order with the product's current price, or the error of the first item whose product is missing or short of stock |
| OrderController.PriceItemsFirstFailure | backend/src/controllers/order.controller.ts:18-24 | when every item before `i` can be priced and item `i` cannot, its error is the result |
| OrderController.PricedLine | backend/src/controllers/order.controller.ts:22-29 | a priced line has the request's product and quantity and the product's price, and the product had enough stock |
| OrderController.DecrementStops | backend/src/controllers/order.controller.ts:48-56 | once a product save has failed, the later items change nothing |
| OrderController.DecrementDistinct | backend/src/controllers/order.controller.ts:48-56 | for distinct products that all passed the stock check, every decrement succeeds and each product's stock drops by its ordered quantity, others unchanged |
| OrderController.CreateOrderRejections | backend/src/controllers/order.controller.ts:11-31 | missing or empty items give 400 "No order items"; an unknown product or short stock gives 500; in both cases nothing is created and no stock changes |
| OrderController.CreatedOrderShape | backend/src/controllers/order.controller.ts:25-45 | for the corrected create: a created order has the priced lines, the caller as user, pending status and payment, a single `pending` history entry, delivery estimate now + 7 days, and total = Σ price × quantity |
| OrderController.CreateOrderStock | backend/src/controllers/order.controller.ts:48-58 | for the corrected create, with distinct valid products: a created order is answered with 201 and each ordered product's stock is reduced by its quantity, the others unchanged |
| OrderController.CreateAsWrittenNeverPlaces | backend/src/controllers/order.controller.ts:38-64 | as written `createOrder` never answers 201, creates no order and changes no stock; wherever the corrected create places an order it answers 500 with the `required` message for `totalAmount`, and the two agree exactly where the corrected create places none |
| OrderController.PriceAll | backend/src/controllers/order.controller.ts:16-31 | the pricing loop computes `PriceItems` |
| OrderController.DecrementAll | backend/src/controllers/order.controller.ts:48-56 | the stock loop leaves the catalogue that `Decrement` describes and keeps the products valid; no other collection changes |
| OrderController.CreateOrder | backend/src/controllers/order.controller.ts:7-65 | the database after placement is `CreateOrderSpec`'s, the corrected create: reply, catalogue, and the order appended when created; the invariant is kept |
| OrderController.GetOrderById | backend/src/controllers/order.controller.ts:67-87 | 200 with the order exactly when it exists, its user still exists and is the caller; 404 exactly when no order has the id |
| OrderController.StatusUpdateSucceedsIff | backend/src/controllers/order.controller.ts:119-153 | with the corrected save, a status update of a stored order saves iff the status is unchanged or the table allows the step; otherwise the error contains "Invalid status transition" |
| OrderController.StatusUpdateEffects | backend/src/controllers/order.controller.ts:118-148 | with the corrected save: the saved order has the new status; tracking number only when a non-empty one is given; delivery date on `delivered`; the note as cancellation or return reason; the note entry then the hook entry in the history; items, total and payment unchanged |
| OrderController.StatusUpdateAsWrittenRejectsChanges | backend/src/controllers/order.controller.ts:119-153 | as written, a status update saves iff the status is unchanged, and then saves what the corrected update saves; every change fails as a transition from the new status to itself and is answered 400 |
| OrderController.StatusErrorReply | backend/src/controllers/order.controller.ts:150-156 | a save error is answered 400 iff its message contains "Invalid status transition", else 500 |
| OrderController.ApplyStatusEdits | backend/src/controllers/order.controller.ts:118-146 | the in-place assignments give `EditForStatus` of the loaded order |
| OrderController.UpdateOrderStatus | backend/src/controllers/order.controller.ts:109-158 | with the corrected save: 404 for an unknown order; 500 for a status outside the enum; otherwise the saved order replaces the stored one, or the save error is answered and nothing changes |
| OrderController.PaymentUpdateEffects | backend/src/controllers/order.controller.ts:169-181 | with the corrected save a payment update always saves; completing a pending order confirms it with the "Payment completed" entry then the hook's entry; any other combination changes only `paymentStatus` |
| OrderController.PaymentUpdateAsWrittenFailsOnConfirm | backend/src/controllers/order.controller.ts:169-186 | as written, completing the payment of a pending order fails as a transition from `confirmed` to itself, which is answered 500; every other payment update saves what the corrected update saves |
| OrderController.UpdatePaymentStatus | backend/src/controllers/order.controller.ts:160-187 | with the corrected save: 404 for an unknown order, 500 for a value outside the enum, otherwise the stored order becomes `PaymentUpdate`'s |
| OrderController.StoreProductIds | backend/src/controllers/order.controller.ts:206-207 | the ids are exactly those of the store's products |
| OrderController.Restrict | backend/src/controllers/order.controller.ts:222-227 | each order keeps its place with its items filtered to the store's products |
| OrderController.Tally | backend/src/controllers/order.controller.ts:230-233 | the histogram has a key exactly for each status that occurs |
| OrderController.TallyCounts | backend/src/controllers/order.controller.ts:230-233 | each histogram entry is the number of orders with that status |
| OrderController.StatusCountsSum | backend/src/controllers/order.controller.ts:230-237 | the per-status counts add up to the number of orders (`count`) |
| OrderController.SellerOrdersNeedStore | backend/src/controllers/order.controller.ts:197-203 | 404 "Store not found" exactly when the caller owns no store |
| OrderController.SellerViewNewestFirst | backend/src/controllers/order.controller.ts:216-219 | the view is sorted newest first |
| OrderController.SellerViewSound | backend/src/controllers/order.controller.ts:210-227 | every entry is a matched order restricted to the store's lines, and keeps at least one line |
| OrderController.SellerViewComplete | backend/src/controllers/order.controller.ts:210-227 | every order the query matches appears, restricted to the store's lines |
| OrderController.SellerOrdersView | backend/src/controllers/order.controller.ts:189-242 | on success: count is the number of orders shown, the histogram sums to it, the view is sound, complete and newest first |
| ProductModel.CreateRecord | backend/src/models/product.model.ts:60-124 | a created product passes the schema (required strings, price and stock at least 0, rating in [0, 5], discount in [0, 100], non-empty images, review ratings in [1, 5]) with `isActive` true, `totalSales` and rating 0, no reviews, no discount and stock defaulting to 0; creation fails exactly when a trimmed required string or the SKU is empty, price or stock is negative, or an image is empty |
| ProductModel.ParseSkuFor | backend/src/models/product.model.ts:193 | the SKU string `SKU-<store>-<n>` reads back to its store and number |
| ProductModel.SkuForInjective | backend/src/models/product.model.ts:193 | different stores or numbers never give the same SKU |
| ProductModel.SkuAsWrittenCollidesAfterDelete | backend/src/controllers/product.controller.ts:28-29 | for any store whose products were numbered 1 to n, deleting any product but the last makes the count-based SKU equal to the SKU the last product still holds |
| ProductModel.MaxSkuNumber | backend/src/models/product.model.ts:153-158 | no well-formed SKU in the catalogue has a sequence number above the computed maximum |
| ProductModel.NextSkuFresh | backend/src/models/product.model.ts:153-158 | the SKU numbered past the maximum is held by no product, so the unique index accepts it |
| ProductModel.NextSkuAgreesWithoutDeletes | backend/src/controllers/product.controller.ts:28-29 | while the numbers in use run up to the count, the corrected SKU is the count-based one |
| ProductModel.SkuHook | backend/src/models/product.model.ts:190-196 | a product that passes the validators, as every product reaching the hook on a save does since `sku` is required, is left unchanged; the branch that builds `SKU-<store>-<count + 1>` is never reached on a save |
| ProductController.SplitImages | backend/src/controllers/product.controller.ts:37 | `split(",next,")` gives at least one piece, the pieces join back to the input, and none contains the separator |
| ProductController.FindApprovedStoreOf | backend/src/controllers/product.controller.ts:13-16 | the store found is one the caller owns with status `approved`; none means no such store exists |
| ProductController.CreateProductNeedsApprovedStore | backend/src/controllers/product.controller.ts:13-23 | 403 "You need an approved store to create products" exactly when the caller owns no approved store; a created product implies such a store |
| ProductController.CreatedProduct | backend/src/controllers/product.controller.ts:25-45 | with the corrected SKU numbering and an approved store, creation succeeds iff `images` is sent and the record passes the schema; the product then has the new id, the caller's store, the fresh SKU, the split images and the defaults, and is answered with 201 |
| ProductController.CreateFromFreshSku | backend/src/controllers/product.controller.ts:31-45 | with a SKU nobody holds, creation fails only for missing images or the validators |
| ProductController.CreatedProductSku | backend/src/controllers/product.controller.ts:28-29 | the corrected SKU, not the code's `count + 1`, names the caller's store and a number past every number in use, and no product holds it |
| ProductController.CreateAsWrittenCollidesAfterDelete | backend/src/controllers/product.controller.ts:28-52 | after a delete, the count-based create collides with a remaining SKU and answers 500, while the corrected create succeeds |
| ProductController.CreateRecordAnySku | backend/src/models/product.model.ts:153-158 | whether the validators pass does not depend on which non-empty SKU is used |
| ProductController.CreateProduct | backend/src/controllers/product.controller.ts:7-53 | the reply and the catalogue are `CreateProductSpec`'s, with the corrected SKU numbering, the new product appended at the end; no other collection changes |
| ProductController.StoreProductsView | backend/src/controllers/product.controller.ts:56-96 | a non-seller gets 403, a seller without a store 404, an unapproved store 403; otherwise exactly the store's active products, each once, newest first |
| ProductController.UpdateProductEffects | backend/src/controllers/product.controller.ts:144-174 | 404 for an unknown product and 403 unless the caller owns its store, with nothing changed; success exactly when `images` is sent, the updated product passes the validators and a SKU in the body is held by no other product; then only that product changes, to the updates with `images` re-split, keeping its id, taking the store and SKU of the body when given, and the catalogue stays valid |
| ProductController.UpdateProduct | backend/src/controllers/product.controller.ts:139-182 | the reply and catalogue are `UpdateProductSpec`'s, a SKU held by another product answered 500 |
| ProductController.DeleteProductEffects | backend/src/controllers/product.controller.ts:190-219 | 404 and 403 as for updates, with nothing changed; on success exactly that product is removed and every other one is kept |
| ProductController.DeleteProduct | backend/src/controllers/product.controller.ts:185-227 | the reply and catalogue are `DeleteProductSpec`'s |
| ProductController.BuildSearchFilter | backend/src/controllers/product.controller.ts:236-243 | the filter always requires `isActive`, has a text search exactly when a query is given and a category exactly when a category is given |
| ProductController.SearchResults | backend/src/controllers/product.controller.ts:235-248 | only active products are found; a given category is matched exactly; with neither query nor category every active product is found; results are newest first |
| CartModel.SaveCartTotal | backend/src/models/cart.model.ts:57-65 | a save with modified items sets `total` to Σ price × quantity (0 for none, never negative); without that it leaves the cart as it was |
| CartModel.SaveCartFailsIff | backend/src/models/cart.model.ts:32-42 | a save fails exactly when some line has quantity below 1 or a negative price |
| CartModel.CartDocument.Load | backend/src/controllers/cart.controller.ts:43 | a loaded cart document holds the stored cart and is clean |
| CartModel.CartDocument.Create | backend/src/controllers/cart.controller.ts:46-49 | a new cart has the given lines, total 0 before its save, and `items` modified |
| CartModel.CartDocument.SetLine | backend/src/controllers/cart.controller.ts:110 | assigning a line's path changes that line only and marks `items` modified when it differs |
| CartModel.CartDocument.PushLine | backend/src/controllers/cart.controller.ts:59 | `cart.items.push` appends one line |
| CartModel.CartDocument.SetItems | backend/src/controllers/cart.controller.ts:140-142 | `cart.items = lines` replaces the lines and marks them modified when they differ |
| CartModel.CartDocument.Save | backend/src/models/cart.model.ts:57-65 | the in-place save gives `SaveCart`; on success the document holds the saved cart |
| CartController.LineOf | backend/src/controllers/cart.controller.ts:51-53 | the line found has the product; none means no line has it |
| CartController.AddLineEffects | backend/src/controllers/cart.controller.ts:51-60 | an existing line gets the quantity added and the current price, the other lines and the count unchanged, and fails when no quantity is sent (the sum is NaN); otherwise one line with the quantity or the default 1 is appended; one line per product is kept |
| CartController.AddToCartNewCart | backend/src/controllers/cart.controller.ts:35-49 | an unknown product gives 404 and no cart changes; without a cart the new cart holds exactly one line with the product, quantity and current price |
| CartController.SavedCartConsistent | backend/src/models/cart.model.ts:57-65 | saving edited lines with one line per product gives a consistent cart whose total is their sum |
| CartController.MergeLine | backend/src/controllers/cart.controller.ts:51-60 | the in-place edit of the loaded cart gives `AddLine`'s lines |
| CartController.AddToCart | backend/src/controllers/cart.controller.ts:27-82 | the reply and carts are `AddToCartSpec`'s and the invariant is kept |
| CartController.UpdateCartEffects | backend/src/controllers/cart.controller.ts:89-116 | no cart or no line gives 404 with nothing changed; success iff a quantity of at least 1 is given; then only that line's quantity changes and the total follows |
| CartController.UpdateCart | backend/src/controllers/cart.controller.ts:84-124 | the reply and carts are `UpdateCartSpec`'s |
| CartController.WithoutProductOneLine | backend/src/controllers/cart.controller.ts:140-142 | dropping lines keeps one line per product |
| CartController.RemoveFromCartEffects | backend/src/controllers/cart.controller.ts:140-148 | removal always succeeds on an existing cart: no line of the product is left, every other line is kept, and the total follows |
| CartController.RemoveFromCart | backend/src/controllers/cart.controller.ts:126-156 | the reply and carts are `RemoveFromCartSpec`'s |
| WishlistController.WithoutEffects | backend/src/controllers/wishlist.controller.ts:64-66 | removal drops every occurrence of the product, keeps every other entry, and changes nothing for an absent product |
| WishlistController.WithoutKeepsOrder | backend/src/controllers/wishlist.controller.ts:121-123 | removal distributes over concatenation, so the others keep their order |
| WishlistController.ToggleEffects | backend/src/controllers/wishlist.controller.ts:57-73 | a present product is removed everywhere, an absent one appended at the end; toggling twice restores its membership, and the whole list when it was absent; other entries are untouched |
| WishlistController.ToggleWishlist | backend/src/controllers/wishlist.controller.ts:41-90 | an unknown user gives 404; otherwise the user's wishlist becomes `Toggle` of it and is answered with 200 |
| WishlistController.RemoveFromWishlist | backend/src/controllers/wishlist.controller.ts:92-132 | an unknown user, or an absent product, gives 404 with nothing changed; otherwise the product is removed and the rest kept |
| StoreModel.ParseStoreStatus | backend/src/models/store.model.ts:56-60 | a string accepted by the store `status` enum is the name of the status it yields |
| StoreModel.ParseStoreStatusName | backend/src/models/store.model.ts:56-60 | every store status is accepted under its own name |
| StoreModel.NewStore | backend/src/models/store.model.ts:39-103 | `Store.create` yields a pending, inactive store with rating, ratings, sales and balance 0, trimmed name and description, and the contact email trimmed and lower-cased; it fails exactly when the trimmed name or description is empty |
| StoreController.CreateStoreRejections | backend/src/controllers/store.controller.ts:14-33 | a caller who already owns a store gets 400 "You already have a store"; the route fails exactly then or when a name or description trims to nothing; a failure writes nothing |
| StoreController.CreatedStore | backend/src/controllers/store.controller.ts:23-47 | a created store is answered with 201, appended to the stores, owned by the caller, pending, inactive, with zero rating, ratings, sales and balance; the caller is made a seller linked to it; one store per owner is kept |
| StoreController.LinkSellerEffects | backend/src/controllers/store.controller.ts:36-42 | the user update changes only the caller's record, which becomes a seller linked to the store, and keeps the users valid; `sellerStatus` is not a user path and is dropped |
| StoreController.CreateStore | backend/src/controllers/store.controller.ts:6-55 | the reply, stores and users are `CreateStoreSpec`'s and the invariant is kept |
| StoreController.RenamedEffects | backend/src/controllers/store.controller.ts:98-99 | a supplied non-empty name or description replaces the old one, trimmed, and an absent or empty one keeps it; nothing else changes, and the result fails validation exactly when a supplied text trims to nothing |
| StoreController.OrKeepTrimmed | backend/src/controllers/store.controller.ts:98-99 | `v \|\| current` through the trim setter is `v` trimmed when `v` is non-empty and the already trimmed current value otherwise |
| StoreController.UpdateStoreEffects | backend/src/controllers/store.controller.ts:89-105 | 404 exactly when the caller has no store; otherwise success exactly when the renamed store is valid, and then only that store changes |
| StoreController.UpdateStore | backend/src/controllers/store.controller.ts:83-113 | the reply and stores are `UpdateStoreSpec`'s and the invariant is kept |
| StoreController.GetAllStores | backend/src/controllers/store.controller.ts:116-132 | administrators get every store; anyone else gets 403 "Not authorized" |
| StoreController.UpdateStoreStatusEffects | backend/src/controllers/store.controller.ts:148-177 | non-administrators get 403 and an unknown store 404, writing nothing; success exactly for an administrator, a known store and a status in the enum, and then the store takes exactly that status, `isActive` included unchanged, and no other store changes |
| StoreController.UpdateStoreStatus | backend/src/controllers/store.controller.ts:143-185 | the reply and stores are `UpdateStoreStatusSpec`'s; the users are unchanged because `sellerStatus` is not a user path |
| UserModel.ParseRole | backend/src/models/user.model.ts:43-47 | a string accepted by the `role` enum is the name of the role it yields |
| UserModel.ParseRoleName | backend/src/models/user.model.ts:43-47 | every role is accepted under its own name, the converse of `ParseRole` |
| UserController.UpdateProfileIgnoresPassword | backend/src/controllers/user.controller.ts:55-56 | the outcome does not depend on a supplied password, and no stored password changes |
| UserController.UpdateProfileEffects | backend/src/controllers/user.controller.ts:58-74 | a body failing the update validators gives 500 and an unknown caller 404, writing nothing; on success only the caller's record changes, to the set paths, the reply omits the password, and the email stays unique |
| UserController.UpdateProfileCanSetRole | backend/src/controllers/user.controller.ts:58-62 | a body `{ role: "admin" }` succeeds and makes the caller an administrator |
| UserController.UpdateProfile | backend/src/controllers/user.controller.ts:48-82 | the reply and users are `UpdateProfileSpec`'s and the invariant is kept |
| UserController.BecomeSellerRejections | backend/src/controllers/user.controller.ts:204-230 | a missing or empty name or description gives 400 first; a caller with a store gets 400; a name or description of only whitespace gives 500; none writes anything |
| UserController.BecameSeller | backend/src/controllers/user.controller.ts:221-241 | a created store is answered with 201, appended, owned by the caller, pending, inactive, with the supplied contact email lower-cased and trimmed or none; the caller becomes a seller without a store link and every other user is unchanged |
| UserController.BecomeSeller | backend/src/controllers/user.controller.ts:195-253 | the reply, stores and users are `BecomeSellerSpec`'s and the invariant is kept |
| Auth.HttpRequest.constructor | backend/src/middleware/auth.ts:37-41 | a request carries its header and cookie and no user yet |
| Auth.BearerSplit | backend/src/middleware/auth.ts:25-26 | a header starting with `"Bearer "` splits on spaces into `"Bearer"` and then the text after the prefix up to its next space |
| Auth.BearerToken | backend/src/middleware/auth.ts:26 | the token is the text after `"Bearer "` up to the next space, and holds no space |
| Auth.ExtractToken | backend/src/middleware/auth.ts:22-35 | a Bearer header wins; otherwise a non-empty `accessToken` cookie; otherwise no token |
| Auth.AuthenticatePasses | backend/src/middleware/auth.ts:42-90 | a request passes exactly when a non-empty token verifies to a payload of type absent or `"access"` whose user id reads as the id of a stored, active user; `req.user` is then that user's id and role |
| Auth.AuthenticateRejections | backend/src/middleware/auth.ts:44-111 | every refusal is 401 except "Account is deactivated", which is 403; no token gives "Authentication required" and another token type "Invalid token type" |
| Auth.Authenticate | backend/src/middleware/auth.ts:37-112 | the decision is `AuthenticateSpec`'s; a pass assigns `req.user` and a refusal leaves it |
| Auth.Authorize | backend/src/middleware/auth.ts:114-132 | a request passes exactly when it has a user whose role is listed; no user or no role gives 401 and an unlisted role 403 "Access denied" |
| AuthMiddleware.CookieFirstToken | backend/src/middleware/auth.middleware.ts:17-21 | a non-empty cookie wins; otherwise a Bearer header's token; otherwise no token |
| AuthMiddleware.ProtectToken | backend/src/middleware/auth.middleware.ts:14-21 | the assignments to `token` compute `CookieFirstToken` |
| AuthMiddleware.TokenPrecedenceDiffers | backend/src/middleware/auth.middleware.ts:17-21 | with only one credential the two middlewares take the same token; with both, `extractToken` takes the header and `protect` the cookie |
| AuthMiddleware.TokenPrecedenceExample | backend/src/middleware/auth.middleware.ts:17-21 | witness input only: header `"Bearer a"` with cookie `"b"`: `extractToken` gives `"a"`, `protect` gives `"b"` |
| AuthMiddleware.ProtectOutcomes | backend/src/middleware/auth.middleware.ts:23-75 | every refusal is 401; no token gives "Access denied. No token provided."; a request passes exactly when its token verifies to the id of a stored, active user, whatever the token's type |
| AuthMiddleware.AuthenticateAndProtectDiffer | backend/src/middleware/auth.middleware.ts:42-47 | a deactivated account is 403 for `authenticate` and 401 for `protect`; a `"refresh"` token is refused by `authenticate` and let through by `protect` |
| AuthMiddleware.Protect | backend/src/middleware/auth.middleware.ts:8-76 | the decision is `ProtectSpec`'s; a pass assigns `req.user` and a refusal leaves it |
| AuthMiddleware.Authorize | backend/src/middleware/auth.middleware.ts:78-96 | a request passes exactly when it has a user whose role is listed; no user gives 401 and otherwise 403 "Not authorized to access this route" |
| AuthMiddleware.AuthorizeAgree | backend/src/middleware/auth.middleware.ts:80-94 | both `authorize`s pass the same requests; a user without a role is 401 for one and 403 for the other |
| Checkout.CardDigits | frontend/src/app/checkout/page.tsx:98-100 | the first match of four to sixteen digits holds only digits |
| Checkout.PushGroups | frontend/src/app/checkout/page.tsx:101-105 | the loop pushes the groups of four of the match, the last one shorter |
| Checkout.FormatCardNumber | frontend/src/app/checkout/page.tsx:97-112 | the method computes `FormatCard` |
| Checkout.GroupedLayout | frontend/src/app/checkout/page.tsx:101-108 | grouped digits joined by spaces have a space at every fifth position and the digits in order elsewhere, `k + (k - 1) / 4` characters for `k` digits |
| Checkout.GroupedDigits | frontend/src/app/checkout/page.tsx:101-108 | removing the spaces from the grouped form gives back the digits |
| Checkout.CardFormatGrouped | frontend/src/app/checkout/page.tsx:97-112 | with at least four digits the result is the first sixteen digits at most, in groups of four, never longer than the field's 19 characters (its `maxLength`, line 370) |
| Checkout.CardFormatFewDigits | frontend/src/app/checkout/page.tsx:108-111 | with fewer than four digits the input comes back as typed |
| Checkout.CardFormatIdempotent | frontend/src/app/checkout/page.tsx:97-112 | formatting a formatted card number changes nothing |
| Checkout.ExpiryShape | frontend/src/app/checkout/page.tsx:114-120 | with two digits or more the result is two digits, a slash and up to two more, at most five characters whose digits are the first four of the input; otherwise the digits alone |
| Checkout.ExpiryIdempotent | frontend/src/app/checkout/page.tsx:114-120 | formatting a formatted expiry date changes nothing |
| Checkout.SanitizeCvv | frontend/src/app/checkout/page.tsx:423-425 | the CVV is the first three digits of the input, or all of them when fewer |
| Checkout.CvvIdempotent | frontend/src/app/checkout/page.tsx:423-425 | sanitising a sanitised CVV changes nothing |
| Checkout.ItemsOf | frontend/src/app/checkout/page.tsx:63-66 | the page reads each cart line's price and quantity, one entry per line |
| Checkout.SubtotalIsCartTotal | frontend/src/app/checkout/page.tsx:63-66 | the page's left fold of price × quantity equals the total the cart's save hook stores for the same lines |
| LoginForm.EmailError | frontend/src/components/LoginForm.tsx:28-34 | the email error is empty exactly when the email is present and matches the address pattern; "Email is required" when empty, "Please enter a valid email address" otherwise |
| LoginForm.PasswordError | frontend/src/components/LoginForm.tsx:36-42 | the password error is empty exactly when the password has at least six characters; "Password is required" when empty, the length message otherwise |
| LoginForm.EmailAccepted | frontend/src/components/LoginForm.tsx:31 | witness input only: the pattern accepts `a@b.c` |
| LoginForm.EmailWithoutDotRefused | frontend/src/components/LoginForm.tsx:31 | witness input only: the pattern refuses `a@bc` |
| LoginForm.EmailWithoutLocalPartRefused | frontend/src/components/LoginForm.tsx:31 | witness input only: the pattern refuses `@b.c` |
| LoginForm.Form.constructor | frontend/src/components/LoginForm.tsx:10-17 | the form starts with empty fields and no errors |
| LoginForm.Form.ValidateForm | frontend/src/components/LoginForm.tsx:21-46 | the errors become those of the current fields, the fields are kept, and the result is true exactly when the email is present and well formed and the password has six characters or more |
| LoginForm.Form.HandleChange | frontend/src/components/LoginForm.tsx:65-72 | the named field takes the value and its error is cleared; the other field and its error stay |
| LoginForm.Form.HandleSubmit | frontend/src/components/LoginForm.tsx:48-63 | `login` is called, with the current email and password, exactly when the form validates |
| ProductList.Dedup | frontend/src/components/ProductList.tsx:14 | `Array.from(new Set(s))` holds each value of `s` once and nothing else |
| ProductList.DedupPrefix | frontend/src/components/ProductList.tsx:14 | values keep the order of their first occurrence: appending to the input only appends to the result |
| ProductList.CategoryColumn | frontend/src/components/ProductList.tsx:14 | the column has each product's category at its index |
| ProductList.Categories | frontend/src/components/ProductList.tsx:14 | the options are every category some product has, each exactly once |
| ProductList.FilterSubsequence | frontend/src/components/ProductList.tsx:17-24 | filtering keeps the products it shows in their order |
| ProductList.FilteredProductsExact | frontend/src/components/ProductList.tsx:17-24 | a product is shown exactly when its lower-cased name or description contains the lower-cased query and no category is selected or it is the product's; shown products keep their order |
| ProductList.ShowAllWhenUnfiltered | frontend/src/components/ProductList.tsx:17-24 | with an empty query and no category every product is shown |
| NewProductForm.OnDrop | frontend/src/app/seller/products/new/page.tsx:58-68 | a batch that would take the images past five is refused whole with the toast "Maximum 5 images allowed" and nothing changed; otherwise it is appended after the current images and the images error is cleared; from at most five there are never more than five |
| NewProductForm.DropAllBounded | frontend/src/app/seller/products/new/page.tsx:58-68 | over any sequence of drops the form never holds more than five images and keeps the ones it held |
| NewProductForm.RemoveImage | frontend/src/app/seller/products/new/page.tsx:78-80 | an index in range removes exactly that image, keeping the others in order; any other index changes nothing |
| NewProductForm.RemoveImageCount | frontend/src/app/seller/products/new/page.tsx:78-80 | removing in range leaves one image fewer, and never adds an image |
| NewProductForm.ErrorsFor | frontend/src/app/seller/products/new/page.tsx:92-115 | each field's error is empty exactly when its check passes: a name and a description that trim to something, a price present and not a number up to 0, a stock present and not a negative number, an image |
| NewProductForm.ErrorsEmptyIffValid | frontend/src/app/seller/products/new/page.tsx:90-118 | the error record is empty exactly when every check passes |
| NewProductForm.NaNPricePasses | frontend/src/app/seller/products/new/page.tsx:102 | witness input only: a price that reads as NaN passes the price check |
| NewProductForm.Form.constructor | frontend/src/app/seller/products/new/page.tsx:44-56 | the form starts with empty fields, no images and no errors |
| NewProductForm.Form.ValidateForm | frontend/src/app/seller/products/new/page.tsx:82-119 | `errors` becomes the record of the current fields, nothing else changes, and the result is true exactly when every check passes |
| Sorting.SortNewestFirst | backend/src/controllers/product.controller.ts:90 | `.sort({ createdAt: -1 })`: the result is ordered by non-increasing creation time and is a permutation of the input |

## Left out

- Persistence is in memory: one sequence per collection, first-match lookups, and ids as natural numbers. Reading an id string is the decimal reading `Strings.ParseNat`, so `Types.ObjectId` and cast errors are stood in for by that reading.
- `populate` is not modelled; a populated reference is looked up in the collection it names.
- MongoDB's `$text` index is a parameter `textMatches` of the search.
- JWT signing and verification are left out. `jwt.verify` is a parameter returning a payload or the error it throws. Cookies, bcrypt, the refresh-token table and the rest of `auth.controller.ts` are not part of this model.
- Concurrency is not modelled. `Promise.all` and the read-then-write stock decrement of `createOrder` run one item after another, and nothing is claimed for two requests at once.
- OrderController.CreateOrderStock: states the stock decrement only for orders whose products are distinct. With a product ordered twice, each decrement starts from the stock read before the loop, and no claim is made for that case. It is also about the corrected create: as written the stock loop is never reached (`OrderController.CreateAsWrittenNeverPlaces`).
- The clock is a parameter `now`. The delivery estimate is `now` plus an abstract seven-day offset, with no calendar arithmetic.
- Floating point is not modelled. Money and quantities are integers (cents), ratings and discounts are reals, and JavaScript's `Number` is a parameter returning `NaN` or a number. The checkout page's tax, shipping and `toFixed` formatting are left out.
- `\s`, `trim` and `toLowerCase` are modelled on ASCII whitespace and ASCII letters; Unicode case and whitespace are not modelled.
- Rendering, routing, toasts other than the image-limit one, loading flags and the network call inside `login` are left out. `LoginForm.Form.HandleSubmit` returns the call it would make.
- `getStore`, `getMyOrders`, `getProduct`, `getAllProducts` and the remaining user routes (register, login, password change, the other profile routes) are not part of this model.
- UserController.UpdateProfileEffects: covers the paths `name`, `email`, `password`, `phone`, `bio`, `role` and `isActive`. Other paths of the user document are not modelled.
- UserController.BecameSeller: the contact email falls back to none rather than to the user's email. The route runs behind `authenticate`, whose `req.user` holds only an id and a role, so `user.email` is undefined there. `becomeSeller` also never sets the user's `store` link.
- StoreController.LinkSellerEffects: the user update of `createStore` sets `role` and `store` but no `sellerStatus`. The user schema has no such path, so strict mode drops it.
- StoreController.UpdateStoreStatusEffects: the owner's `sellerStatus` is not set, for the same reason, and the store's `isActive` is left as it was. Approval therefore never activates a store.
- NewProductForm.ErrorsFor: states the price check as the code computes it. A price that `Number` reads as `NaN` passes (`NaN <= 0` is false), so the form does not demand a price above 0 for every input.
- OrderModel.SaveTotal: the schema bounds are checked before the hooks run, as Mongoose validates before `pre("save")` hooks. The `required` check on `totalAmount` matters only at creation, where the code as written gives no total and fails (`OrderModel.CreateSaveAsWritten`, second Findings row); an order loaded from the database already has one.
- OrderModel.NewOrder: builds the record of the corrected create, with the total of the lines supplied. As written `Order.create` is given no `totalAmount`; `OrderModel.CreateSaveAsWritten` models what then happens.
- OrderModel.OrderDocument.Save: runs the corrected validator of the first Findings row. The hooks as written are `OrderModel.SaveAsWritten`.
- OrderController.CreatedOrderShape: describes the order of the corrected create. As written no order is ever created (`OrderController.CreateAsWrittenNeverPlaces`).
- OrderController.CreateOrder: runs the corrected create of the second Findings row, so it answers 201 where the code as written answers 500.
- OrderController.StatusUpdateSucceedsIff: states the condition of the corrected save. As written every status change answers 400 (`OrderController.StatusUpdateAsWrittenRejectsChanges`).
- OrderController.StatusUpdateEffects: gives the effects of the corrected save. As written only an update that leaves the status unchanged saves.
- OrderController.UpdateOrderStatus: saves through the corrected validator. A request without `status` is not modelled, because the status is taken as a string: the source then assigns `undefined`, which the enum validator accepts, and answers 200 with the status unset.
- OrderController.PaymentUpdateEffects: states the corrected save, which always saves. As written, completing the payment of a pending order fails and is answered 500 (`OrderController.PaymentUpdateAsWrittenFailsOnConfirm`).
- OrderController.UpdatePaymentStatus: saves through the corrected validator. A request without `paymentStatus` is not modelled: the source then saves the order with that path unset.
- ProductController.CreatedProduct: states the corrected SKU numbering of the third Findings row. As written, a create after a delete can reuse a SKU in use and answer 500 (`ProductController.CreateAsWrittenCollidesAfterDelete`).
- ProductController.CreatedProductSku: is about the corrected SKU, a number past every number in use, not the `count + 1` of the code.
- ProductController.CreateProduct: runs the corrected SKU numbering.
- ProductController.UpdateProductEffects: covers the body paths `name`, `description`, `price`, `stock`, `category`, `isActive`, `images`, `store`, `sku`, `rating`, `totalRatings` and `totalSales`. The other paths a body can set (`discount`, `variants`, `specifications`, `weight`, `dimensions`, `tags`, `barcode`, `reviews`, the timestamps and `_id`) are not modelled.
- StoreController.UpdateStoreStatus: a request without `status` is not modelled, because the status is taken as a string. The source then assigns `undefined`, which the enum validator accepts, and answers 200 with the store's status unset; `UpdateStoreStatusEffects` states success only for a status in the enum.

## Findings

| source | as written | input that shows it | evidently intended | confidence | as-written member | corrected member |
|---|---|---|---|---|---|---|
| backend/src/models/order.model.ts:148-191 | the first `pre("save")` hook pushes the new status onto `statusHistory` before the transition validator runs, and the validator takes the last history entry as the old status, so it compares the new status with itself | a pending order whose `paymentStatus` becomes `completed`: status is set to `confirmed`, and save fails with "Invalid status transition from confirmed to confirmed" | the validator compares the persisted status with the new one, so `pending → confirmed` saves | not executed | OrderModel.SaveAsWritten, OrderModel.AsWrittenRejectsEveryStatusChange, OrderController.StatusUpdateAsWrittenRejectsChanges, OrderController.PaymentUpdateAsWrittenFailsOnConfirm | OrderModel.SaveCorrected, OrderModel.SaveSucceedsIff, OrderController.StatusUpdateSucceedsIff |
| backend/src/controllers/order.controller.ts:38-45 | `Order.create` is given no `totalAmount`, a `required` path, and Mongoose validates before the `pre("save")` hook that computes the total, so the create fails | any request whose items all exist and are in stock, with a complete address and a payment method: the answer is 500 "Order validation failed: totalAmount: Path `totalAmount` is required." and no stock changes | the order is created with the total of its lines, answered 201, and the stock is decremented | not executed | OrderModel.CreateSaveAsWritten, OrderController.CreateOrderAsWritten, OrderController.CreateAsWrittenNeverPlaces | OrderModel.NewOrder, OrderController.CreateOrderSpec, OrderController.CreatedOrderShape |
| backend/src/controllers/product.controller.ts:28-29 | the SKU number is `countDocuments() + 1` over the whole catalogue, so after a delete the count falls and a number still in use comes back; the unique index on `sku` then rejects the insert | store 7 creates `SKU-7-1` and `SKU-7-2` and deletes the first; its next product is given `SKU-7-2` again and the route answers 500 | a SKU number past every number in use, which no product holds | not executed | ProductModel.SkuAsWritten, ProductController.CreateProductAsWritten, ProductController.CreateAsWrittenCollidesAfterDelete | ProductModel.NextSku, ProductModel.NextSkuFresh, ProductController.CreateProductSpec |
