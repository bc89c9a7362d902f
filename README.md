# Cart and order store of a small shop, modelled in Dafny

This project models the core of a demo shop: a catalog of products, one
shopping cart per client-chosen cart key, and a checkout that turns a list of
cart lines into an order record. It also models two small pure parts of the
single-page front end: the product search filter and the checkout form's
validation and submit flow.

- `common.dfy` (`Common`): an `Option` type and the "subsequence, same order"
  relation.
- `text.dfy` (`Text`): the JavaScript string operations the code relies on
  (`trim`, `includes`, `toLowerCase`).
- `cart_model.dfy` (`CartModel`): the cart document, its schema validators,
  and the catalog entry lines are copied from. It also holds the pure list
  expressions of the handlers: `find` by product id, `filter` out a product,
  and the `reduce` that sums `price * quantity`.
- `order_model.dfy` (`OrderModel`): the order document, its status
  enumeration with default `completed`, its save-time validators, and the
  receipt.
- `api_rules.dfy` (`ApiRules`): each route handler as a transition on one cart
  value (add, remove, set quantity), and checkout's validation and order
  construction. The lemmas about those transitions are here too.
- `api_store.dfy` (`ApiStore`): the store as a class.
  - It holds a map from cart key to cart, a sequence of orders and a read-only
    catalog.
  - Its methods follow the handlers step by step: look up, change, recompute
    the total, then write only if `save` accepts.
  - Each method's postcondition ties the new state to the `ApiRules` function.
  - The class invariant `Valid()` keeps, for every cart:
    - one cart per key;
    - every line's quantity at least 1 and a product id on every line;
    - at most one line per product;
    - a stored total equal to the sum of `price * quantity`;
    - every line's price at least 0, so the total is at least 0.
- `product_page.dfy` (`ProductPage`): the case-insensitive search filter and
  the "Showing N of M" count.
- `checkout_form.dfy` (`CheckoutForm`), `cart_page.dfy` (`CartPage`),
  `checkout_modal.dfy` (`CheckoutModal`): the shared `validateForm` rule, each
  component's validator with its own wording, the submit handlers as classes
  over the component state, and the choice between the receipt, empty-cart and
  form views.

Prices and totals are whole cents, so every sum is exact. A failed handler
returns `Err` with `NotFound(message)`, `MissingFields` (the 400 of checkout)
or `ValidationFailed` (a `save` the schema rejects), and leaves the store as it
was.

In these places the code accepts more than its names and schema suggest, and the model follows the code:
- Adding an item does not require a positive quantity. A new line with a
  quantity below 1 is rejected by the schema at save. A negative quantity on an
  existing line is accepted as long as the line stays at 1 or more, so it
  lowers the quantity.
- Checkout rejects an absent or empty name or email with the 400 "Missing
  required fields". A name or email made only of spaces passes that check,
  is trimmed to empty by the order schema, and is then rejected at save.
  Either way no order is created.
- The order record does not check that the email contains "@". Only the
  front-end forms do.
- An empty item list is accepted at checkout; it makes an order with total 0.

## Model

| member | source | states |
|---|---|---|
| `Text.Trim` | backend/models/Order.js:4-13 | trimming yields the part of the input left after removing a white-space prefix and a white-space suffix; it is empty exactly when the input is all white space, and otherwise starts and ends with a non-space |
| `Text.TrimIdempotent` | backend/models/Order.js:4-13 | a trimmed value is unchanged by trimming again, so stored names and emails are stable |
| `Text.Includes` | frontend/src/pages/ProductPage.jsx:31-32 | `includes` holds exactly when the term occurs at some position of the string |
| `Text.IncludesEmpty` | frontend/src/pages/ProductPage.jsx:29-33 | every string includes the empty term |
| `Text.ToLower` | frontend/src/pages/ProductPage.jsx:31-32 | lower-casing keeps the length, turns each upper-case ASCII letter into its own lower case, leaves every other character unchanged, and so leaves no upper-case ASCII letter |
| `Text.IncludesChar` | frontend/src/pages/CartPage.jsx:20 | `email.includes("@")` holds exactly when the character "@" occurs in the email |
| `CartModel.NewCart` | backend/routes/api.js:24-26 | a new cart has the given key, no lines and total 0, its total matches its lines, and it can be saved exactly when the key is not empty |
| `CartModel.ValidProduct` | backend/models/Product.js:4-13 | a catalog product has an id, a non-empty name and a price of at least 0 |
| `CartModel.LineSaveable` | backend/models/Cart.js:11-22 | a cart line passes the schema when it has a product id and a quantity of at least 1 |
| `CartModel.Saveable` | backend/models/Cart.js:4-22 | a cart passes the schema when its key is given and every line passes |
| `CartModel.Total` | backend/routes/api.js:71-74 | the total is the sum of price times quantity over the lines, the `reduce` repeated at api.js:98-101, 137-140 and 159-162 |
| `CartModel.TotalAppend` | backend/routes/api.js:71-74 | the sum over two lists of lines put together is the sum of their sums |
| `CartModel.TotalUpdate` | backend/routes/api.js:137-140 | replacing one line moves the total by exactly the difference of the two lines' price times quantity |
| `CartModel.TotalNonNegative` | backend/routes/api.js:159-162 | lines with no negative price or quantity have a total of at least 0 |
| `CartModel.FindLine` | backend/routes/api.js:54-56 | the search returns the first line with the product id, or reports that no line has it |
| `CartModel.WithoutProduct` | backend/routes/api.js:94-96 | the filter keeps lines in their original order and keeps no line of the removed product |
| `CartModel.WithoutProductCounts` | backend/routes/api.js:94-96 | every line of another product is kept exactly as often as it occurred |
| `CartModel.WithoutProductUnique` | backend/routes/api.js:94-96 | filtering keeps at most one line per product |
| `CartModel.WithoutAbsentProduct` | backend/routes/api.js:94-96 | when no line has the product, the filter returns the lines unchanged |
| `CartModel.WithoutUniqueLine` | backend/routes/api.js:94-96 | with one line per product, the filter removes exactly the found line and keeps the others in order |
| `CartModel.TotalWithoutLine` | backend/routes/api.js:98-101 | dropping one line lowers the recomputed total by exactly that line's price times quantity |
| `OrderModel.ParseStatus` | backend/models/Order.js:29-33 | a status string is accepted exactly when it is pending, completed or shipped, and it maps back to its own name |
| `OrderModel.CastStatus` | backend/models/Order.js:29-33 | a missing status becomes completed; a given one is accepted exactly when it is in the enumeration, and then becomes the status of that name |
| `OrderModel.StatusRoundTrip` | backend/models/Order.js:29-33 | each status is accepted under its own name |
| `OrderModel.Saveable` | backend/models/Order.js:4-27 | an order passes the schema when its trimmed name and email are not empty and its total is at least 0 |
| `OrderModel.NewOrder` | backend/models/Order.js:4-13 | building an order trims name and email and keeps items, total and status; it passes the schema exactly when neither name nor email is all white space and the total is at least 0 |
| `OrderModel.ReceiptOf` | backend/routes/api.js:182-190 | the checkout response carries the order's id, name, email, items, total and status |
| `ApiRules.StoredCart` | backend/models/Cart.js:3-29 | a stored cart has its own key, passes the schema, has a total equal to the sum of its lines, holds one line per product, and has no line with a negative price |
| `ApiRules.CartOrNew` | backend/routes/api.js:48-51 | the handler works on the stored cart for the key, or on a new empty cart with that key |
| `ApiRules.SaveCart` | backend/routes/api.js:77 | `save` writes the cart exactly when the schema accepts it and otherwise fails with a validation error (also at api.js:104 and 143) |
| `ApiRules.WithItems` | backend/routes/api.js:70-74 | the cart's items are replaced and its total recomputed from them (also at api.js:94-101 and 137-140) |
| `ApiRules.SnapshotLine` | backend/routes/api.js:61-67 | a new line copies the product's id, name, price and image, with the given quantity |
| `ApiRules.AddedItems` | backend/routes/api.js:54-68 | the product's existing line gets its quantity raised, and otherwise a snapshot line is appended |
| `ApiRules.AddToCart` | backend/routes/api.js:53-77 | a saved add keeps the cart key, passes the schema, has a total equal to the sum of its lines, keeps one line per product and has a line for the product; the only failure is a rejected save |
| `ApiRules.AddRejectedIffBelowOne` | backend/routes/api.js:58-77 | an add is rejected at save exactly when the quantity it would store is below 1 (a new line with qty at most 0, or an existing line pushed below 1) |
| `ApiRules.AddExistingLine` | backend/routes/api.js:58-59 | adding a product that has a line raises its quantity by qty, adds no line, changes no other line, and raises the total by price times qty |
| `ApiRules.AddNewLine` | backend/routes/api.js:60-68 | adding a product with no line appends one line at the end copying the product's id, name, price and image with quantity qty, and raises the total by price times qty |
| `ApiRules.FindLineAt` | backend/routes/api.js:54-56 | the search returns a position when that is the first line with the product |
| `ApiRules.AddedItemsAccumulate` | backend/routes/api.js:54-68 | adding a then b of a product gives the same lines as adding a + b |
| `ApiRules.AddAccumulates` | backend/routes/api.js:54-77 | after an accepted add of a, adding b has the outcome of adding a + b at once (2 then 3 is 5) |
| `ApiRules.RemoveFromCart` | backend/routes/api.js:94-104 | removing from a valid cart always saves, keeps the key, has a total equal to the sum of its lines, leaves no line of the product, and keeps one line per product |
| `ApiRules.RemoveAbsentIsNoop` | backend/routes/api.js:94-104 | removing a product the cart does not hold returns the cart unchanged, not an error |
| `ApiRules.RemoveHeldLine` | backend/routes/api.js:94-104 | removing a held product drops exactly its line, keeps the other lines in order, and lowers the total by its subtotal |
| `ApiRules.SetCartQuantity` | backend/routes/api.js:122-143 | a missing line is NotFound "Item not found in cart" and nothing else is; with the line present a valid cart always saves with a total equal to the sum of its lines and one line per product |
| `ApiRules.SetNonPositiveIsRemove` | backend/routes/api.js:129-132 | setting a quantity of at most 0 on a held line gives the same result as removing the product |
| `ApiRules.SetPositiveQuantity` | backend/routes/api.js:133-140 | setting a positive quantity changes only that line, to exactly qty, and moves the total by the change in its subtotal |
| `ApiRules.PlaceOrder` | backend/routes/api.js:155-172 | the result is MissingFields exactly when the item list is absent or the name or email is empty, and every other failure is a rejected save (so a name or email of only spaces is rejected at save, not as missing); an order is made exactly when items are given, name and email are not blank after trimming, and the total is at least 0; it holds the items verbatim, their total, the trimmed name and email, and status completed |
| `ApiRules.CheckoutOfCartLines` | backend/routes/api.js:159-172 | lines with prices of at least 0 and quantities of at least 1 always make an order once a name and an email that are not all white space are given |
| `ApiRules.StoredCartTotalNonNegative` | backend/models/Product.js:9-13 | every stored cart has a total of at least 0, because its lines copy prices of at least 0 and hold quantities of at least 1 |
| `ApiRules.CheckoutOfStoredCart` | backend/routes/api.js:155-172 | the lines of any stored cart always make an order once a name and an email that are not all white space are given |
| `ApiStore.Store.constructor` | backend/models/Cart.js:36 | the store stands for the Cart, Order and Product collections (Cart.js:36, Order.js:42, Product.js:22); it starts with the given catalog, no carts and no orders, and satisfies its invariant. The empty starting state has no source lines of its own |
| `ApiStore.Store.Valid` | backend/models/Cart.js:3-29 | every stored cart is a `StoredCart` under its key, every order passes the order schema, and the catalog holds valid products under their own ids |
| `ApiStore.Store.GetCart` | backend/routes/api.js:19-33 | a stored cart is returned unchanged; an unknown key gets a new cart with no lines and total 0, which is saved |
| `ApiStore.GetCartTwice` | backend/routes/api.js:22-27 | a second read returns what the first read returned and changes nothing; the orders are untouched, and when the first read fails (an empty key) the carts are untouched too |
| `ApiStore.Store.AddItem` | backend/routes/api.js:36-82 | an unknown product is NotFound "Product not found" and no cart is created or changed; otherwise the result and new state are those of AddToCart on the stored or new cart; the store invariant is kept |
| `ApiStore.Store.RemoveItem` | backend/routes/api.js:85-109 | a missing cart is NotFound "Cart not found"; otherwise the stored cart becomes RemoveFromCart's result, which always succeeds; the store invariant is kept |
| `ApiStore.Store.SetQuantity` | backend/routes/api.js:112-148 | a missing cart is NotFound "Cart not found"; otherwise the result and new state are those of SetCartQuantity; every error leaves the store unchanged; the store invariant is kept |
| `ApiStore.Store.Checkout` | backend/routes/api.js:151-194 | a rejected checkout changes nothing; an accepted one appends exactly the order of PlaceOrder and returns its receipt; only then is the cart with the given key emptied with total 0, and a missing cart or key is skipped |
| `ProductPage.Matches` | frontend/src/pages/ProductPage.jsx:30-32 | a product matches when its lower-cased name or lower-cased description includes the lower-cased term |
| `ProductPage.FilteredProducts` | frontend/src/pages/ProductPage.jsx:29-33 | the filtered list is a subsequence of the products in the same order, no longer, and every product in it matches the term ignoring case |
| `ProductPage.FilterCounts` | frontend/src/pages/ProductPage.jsx:29-33 | a matching product is kept as often as it is listed, and a product that does not match is dropped |
| `ProductPage.FilterKeepsMatches` | frontend/src/pages/ProductPage.jsx:30-32 | every product whose lower-cased name or description contains the lower-cased term is kept |
| `ProductPage.EmptyTermKeepsAll` | frontend/src/pages/ProductPage.jsx:29-33 | an empty search term keeps every product |
| `ProductPage.ShowingCounts` | frontend/src/pages/ProductPage.jsx:86 | in "Showing N of M products", N is the number of products the filter shows, at most M, and M is the number of products |
| `CheckoutForm.Validate` | frontend/src/pages/CartPage.jsx:16-23 | a name error appears exactly when the trimmed name is empty. An email error appears exactly when the trimmed email is empty or has no "@". The format message overwrites the required message for a non-empty email without "@". The form has no errors exactly when both fields are non-blank and the email has an "@" |
| `CartPage.ValidateForm` | frontend/src/pages/CartPage.jsx:16-23 | no errors exactly when name and email are not blank and the email has "@"; a non-empty email without "@" reads "Invalid email format", an empty one "Email is required", a blank name "Name is required" |
| `CheckoutForm.ChooseView` | frontend/src/pages/CartPage.jsx:43-148 | the receipt view is shown exactly when there is a receipt; without one, an empty cart shows its message and a non-empty cart shows the form, each as an if-and-only-if; frontend/src/components/CheckoutModal.jsx:49-113 makes the same choice |
| `CartPage.CartPageState.constructor` | frontend/src/pages/CartPage.jsx:11-14 | the form starts empty, not loading, with no errors and no receipt |
| `CartPage.CartPageState.HandleSubmit` | frontend/src/pages/CartPage.jsx:25-41 | with errors, they are stored and onCheckout is not called. Otherwise onCheckout gets the form. If it resolves, the receipt is set and the form and errors reset. loading is false at the end of every call that got past validation |
| `CheckoutModal.ValidateForm` | frontend/src/components/CheckoutModal.jsx:17-24 | the cart page's rule with the format message "Invalid email", which also overwrites "Email is required" |
| `CheckoutModal.CheckoutModalState.constructor` | frontend/src/components/CheckoutModal.jsx:13-15 | the form starts empty, not loading, with no errors |
| `CheckoutModal.CheckoutModalState.HandleSubmit` | frontend/src/components/CheckoutModal.jsx:26-41 | with errors, they are stored and the call returns without onCheckout; otherwise the form is submitted, reset with the errors when the call resolves, and loading is false at the end either way |

## Left out

- HTTP and Express wiring, status codes and JSON bodies. Each failure is a
  `Result` value instead. The text of the schema's validation errors (the 500
  bodies) is not modelled; it is just `ValidationFailed`.
- The database connection and its failures (the 500 on a thrown query).
  Persistence is the in-memory `carts` map and `orders` sequence.
- GET /products (backend/routes/api.js:9-16) only returns the catalog. The
  model keeps the catalog as a read-only map by id, so the insertion order of
  the listing is not modelled.
- Product seeding at start-up (backend/server.js). It is bootstrap I/O; the
  catalog is a constructor parameter.
- Floating-point prices and `parseFloat(total.toFixed(2))`. Prices are whole
  cents, which makes that rounding the identity.
- `parseInt` coercion of `qty`. It is an `int`. The PUT handler compares the
  raw `qty` with 0 before `parseInt`; for integers the two agree.
- Malformed product ids, which make `findById` throw a cast error (a 500).
  At checkout, the submitted lines' `productId` is cast to an ObjectId by the
  order schema (backend/models/Order.js:14-22), so a malformed id makes
  `order.save()` fail with a 500 and no order is made. The model treats
  product ids as opaque strings, so `ApiRules.PlaceOrder` accepts such lines.
- Product ids are taken in canonical (lower-case hex) form. `findById`
  (backend/routes/api.js:42) also accepts an id in upper case, but the line
  search at api.js:54-56 compares against the lower-case form. So in the
  source, adding a held product under its upper-case id pushes a second line
  with the same product id. The model looks up the catalog and the lines by
  the same exact string, so it keeps one line per product, which the source
  does not guarantee for non-canonical ids.
- Timestamps (`updatedAt`, `createdAt`, the receipt's `timestamp`) and
  generated object ids. An order's id is its position in the order list.
- Concurrency. Read-modify-write races on one cart key are not modelled; the
  handlers run one at a time.
- `CartModel.ValidProduct` does not state that the product name is stored
  trimmed. Nothing in the core depends on it.
- `Text.Trim` strips ASCII white space, no-break space and the byte-order
  mark. Other Unicode space separators and the line terminators U+2028 and
  U+2029, which JavaScript's `trim` also strips, are not modelled.
- `Text.ToLower` folds ASCII letters only; Unicode case folding is not
  modelled.
- `ProductPage.FilteredProducts` assumes every product has a description. In
  the source, a product without one makes the filter throw whenever its name
  does not match.
- React rendering, hooks plumbing, toasts, axios calls, and the cart-key
  generation in frontend/src/App.jsx.
- `CartPage.CartPageState.HandleSubmit` and
  `CheckoutModal.CheckoutModalState.HandleSubmit` do not show the `loading ==
  true` state while the call is awaited. The model has no interleaving, so
  that state cannot be observed.
- The display components frontend/src/components/ProductGrid.jsx and
  frontend/src/components/CartItem.jsx are not part of this model.
