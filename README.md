# Q-Kart storefront: cart, search and form validation in Dafny

This project models the client-side logic of the Q-Kart storefront, a React
single-page shop. Four pieces are modelled:

- **The cart join and totals** (`src/components/Cart.js`). The join takes the
  server's cart (a list of `{productId, qty}`) and the product catalogue and
  builds the cart shown on screen. Two sums give the order total and the item
  count.
- **The product screen's state** (`src/components/Products.js`). This covers
  the duplicate guard, the cart-update protocol (`POST /cart`), the cart fetch
  (`GET /cart`), how a search response is handled, the 500 ms search debounce,
  and the join done at start-up.
- **Login validation** (`src/components/Login.js`). Four ordered checks, and
  the gate in front of `POST /auth/login`.
- **Registration validation** (`src/components/Register.js`). The same four
  checks plus the password confirmation, and the gate in front of
  `POST /auth/register`.

Files:

- `web.dfy`: module `Web`. Shared values: `Option`, `Nullable` (JavaScript
  `undefined`/`null`), `Response` (an HTTP answer given as an input), and
  `Notice` (a snackbar). It also defines when a token counts as truthy.
- `cart.dfy`: module `Cart`.
- `products.dfy`: module `Products`. Its class `Storefront` holds the
  component's state fields. These are `productList`, `searched`
  (`searchedProduct`), `cart` (`initialCart`) and `pendingTimer` (`timer`),
  plus a logical clock `now`.
- `login.dfy`: module `Login`.
- `register.dfy`: module `Register`.

Every HTTP response is a parameter: `Ok(data)`, `Rejected(status, message)` or
`NoResponse`. So is the token read from local storage. Each snackbar the code
would show is returned as a `Notice` value.

Behaviour of the code that the model keeps, in places where the code does not
do what one might expect:

- **Orphan lines are kept.** A cart line whose product is not in the catalogue
  stays in the joined cart as the bare `{productId, qty}` entry, because
  spreading `undefined` adds no keys. Such a line has no `cost`, so the order
  total becomes NaN. `Cart.Number` has a `NaN` case to model this.
- **Orphan lines never count as "in the cart".** `isItemInCart` compares `_id`,
  not `productId`, and an orphan line has no `_id`.
- **The duplicate guard can throw.** With `preventDuplicate` set and the cart
  `undefined`, `isItemInCart` throws. No request is sent and no snackbar is
  shown.
- **`fetchCart` shows the server's message only for status 400.** Every other
  failure, 401 included, shows the generic connectivity message and returns
  `null`.
- **A search or catalogue request with no response throws.** The error
  handler reads `e.response.status` or `e.response.data`, which do not exist.
  For a search, nothing changes and nothing is shown. For the catalogue request
  at start-up, the whole start-up sequence stops before the cart is fetched.
- **The start-up join can throw.** If the catalogue request failed, the
  products are `null`, and `productsData.find` throws on a non-empty cart. The
  cart state then keeps its initial `[]`.

## Model

| member | source | states |
|---|---|---|
| `Cart.Find` | src/components/Cart.js:71 | The result is present iff some product has the id. It is then the product at the first such position. |
| `Cart.Line` | src/components/Cart.js:71 | A joined line keeps the entry's `productId` and `qty`. It carries a product iff the catalogue lists that id. That product is then the catalogue's first one with the id, as `find` returns. |
| `Cart.JoinAll` | src/components/Cart.js:69-72 | `cartData.map` gives one line per entry, and line i is the join of entry i. |
| `Cart.GenerateCartItemsFrom` | src/components/Cart.js:66-74 | A falsy cart gives `undefined`. Otherwise there is one line per entry, in order. Line i keeps entry i's `productId` and `qty` and carries the first product with that id. An entry with no product becomes the bare entry (the orphan is kept). |
| `Cart.JoinAppend` | src/components/Cart.js:69-72 | The join works entry by entry. Joining two carts laid end to end gives the two joins end to end. |
| `Cart.ReduceValue` | src/components/Cart.js:90 | The left fold of `acc + qty*cost` is the start value plus Σ qty×cost when every line has a product. It is NaN otherwise. |
| `Cart.TotalCartValue` | src/components/Cart.js:88-94 | `undefined`/omitted gives 0. An array gives Σ qty×cost over all its lines. The result is NaN exactly when some line is an orphan. |
| `Cart.ReduceQty` | src/components/Cart.js:109 | The left fold of `acc + qty` is the start value plus Σ qty. |
| `Cart.TotalItems` | src/components/Cart.js:108-111 | An omitted list gives 0. An array gives Σ qty over every line. |
| `Cart.JoinedTotalItems` | src/components/Cart.js:66-111 | The item count of a joined cart is the server cart's Σ qty, whatever the catalogue holds. |
| `Cart.JoinedTotalValue` | src/components/Cart.js:66-94 | The value of a joined cart is Σ qty × cost of each entry's first matching product when all are listed. It is NaN as soon as one entry is not. |
| `Cart.Drawn` | src/components/Cart.js:205-207 | The panel draws exactly the lines with qty > 0. Each is drawn as many times as it occurs in the cart. |
| `Cart.Hidden` | src/components/Cart.js:205-251 | The lines with qty ≤ 0 keep a slot but draw nothing. These are exactly those lines, each as many times as it occurs. |
| `Cart.DrawnAndHiddenPartition` | src/components/Cart.js:205-251 | The drawn lines and the hidden lines together are the cart's lines, as a multiset. |
| `Cart.DrawnAppend` | src/components/Cart.js:205-207 | Rows are drawn in the cart's order: the rows for two carts laid end to end are the first cart's rows, then the second's. |
| `Cart.TotalItemsCountsHiddenLines` | src/components/Cart.js:205-285 | The item count is the drawn lines' count plus the hidden lines'. The hidden part is ≤ 0, so the totals sum every line. |
| `Cart.EmptyCartHasZeroTotals` | src/components/Cart.js:179-199 | When the panel shows the empty state, both totals are 0. |
| `Cart.TotalsExample` | src/components/Cart.js:66-111 | Two of a product costing 100 make a total of 200 and 2 items. |
| `Products.IsItemInCart` | src/components/Products.js:265-276 | The result is truthy iff some line's `_id` equals the id. It is then the first such line. An orphan never matches. |
| `Products.InCartAfterJoin` | src/components/Products.js:265-276 | In a joined cart, a product is found iff some entry names it and the catalogue lists it. |
| `Products.AddToCartSpec` | src/components/Products.js:314-364 | No token: a "Login to add item to Cart." warning, no POST, cart unchanged. `preventDuplicate` with the cart `undefined`: the guard throws, so there is no POST, no snackbar and the cart is unchanged. `preventDuplicate` with the item present: the "already in cart" warning, no POST, cart unchanged. Without `preventDuplicate` the duplicate check is skipped. Otherwise the POST is exactly `{productId, qty}`. On success the cart becomes the join of the reply. On failure the cart is unchanged and the server's or the generic message is shown. |
| `Products.UpdateReplacesWholesale` | src/components/Products.js:347-349 | After a successful POST the new cart does not depend on the old one at all. |
| `Products.FetchCart` | src/components/Products.js:223-249 | Without a token: `undefined` and no request. On success: the server's cart. On any failure: `null` with an error snackbar, the server's message for 400 and the generic one otherwise. |
| `Products.UnfetchedCartJoinsToNothing` | src/components/Products.js:103-108 | The start-up join gives `undefined` exactly when no token was present or the cart fetch failed. |
| `Products.SearchOutcome` | src/components/Products.js:128-145 | Success replaces the visible list. A 404 empties it and warns "No products Found". Another error status keeps it and shows the server's message. No response changes nothing. |
| `Products.SearchAfterNotFound` | src/components/Products.js:128-145 | A 404 leaves `[]`. A later successful search shows exactly what it found. |
| `Products.BurstSendsOneSearch` | src/components/Products.js:159-168 | Take keystrokes each less than 500 ms apart. Nothing is sent until 500 ms after the last one. Then exactly one search is sent, for the last value typed. |
| `Products.Fired` | src/components/Products.js:159-168 | The number of searches sent is at most the number of keystrokes, plus one for a timer already pending. |
| `Products.SearchesAreForTypedValues` | src/components/Products.js:159-168 | Every search sent is for a value that was typed, and goes out 500 ms after that keystroke. |
| `Products.DebounceExample` | src/components/Products.js:159-168 | Keystrokes at 0, 100, 200 and 600 ms send a single search, at 1100 ms, for the value typed at 600 ms. |
| `Products.Storefront.constructor` | src/components/Products.js:41-47 | Catalogue and visible list empty, cart `[]`, no timer pending. |
| `Products.Storefront.AddToCart` | src/components/Products.js:314-364 | The request, the new cart and the snackbar are those `AddToCartSpec` gives for the old cart. |
| `Products.Storefront.AddFromCard` | src/components/Products.js:179-182 | A product card asks for quantity 1 with `preventDuplicate` on, against the current cart and catalogue. |
| `Products.Storefront.IncreaseQuantity` | src/components/Cart.js:236-238 | "+" sends qty+1 for the line's product, with no duplicate check. |
| `Products.Storefront.DecreaseQuantity` | src/components/Cart.js:239-241 | "−" sends qty−1, 0 included, with no duplicate check. |
| `Products.Storefront.PerformSearch` | src/components/Products.js:128-145 | The visible list and snackbar become those `SearchOutcome` gives for the old list. |
| `Products.Storefront.DebounceSearch` | src/components/Products.js:159-168 | The pending timer is replaced by one for now + 500 carrying the typed value. |
| `Products.Storefront.Advance` | src/components/Products.js:164-166 | As the clock reaches a pending timer's deadline, that one search fires and its result is applied. Otherwise nothing changes. |
| `Products.Storefront.Type` | src/components/Products.js:386-389 | One keystroke does exactly what `Fired` does with one keystroke: release the due search, then rearm. If a search went out, the visible list and the snackbar are those `SearchOutcome` gives for the old list. If none went out, the list is unchanged and no snackbar is shown. |
| `Products.Storefront.MergeCartData` | src/components/Products.js:88-110 | A successful catalogue fills both lists, and the cart becomes the join of the fetched cart. A failed catalogue shows its message, and the join runs against `null` products. A catalogue request with no response stops everything. |
| `Login.FirstFailure` | src/components/Login.js:102-118 | Valid iff every check passes. Otherwise the message is that of the first failing check. |
| `Login.FirstFailureAppend` | src/components/Register.js:90-103 | Checks run one list after another: the first list decides unless it passes entirely. |
| `Login.LoginChecks` | src/components/Login.js:102-118 | There are four checks, and all of them pass iff both lengths are at least 6. A failing length check carries its "at least 6 characters" message. |
| `Login.ValidateInput` | src/components/Login.js:102-118 | Valid iff username and password both have length at least 6, with no trimming. Otherwise the result is the message of the first failing check of the four, in order. |
| `Login.LoginPage.constructor` | src/components/Login.js:43 | The form starts out unsubmitted. |
| `Login.LoginPage.Login` | src/components/Login.js:46-54 | A request is sent iff validation passes, and it holds the username and password. The form is then submitted. On failure there is no request, `formStatus` is unchanged and the one message is shown. |
| `Register.RegisterChecks` | src/components/Register.js:90-103 | The registration checks are the login checks followed by the password confirmation. |
| `Register.ValidateInput` | src/components/Register.js:90-110 | Valid iff both lengths are at least 6 and the password equals the confirmation. Otherwise the result is the first failing check's message. "Passwords do not match" comes only after the other four pass. |
| `Register.ExtendsLoginValidation` | src/components/Register.js:90-103 | A login failure is reported by registration word for word. When login passes, registration fails only on a mismatched confirmation. |
| `Register.AcceptedByLogin` | src/components/Register.js:90-103 | Whatever registration accepts, login accepts. |
| `Register.RegisterPage.constructor` | src/components/Register.js:42 | The form starts out unsubmitted. |
| `Register.RegisterPage.Register` | src/components/Register.js:44-51 | A request is sent iff validation passes. It holds only the username and password, never the confirmation. On failure `formStatus` is unchanged and the one message is shown. |

## Left out

- HTTP transport, `localStorage`, routing and snackbars are not modelled as
  code. Responses and the token are parameters, and notices are returned
  values.
- Asynchrony is left out: out-of-order completion of overlapping requests, and
  real `setTimeout`. A request's answer is applied as soon as it is sent, and
  the debounce runs on a discrete logical clock with one pending slot.
- Timers and keystrokes at the same instant: the model fires the due timer
  before handling the keystroke. JavaScript's event loop gives no such
  guarantee.
- The asynchronous tail of `login` and `register` is left out: the success
  snackbar, `persistLogin`, the `formStatus` reset and the error snackbars.
  Only the validation gate and the request body are modelled.
- Rendering is left out: JSX, MUI layout, the `newProducts` grid, the
  `isLoading` spinner flag and the `textInput` field. So are
  `src/components/Header.js` and `src/components/ProductCard.js`; the card's
  button never calls its handler.
- Cart.TotalCartValue: costs and quantities are integers, not floating-point
  numbers. NaN is kept, but rounding is not modelled.
- Cart.TotalItems: the argument is either `undefined` or an array.
  `getTotalItems(null)` would throw, but the cart state never holds `null`.
- Products.Storefront.IncreaseQuantity: the panel passes the single line
  object as `items`, not an array. The model passes the cart instead. With
  `preventDuplicate` off, `items` is never read.
- The `response` state that `addToCart` sets to the POST's reply
  (`setResponse`) is left out. It is written but never read.
- Products.Storefront.AddToCart: the stale `return initialCart` value is not
  modelled; no caller uses it.
- Products.Storefront.PerformSearch: the discarded `newProducts(searchedProduct)`
  call in the 404 branch has no effect and is left out.
- Products.Storefront.MergeCartData: `setIsLoading(false)` is left out, and so
  is the unhandled promise rejection when the sequence stops.
- Error responses always carry a `message` string. A missing message would
  show `undefined`; that case is not modelled.
- String lengths count Dafny characters, where JavaScript counts UTF-16 code
  units.
- URL encoding of the search query is not modelled.
