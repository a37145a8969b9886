/**
 * The product listing screen (src/components/Products.js): the duplicate
 * guard, the cart-update protocol, the cart fetch, the search result handling,
 * the search debounce and the start-up join, over a logical clock and with
 * every HTTP response given as an input.
 */
module Products {
  import opened Web
  import opened Cart

  // ----- Duplicate guard -----

  /** The line `line` is the one `ele._id === productId` picks: it has a product with that id. */
  predicate Matches(line: CartItem, productId: string) {
    line.product.Some? && line.product.value.id == productId
  }

  /**
   * `isItemInCart(items, productId)`: `items.find(ele => ele._id === productId)`,
   * the first line whose product has the id, or `undefined` (None). An orphan
   * line has no `_id`, so it never matches.
   */
  function IsItemInCart(items: seq<CartItem>, productId: string): (r: Option<CartItem>)
    ensures r.Some? <==> exists i :: 0 <= i < |items| && Matches(items[i], productId)
    ensures r.Some? ==> Matches(r.value, productId)
    ensures r.Some? ==> exists k :: 0 <= k < |items| && items[k] == r.value &&
                                    forall j :: 0 <= j < k ==> !Matches(items[j], productId)
  {
    if items == [] then None
    else if Matches(items[0], productId) then Some(items[0])
    else
      var r := IsItemInCart(items[1..], productId);
      assert forall i :: 0 < i < |items| ==> items[i] == items[1..][i - 1];
      r
  }

  /** In a joined cart, a product is "in the cart" exactly when some entry names it and the catalogue lists it. */
  lemma InCartAfterJoin(cart: seq<CartEntry>, products: seq<Product>, productId: string)
    ensures var lines := GenerateCartItemsFrom(Defined(cart), products).value;
            IsItemInCart(lines, productId).Some? <==>
              Listed(products, productId) && exists i :: 0 <= i < |cart| && cart[i].productId == productId
  {
    var lines := GenerateCartItemsFrom(Defined(cart), products).value;
    if i :| 0 <= i < |cart| && cart[i].productId == productId && Listed(products, productId) {
      assert Matches(lines[i], productId);
    }
    if k :| 0 <= k < |lines| && Matches(lines[k], productId) {
      assert EntryOf(lines[k]) == cart[k];
    }
  }

  // ----- Cart updates -----

  const LoginToAddMessage := "Login to add item to Cart."
  const AlreadyInCartMessage := "Item already in cart. Use the cart sidebar to update quantity or remove item."
  const CartUpdateUnreachableMessage := "Could not fetch products. Check that the backend id is running,reachable and return valid JSON"

  /** The body of `POST /cart`. */
  datatype CartPost = CartPost(productId: string, qty: int)

  /** What one call of `addToCart` does: the request it sends, the cart it leaves, the snackbar it shows. */
  datatype AddResult = AddResult(post: Option<CartPost>, cart: Option<seq<CartItem>>, notice: Option<Notice>)

  /**
   * `addToCart(token, items, products, productId, qty, options)` when the
   * current cart state is `current` and the server answers the POST with
   * `reply`. The guards run before any request: no token, then (only when
   * `preventDuplicate` is set) the item already among `items`. `items`
   * `undefined` makes that guard throw, so nothing at all happens.
   */
  function AddToCartSpec(token: Option<string>, items: Option<seq<CartItem>>, products: seq<Product>,
                         productId: string, qty: int, preventDuplicate: bool,
                         current: Option<seq<CartItem>>, reply: Response<seq<CartEntry>>): (r: AddResult)
    ensures !Truthy(token) ==> r == AddResult(None, current, Some(Notice(LoginToAddMessage, Warning)))
    ensures Truthy(token) && preventDuplicate && items.None? ==> r == AddResult(None, current, None)
    ensures Truthy(token) && preventDuplicate && items.Some? && IsItemInCart(items.value, productId).Some? ==>
              r == AddResult(None, current, Some(Notice(AlreadyInCartMessage, Warning)))
    ensures r.post.Some? <==>
              Truthy(token) && (!preventDuplicate || (items.Some? && IsItemInCart(items.value, productId).None?))
    ensures r.post.Some? ==> r.post.value == CartPost(productId, qty)
    ensures r.post.None? ==> r.cart == current
    ensures r.post.Some? && reply.Ok? ==>
              && r.notice == None
              && r.cart.Some? && |r.cart.value| == |reply.data|
              && forall i :: 0 <= i < |reply.data| ==>
                   EntryOf(r.cart.value[i]) == reply.data[i] && r.cart.value[i].product == Find(products, reply.data[i].productId)
    ensures r.post.Some? && reply.Rejected? ==> r.cart == current && r.notice == Some(Notice(reply.message, Error))
    ensures r.post.Some? && reply.NoResponse? ==> r.cart == current && r.notice == Some(Notice(CartUpdateUnreachableMessage, Error))
  {
    if !Truthy(token) then AddResult(None, current, Some(Notice(LoginToAddMessage, Warning)))
    else if preventDuplicate && items.None? then AddResult(None, current, None)
    else if preventDuplicate && IsItemInCart(items.value, productId).Some? then
      AddResult(None, current, Some(Notice(AlreadyInCartMessage, Warning)))
    else
      var post := Some(CartPost(productId, qty));
      match reply
      case Ok(data) => AddResult(post, GenerateCartItemsFrom(Defined(data), products), None)
      case Rejected(_, message) => AddResult(post, current, Some(Notice(message, Error)))
      case NoResponse => AddResult(post, current, Some(Notice(CartUpdateUnreachableMessage, Error)))
  }

  /** A successful update replaces the cart wholesale: what the cart held before plays no part. */
  lemma UpdateReplacesWholesale(token: Option<string>, items: Option<seq<CartItem>>, products: seq<Product>,
                                productId: string, qty: int, preventDuplicate: bool,
                                current1: Option<seq<CartItem>>, current2: Option<seq<CartItem>>, data: seq<CartEntry>)
    requires AddToCartSpec(token, items, products, productId, qty, preventDuplicate, current1, Ok(data)).post.Some?
    ensures AddToCartSpec(token, items, products, productId, qty, preventDuplicate, current1, Ok(data)).cart
         == AddToCartSpec(token, items, products, productId, qty, preventDuplicate, current2, Ok(data)).cart
         == GenerateCartItemsFrom(Defined(data), products)
  {
  }

  // ----- Fetching the cart -----

  const CartFetchUnreachableMessage := "Could not fetch cart details. Check that the backend is running, reachable and returns valid JSON."

  /** What one call of `fetchCart` does: its return value, whether it sent `GET /cart`, the snackbar it shows. */
  datatype CartFetch = CartFetch(result: Nullable<seq<CartEntry>>, requested: bool, notice: Option<Notice>)

  /**
   * `fetchCart(token)` when the server answers with `reply`: `undefined` and no
   * request without a token, the server's cart on success, `null` on any
   * failure; only a 400 shows the server's message.
   */
  function FetchCart(token: Option<string>, reply: Response<seq<CartEntry>>): (f: CartFetch)
    ensures !Truthy(token) ==> f == CartFetch(Undefined, false, None)
    ensures Truthy(token) ==> f.requested
    ensures Truthy(token) && reply.Ok? ==> f.result == Defined(reply.data) && f.notice == None
    ensures Truthy(token) && !reply.Ok? ==> f.result == Null && f.notice.Some? && f.notice.value.severity == Error
    ensures Truthy(token) && reply.Rejected? && reply.status == 400 ==> f.notice == Some(Notice(reply.message, Error))
    ensures Truthy(token) && !reply.Ok? && !(reply.Rejected? && reply.status == 400) ==>
              f.notice == Some(Notice(CartFetchUnreachableMessage, Error))
  {
    if !Truthy(token) then CartFetch(Undefined, false, None)
    else
      match reply
      case Ok(data) => CartFetch(Defined(data), true, None)
      case Rejected(status, message) =>
        CartFetch(Null, true, Some(Notice(if status == 400 then message else CartFetchUnreachableMessage, Error)))
      case NoResponse => CartFetch(Null, true, Some(Notice(CartFetchUnreachableMessage, Error)))
  }

  /** A cart that was not fetched, or whose fetch failed, joins to `undefined` whatever the catalogue. */
  lemma UnfetchedCartJoinsToNothing(token: Option<string>, reply: Response<seq<CartEntry>>, products: seq<Product>)
    ensures GenerateCartItemsFrom(FetchCart(token, reply).result, products).None? <==> !(Truthy(token) && reply.Ok?)
  {
  }

  // ----- Search -----

  const NoProductsFoundMessage := "No products Found"

  /** The visible list after a search and the snackbar it shows. */
  datatype SearchResult = SearchResult(visible: seq<Product>, notice: Option<Notice>)

  /**
   * `performSearch(text)` when the list on screen is `visible` and the server
   * answers with `reply`. Without a response the error handler itself throws
   * on `e.response.status`, so nothing changes and nothing is shown.
   */
  function SearchOutcome(visible: seq<Product>, reply: Response<seq<Product>>): (r: SearchResult)
    ensures reply.Ok? ==> r == SearchResult(reply.data, None)
    ensures reply.Rejected? && reply.status == 404 ==> r == SearchResult([], Some(Notice(NoProductsFoundMessage, Warning)))
    ensures reply.Rejected? && reply.status != 404 ==> r == SearchResult(visible, Some(Notice(reply.message, Error)))
    ensures reply.NoResponse? ==> r == SearchResult(visible, None)
  {
    match reply
    case Ok(data) => SearchResult(data, None)
    case Rejected(status, message) =>
      if status == 404 then SearchResult([], Some(Notice(NoProductsFoundMessage, Warning)))
      else SearchResult(visible, Some(Notice(message, Error)))
    case NoResponse => SearchResult(visible, None)
  }

  /** A search that found something shows exactly what it found, whatever an earlier search (a 404 one, say) left. */
  lemma SearchAfterNotFound(visible: seq<Product>, status: int, message: string, found: seq<Product>)
    ensures SearchOutcome(SearchOutcome(visible, Rejected(404, message)).visible, Ok(found)).visible == found
    ensures SearchOutcome(visible, Rejected(404, message)).visible == []
  {
  }

  // ----- Debounce -----

  const DebounceDelay := 500

  /** The one pending `setTimeout`: when it fires and the value it searches for. */
  datatype Timer = Timer(deadline: int, value: string)

  /** A keystroke in the search box: the time it happened and the box's value after it. */
  datatype Keystroke = Keystroke(at: int, value: string)

  /** A search sent to the server: when and for what. */
  datatype Search = Search(at: int, value: string)

  /** The pending timer, if any, has reached its deadline by time `t`. */
  predicate Due(slot: Option<Timer>, t: int) {
    slot.Some? && slot.value.deadline <= t
  }

  /** The timer `debounceSearch` arms at time `t` once it has cleared the previous one. */
  function Rearm(t: int, value: string): Timer {
    Timer(t + DebounceDelay, value)
  }

  /** The search the pending timer sends once the clock reaches `t` (it fires before a keystroke at `t`). */
  function Release(slot: Option<Timer>, t: int): seq<Search> {
    if Due(slot, t) then [Search(slot.value.deadline, slot.value.value)] else []
  }

  /**
   * The searches sent when `keys` are typed in order, starting with `slot`
   * pending, and the clock then runs on to `until`.
   */
  function Fired(slot: Option<Timer>, keys: seq<Keystroke>, until: int): (r: seq<Search>)
    ensures |r| <= |keys| + (if slot.Some? then 1 else 0)
    decreases |keys|
  {
    if keys == [] then Release(slot, until)
    else Release(slot, keys[0].at) + Fired(Some(Rearm(keys[0].at, keys[0].value)), keys[1..], until)
  }

  /** Each keystroke comes less than the debounce delay after the one before it. */
  predicate Burst(keys: seq<Keystroke>) {
    forall i :: 0 < i < |keys| ==> keys[i - 1].at <= keys[i].at < keys[i - 1].at + DebounceDelay
  }

  /**
   * A burst of typing sends nothing until it has been quiet for the delay, and
   * then exactly one search, for the last value typed, at the last keystroke's
   * time plus the delay.
   */
  lemma {:induction false} BurstSendsOneSearch(slot: Option<Timer>, keys: seq<Keystroke>, until: int)
    requires keys != [] && Burst(keys) && !Due(slot, keys[0].at)
    ensures var last := keys[|keys| - 1];
            Fired(slot, keys, until) ==
              if last.at + DebounceDelay <= until then [Search(last.at + DebounceDelay, last.value)] else []
    decreases |keys|
  {
    var next := Some(Rearm(keys[0].at, keys[0].value));
    if |keys| > 1 {
      assert keys[1..][0] == keys[1];
      assert Burst(keys[1..]) by {
        forall i | 0 < i < |keys[1..]|
          ensures keys[1..][i - 1].at <= keys[1..][i].at < keys[1..][i - 1].at + DebounceDelay
        {
          assert keys[1..][i - 1] == keys[i] && keys[1..][i] == keys[i + 1];
        }
      }
      BurstSendsOneSearch(next, keys[1..], until);
    }
  }

  /** Every search sent is for a value that was typed, and it goes out the delay after that keystroke. */
  lemma {:induction false} SearchesAreForTypedValues(keys: seq<Keystroke>, until: int)
    ensures forall s :: s in Fired(None, keys, until) ==>
              exists i :: 0 <= i < |keys| && s == Search(keys[i].at + DebounceDelay, keys[i].value)
  {
    TypedValues(None, keys, until);
  }

  lemma {:induction false} TypedValues(slot: Option<Timer>, keys: seq<Keystroke>, until: int)
    ensures forall s :: s in Fired(slot, keys, until) ==>
              (slot.Some? && s == Search(slot.value.deadline, slot.value.value)) ||
              exists i :: 0 <= i < |keys| && s == Search(keys[i].at + DebounceDelay, keys[i].value)
    decreases |keys|
  {
    if keys != [] {
      var next := Some(Rearm(keys[0].at, keys[0].value));
      TypedValues(next, keys[1..], until);
      forall s | s in Fired(slot, keys, until)
        ensures (slot.Some? && s == Search(slot.value.deadline, slot.value.value)) ||
                exists i :: 0 <= i < |keys| && s == Search(keys[i].at + DebounceDelay, keys[i].value)
      {
        if s !in Release(slot, keys[0].at) {
          assert s in Fired(next, keys[1..], until);
          if s == Search(keys[0].at + DebounceDelay, keys[0].value) {
          } else {
            var i :| 0 <= i < |keys[1..]| && s == Search(keys[1..][i].at + DebounceDelay, keys[1..][i].value);
            assert keys[1..][i] == keys[i + 1];
          }
        }
      }
    }
  }

  /** Keystrokes at 0, 100, 200 and 600 ms send one search, at 1100 ms, for the value typed at 600 ms. */
  lemma DebounceExample()
    ensures Fired(None, [Keystroke(0, "p"), Keystroke(100, "ph"), Keystroke(200, "pho"), Keystroke(600, "phon")], 2000)
         == [Search(1100, "phon")]
  {
    var keys := [Keystroke(0, "p"), Keystroke(100, "ph"), Keystroke(200, "pho"), Keystroke(600, "phon")];
    BurstSendsOneSearch(None, keys, 2000);
  }

  // ----- The screen's state -----

  /**
   * The state of the `Products` component: `productList`, `searchedProduct`
   * (`searched`), `initialCart` (`cart`, None when it holds `undefined`) and
   * `timer` (`pendingTimer`), on a logical clock `now`.
   */
  class Storefront {
    var productList: seq<Product>
    var searched: seq<Product>
    var cart: Option<seq<CartItem>>
    var now: int
    var pendingTimer: Option<Timer>

    /** A pending timer has not yet reached its deadline: a due timer fires as the clock gets there. */
    ghost predicate Valid()
      reads this
    {
      !Due(pendingTimer, now)
    }

    constructor ()
      ensures Valid()
      ensures productList == [] && searched == [] && cart == Some([]) && now == 0 && pendingTimer == None
    {
      productList, searched, cart := [], [], Some([]);
      now, pendingTimer := 0, None;
    }

    /** `addToCart(token, items, products, productId, qty, { preventDuplicate })`, the server answering the POST with `reply`. */
    method AddToCart(token: Option<string>, items: Option<seq<CartItem>>, products: seq<Product>,
                     productId: string, qty: int, preventDuplicate: bool, reply: Response<seq<CartEntry>>)
      returns (post: Option<CartPost>, notice: Option<Notice>)
      modifies this`cart
      ensures var r := AddToCartSpec(token, items, products, productId, qty, preventDuplicate, old(cart), reply);
              post == r.post && cart == r.cart && notice == r.notice
    {
      post, notice := None, None;
      if !Truthy(token) {
        notice := Some(Notice(LoginToAddMessage, Warning));
        return;
      }
      if preventDuplicate {
        if items.None? {
          // `undefined.find` throws before any request is made
          return;
        }
        if IsItemInCart(items.value, productId).Some? {
          notice := Some(Notice(AlreadyInCartMessage, Warning));
          return;
        }
      }
      post := Some(CartPost(productId, qty));
      match reply {
        case Ok(data) =>
          cart := GenerateCartItemsFrom(Defined(data), products);
        case Rejected(_, message) =>
          notice := Some(Notice(message, Error));
        case NoResponse =>
          notice := Some(Notice(CartUpdateUnreachableMessage, Error));
      }
    }

    /** A product card's "add to cart": one of the product, refused when it is already in the cart. */
    method AddFromCard(token: Option<string>, productId: string, reply: Response<seq<CartEntry>>)
      returns (post: Option<CartPost>, notice: Option<Notice>)
      modifies this`cart
      ensures var r := AddToCartSpec(token, old(cart), productList, productId, 1, true, old(cart), reply);
              post == r.post && cart == r.cart && notice == r.notice
    {
      post, notice := AddToCart(token, cart, productList, productId, 1, true, reply);
    }

    /** The cart panel's "+" on `line`: ask for one more, with no duplicate check. */
    method IncreaseQuantity(token: Option<string>, line: CartItem, reply: Response<seq<CartEntry>>)
      returns (post: Option<CartPost>, notice: Option<Notice>)
      modifies this`cart
      ensures var r := AddToCartSpec(token, old(cart), productList, line.productId, line.qty + 1, false, old(cart), reply);
              post == r.post && cart == r.cart && notice == r.notice
      ensures Truthy(token) ==> post == Some(CartPost(line.productId, line.qty + 1))
    {
      post, notice := AddToCart(token, cart, productList, line.productId, line.qty + 1, false, reply);
    }

    /** The cart panel's "−" on `line`: ask for one fewer; a quantity of 0 is sent like any other. */
    method DecreaseQuantity(token: Option<string>, line: CartItem, reply: Response<seq<CartEntry>>)
      returns (post: Option<CartPost>, notice: Option<Notice>)
      modifies this`cart
      ensures var r := AddToCartSpec(token, old(cart), productList, line.productId, line.qty - 1, false, old(cart), reply);
              post == r.post && cart == r.cart && notice == r.notice
      ensures Truthy(token) ==> post == Some(CartPost(line.productId, line.qty - 1))
    {
      post, notice := AddToCart(token, cart, productList, line.productId, line.qty - 1, false, reply);
    }

    /** `performSearch(text)`, the server answering with `reply`. */
    method PerformSearch(text: string, reply: Response<seq<Product>>) returns (notice: Option<Notice>)
      modifies this`searched
      ensures SearchResult(searched, notice) == SearchOutcome(old(searched), reply)
    {
      notice := None;
      match reply {
        case Ok(data) =>
          searched := data;
        case Rejected(status, message) =>
          if status == 404 {
            searched := [];
            notice := Some(Notice(NoProductsFoundMessage, Warning));
          } else {
            notice := Some(Notice(message, Error));
          }
        case NoResponse =>
      }
    }

    /** `debounceSearch(event, timer)` at the current time: clear the pending timer and arm one for `value`. */
    method DebounceSearch(value: string)
      requires Valid()
      modifies this`pendingTimer
      ensures Valid()
      ensures pendingTimer == Some(Rearm(now, value))
    {
      pendingTimer := Some(Timer(now + DebounceDelay, value));
    }

    /**
     * The clock runs on to `t`; a timer due by then fires its search, which
     * the server answers with `reply`.
     */
    method Advance(t: int, reply: Response<seq<Product>>) returns (sent: seq<Search>, notice: Option<Notice>)
      requires Valid() && now <= t
      modifies this`now, this`pendingTimer, this`searched
      ensures Valid() && now == t
      ensures sent == Release(old(pendingTimer), t)
      ensures sent != [] ==> pendingTimer == None && SearchResult(searched, notice) == SearchOutcome(old(searched), reply)
      ensures sent == [] ==> pendingTimer == old(pendingTimer) && searched == old(searched) && notice == None
    {
      sent, notice := [], None;
      if pendingTimer.Some? && pendingTimer.value.deadline <= t {
        var timer := pendingTimer.value;
        sent := [Search(timer.deadline, timer.value)];
        pendingTimer := None;
        notice := PerformSearch(timer.value, reply);
      }
      now := t;
    }

    /** A keystroke at `k.at`: the clock runs on to it, then `debounceSearch` rearms the timer, just as `Fired` takes `k`. */
    method Type(k: Keystroke, reply: Response<seq<Product>>) returns (sent: seq<Search>, notice: Option<Notice>)
      requires Valid() && now <= k.at
      modifies this`now, this`pendingTimer, this`searched
      ensures Valid() && now == k.at
      ensures sent == Release(old(pendingTimer), k.at)
      ensures pendingTimer == Some(Rearm(k.at, k.value))
      ensures sent != [] ==> SearchResult(searched, notice) == SearchOutcome(old(searched), reply)
      ensures sent == [] ==> searched == old(searched) && notice == None
      ensures forall until :: Fired(old(pendingTimer), [k], until) == sent + Release(pendingTimer, until)
    {
      sent, notice := Advance(k.at, reply);
      DebounceSearch(k.value);
    }

    /**
     * `mergingCartData` on mount: `performAPICall` answered with `catalogue`,
     * then `fetchCart(token)` answered with `cartReply`, then the join. A
     * catalogue request with no response throws inside its error handler and
     * ends the whole sequence; a failed catalogue gives `null` products, and
     * joining a non-empty cart against them throws, leaving the cart as it was.
     */
    method MergeCartData(catalogue: Response<seq<Product>>, token: Option<string>, cartReply: Response<seq<CartEntry>>)
      returns (notices: seq<Notice>, cartRequested: bool)
      modifies this`productList, this`searched, this`cart
      ensures catalogue.NoResponse? ==>
                notices == [] && !cartRequested && unchanged(this)
      ensures catalogue.Ok? ==> productList == searched == catalogue.data
      ensures !catalogue.Ok? ==> productList == old(productList) && searched == old(searched)
      ensures !catalogue.NoResponse? ==>
                var f := FetchCart(token, cartReply);
                && cartRequested == f.requested
                && notices == (if catalogue.Rejected? then [Notice(catalogue.message, Error)] else [])
                              + (if f.notice.Some? then [f.notice.value] else [])
                && (catalogue.Ok? ==> cart == GenerateCartItemsFrom(f.result, catalogue.data))
                && (catalogue.Rejected? ==>
                      cart == if f.result.Defined? && f.result.value != [] then old(cart)
                              else GenerateCartItemsFrom(f.result, []))
    {
      notices, cartRequested := [], false;
      var products: Nullable<seq<Product>>;
      match catalogue {
        case Ok(data) =>
          productList, searched := data, data;
          products := Defined(data);
        case Rejected(_, message) =>
          notices := [Notice(message, Error)];
          products := Null;
        case NoResponse =>
          return;
      }
      var f := FetchCart(token, cartReply);
      cartRequested := f.requested;
      if f.notice.Some? {
        notices := notices + [f.notice.value];
      }
      if products.Defined? {
        cart := GenerateCartItemsFrom(f.result, products.value);
      } else if f.result.Defined? && f.result.value != [] {
        // `null.find` throws: the cart is left as it was
      } else {
        cart := GenerateCartItemsFrom(f.result, []);
      }
    }
  }
}
