/**
 * The cart panel's pure logic (src/components/Cart.js): joining the server's
 * cart with the product catalogue, the two totals, and which lines the panel
 * draws.
 */
module Cart {
  import opened Web

  /** A product of the catalogue; `id` is its `_id`. Costs are whole numbers here. */
  datatype Product = Product(name: string, category: string, cost: int, rating: int, image: string, id: string)

  /** One entry of the cart as the server stores it. */
  datatype CartEntry = CartEntry(productId: string, qty: int)

  /**
   * A line of the joined cart, the object `{ ...entry, ...product }`. A product
   * has no `productId` or `qty` key and an entry has none of a product's keys,
   * so the line is the entry's two keys plus, when a product matched, every key
   * of that product. An orphan line (no product matched) is the bare entry.
   */
  datatype CartItem = CartItem(productId: string, qty: int, product: Option<Product>)

  /** The cart entry a line was built from. */
  function EntryOf(line: CartItem): CartEntry {
    CartEntry(line.productId, line.qty)
  }

  predicate Listed(products: seq<Product>, id: string) {
    exists i :: 0 <= i < |products| && products[i].id == id
  }

  /** The position of the first product whose `_id` is `id`, or |products| when there is none. */
  function FirstIndex(products: seq<Product>, id: string): (k: nat)
    ensures k <= |products|
    ensures k < |products| ==> products[k].id == id
    ensures forall j :: 0 <= j < k ==> products[j].id != id
  {
    if products == [] then 0
    else if products[0].id == id then 0
    else 1 + FirstIndex(products[1..], id)
  }

  /** `productsData.find((product) => id === product._id)`: the first product with that id. */
  function Find(products: seq<Product>, id: string): (r: Option<Product>)
    ensures r.Some? <==> Listed(products, id)
    ensures r.Some? ==> r.value.id == id
    ensures r.Some? ==> exists k :: 0 <= k < |products| && products[k] == r.value &&
                                    forall j :: 0 <= j < k ==> products[j].id != id
  {
    var k := FirstIndex(products, id);
    if k < |products| then Some(products[k]) else None
  }

  /** The line `{ ...entry, ...find(entry.productId) }`. */
  function Line(entry: CartEntry, products: seq<Product>): (line: CartItem)
    ensures EntryOf(line) == entry
    ensures line.product.Some? <==> Listed(products, entry.productId)
    ensures line.product.Some? ==> line.product.value.id == entry.productId
    ensures line.product.Some? ==> exists k :: 0 <= k < |products| && products[k] == line.product.value &&
                                             forall j :: 0 <= j < k ==> products[j].id != entry.productId
  {
    CartItem(entry.productId, entry.qty, Find(products, entry.productId))
  }

  /** `cartData.map(...)`: one line per entry, in the cart's order. */
  function JoinAll(cart: seq<CartEntry>, products: seq<Product>): (lines: seq<CartItem>)
    ensures |lines| == |cart|
    ensures forall i :: 0 <= i < |cart| ==> lines[i] == Line(cart[i], products)
  {
    if cart == [] then [] else [Line(cart[0], products)] + JoinAll(cart[1..], products)
  }

  /**
   * `generateCartItemsFrom(cartData, productsData)`. A falsy cart (`undefined` or
   * `null`) gives `undefined`, modelled as None; any array, the empty one
   * included, gives one line per entry.
   */
  function GenerateCartItemsFrom(cartData: Nullable<seq<CartEntry>>, products: seq<Product>): (r: Option<seq<CartItem>>)
    ensures r.None? <==> !cartData.Defined?
    ensures r.Some? ==> |r.value| == |cartData.value|
    ensures r.Some? ==> forall i :: 0 <= i < |r.value| ==>
                          && EntryOf(r.value[i]) == cartData.value[i]
                          && (r.value[i].product.Some? <==> Listed(products, cartData.value[i].productId))
                          && r.value[i].product == Find(products, cartData.value[i].productId)
    ensures r.Some? ==> forall i :: 0 <= i < |r.value| && !Listed(products, cartData.value[i].productId) ==>
                          r.value[i] == CartItem(cartData.value[i].productId, cartData.value[i].qty, None)
  {
    if cartData.Defined? then Some(JoinAll(cartData.value, products)) else None
  }

  /** Joining is done line by line, so the join of two carts laid end to end is the two joins laid end to end. */
  lemma {:induction false} JoinAppend(a: seq<CartEntry>, b: seq<CartEntry>, products: seq<Product>)
    ensures JoinAll(a + b, products) == JoinAll(a, products) + JoinAll(b, products)
  {
    if a != [] {
      assert (a + b)[1..] == a[1..] + b;
      JoinAppend(a[1..], b, products);
    }
  }

  // ----- Totals -----

  /** A JavaScript number restricted to the integers, with the NaN an orphan line produces. */
  datatype Number = Num(value: int) | NaN

  function Add(a: Number, b: Number): Number {
    if a.Num? && b.Num? then Num(a.value + b.value) else NaN
  }

  /** `item.qty * item.cost`; an orphan line has no `cost`, so its value is NaN. */
  function LineValue(line: CartItem): Number {
    match line.product
    case Some(p) => Num(line.qty * p.cost)
    case None => NaN
  }

  /** `items.reduce((acc, item) => acc + item.qty * item.cost, acc)`, folded from the left. */
  function ReduceValue(acc: Number, items: seq<CartItem>): (r: Number)
    ensures r == if acc.Num? && AllPriced(items) then Num(acc.value + ValueSum(items)) else NaN
    decreases |items|
  {
    if items == [] then acc
    else
      AllPricedCons(items);
      ReduceValue(Add(acc, LineValue(items[0])), items[1..])
  }

  /** Every line found its product. */
  predicate AllPriced(items: seq<CartItem>) {
    forall i :: 0 <= i < |items| ==> items[i].product.Some?
  }

  /** Σ qty × cost over the lines that found their product. */
  function ValueSum(items: seq<CartItem>): int {
    if items == [] then 0
    else (match items[0].product case Some(p) => items[0].qty * p.cost case None => 0) + ValueSum(items[1..])
  }

  lemma AllPricedCons(items: seq<CartItem>)
    requires items != []
    ensures AllPriced(items) <==> items[0].product.Some? && AllPriced(items[1..])
  {
    if items[0].product.Some? && AllPriced(items[1..]) {
      forall i | 0 <= i < |items| ensures items[i].product.Some? {
        if i > 0 { assert items[i] == items[1..][i - 1]; }
      }
    }
  }

  /**
   * `getTotalCartValue(items = [])`: `undefined` (the default) and `null` give 0;
   * an array gives Σ qty × cost over every line, or NaN when some line is an orphan.
   */
  function TotalCartValue(items: Option<seq<CartItem>>): (r: Number)
    ensures items.None? ==> r == Num(0)
    ensures items.Some? ==> (r.Num? <==> AllPriced(items.value))
    ensures items.Some? && AllPriced(items.value) ==> r == Num(ValueSum(items.value))
  {
    if items.None? then Num(0)
    else ReduceValue(Num(0), items.value)
  }

  /** `items.reduce((acc, ele) => acc + ele.qty, acc)`, folded from the left. */
  function ReduceQty(acc: int, items: seq<CartItem>): (r: int)
    ensures r == acc + QtySum(items)
    decreases |items|
  {
    if items == [] then acc else ReduceQty(acc + items[0].qty, items[1..])
  }

  /** Σ qty over every line. */
  function QtySum(items: seq<CartItem>): int {
    if items == [] then 0 else items[0].qty + QtySum(items[1..])
  }

  /** `getTotalItems(items = [])`: `undefined` gives 0, an array the sum of its quantities. */
  function TotalItems(items: Option<seq<CartItem>>): (r: int)
    ensures items.None? ==> r == 0
    ensures items.Some? ==> r == QtySum(items.value)
  {
    if items.None? then 0
    else ReduceQty(0, items.value)
  }

  /** Σ qty over the server's cart entries. */
  function EntryQtySum(cart: seq<CartEntry>): int {
    if cart == [] then 0 else cart[0].qty + EntryQtySum(cart[1..])
  }

  /** Σ qty × cost over server entries, each priced by the first product of its id (0 for an orphan). */
  function EntryValueSum(cart: seq<CartEntry>, products: seq<Product>): int {
    if cart == [] then 0
    else
      (match Find(products, cart[0].productId) case Some(p) => cart[0].qty * p.cost case None => 0)
      + EntryValueSum(cart[1..], products)
  }

  /** The item count of a joined cart is the server cart's quantity sum, whatever the catalogue holds. */
  lemma {:induction false} JoinedTotalItems(cart: seq<CartEntry>, products: seq<Product>)
    ensures TotalItems(GenerateCartItemsFrom(Defined(cart), products)) == EntryQtySum(cart)
  {
    JoinedQtySum(cart, products);
  }

  lemma {:induction false} JoinedQtySum(cart: seq<CartEntry>, products: seq<Product>)
    ensures QtySum(JoinAll(cart, products)) == EntryQtySum(cart)
  {
    if cart != [] {
      JoinedQtySum(cart[1..], products);
      assert JoinAll(cart, products)[1..] == JoinAll(cart[1..], products);
    }
  }

  /**
   * The value of a joined cart: Σ qty × cost of the matching catalogue product
   * when every entry's product is listed, and NaN as soon as one is not.
   */
  lemma {:induction false} JoinedTotalValue(cart: seq<CartEntry>, products: seq<Product>)
    ensures var v := TotalCartValue(GenerateCartItemsFrom(Defined(cart), products));
            if forall i :: 0 <= i < |cart| ==> Listed(products, cart[i].productId)
            then v == Num(EntryValueSum(cart, products))
            else v == NaN
  {
    JoinedValueSum(cart, products);
  }

  lemma {:induction false} JoinedValueSum(cart: seq<CartEntry>, products: seq<Product>)
    ensures ValueSum(JoinAll(cart, products)) == EntryValueSum(cart, products)
  {
    if cart != [] {
      JoinedValueSum(cart[1..], products);
      assert JoinAll(cart, products)[1..] == JoinAll(cart[1..], products);
    }
  }

  // ----- What the panel draws -----

  /** The panel shows its empty state when `items` (defaulting to `[]`) has no line. */
  predicate ShowsEmptyCart(items: Option<seq<CartItem>>) {
    items.None? || |items.value| == 0
  }

  /** The lines the panel draws a row for (`item.qty > 0`), in order. */
  function Drawn(items: seq<CartItem>): (r: seq<CartItem>)
    ensures forall i :: 0 <= i < |r| ==> r[i].qty > 0 && r[i] in items
    ensures forall i :: 0 <= i < |items| && items[i].qty > 0 ==> items[i] in r
    ensures forall e :: multiset(r)[e] == if e.qty > 0 then multiset(items)[e] else 0
  {
    if items == [] then []
    else
      var rest := Drawn(items[1..]);
      var r := if items[0].qty > 0 then [items[0]] + rest else rest;
      DrawnCons(items, rest);
      DrawnMembers(r, items);
      r
  }

  /** The lines that keep a slot in the panel but draw nothing (`qty <= 0`), in order. */
  function Hidden(items: seq<CartItem>): (r: seq<CartItem>)
    ensures forall i :: 0 <= i < |r| ==> r[i].qty <= 0 && r[i] in items
    ensures forall i :: 0 <= i < |items| && items[i].qty <= 0 ==> items[i] in r
    ensures forall e :: multiset(r)[e] == if e.qty <= 0 then multiset(items)[e] else 0
  {
    if items == [] then []
    else
      var rest := Hidden(items[1..]);
      var r := if items[0].qty <= 0 then [items[0]] + rest else rest;
      HiddenCons(items, rest);
      HiddenMembers(r, items);
      r
  }

  lemma DrawnCons(items: seq<CartItem>, rest: seq<CartItem>)
    requires items != []
    requires forall e :: multiset(rest)[e] == if e.qty > 0 then multiset(items[1..])[e] else 0
    ensures var r := if items[0].qty > 0 then [items[0]] + rest else rest;
            forall e :: multiset(r)[e] == if e.qty > 0 then multiset(items)[e] else 0
  {
    assert items == [items[0]] + items[1..];
  }

  lemma DrawnMembers(r: seq<CartItem>, items: seq<CartItem>)
    requires forall e :: multiset(r)[e] == if e.qty > 0 then multiset(items)[e] else 0
    ensures forall i :: 0 <= i < |r| ==> r[i].qty > 0 && r[i] in items
    ensures forall i :: 0 <= i < |items| && items[i].qty > 0 ==> items[i] in r
  {
    forall i | 0 <= i < |r| ensures r[i].qty > 0 && r[i] in items {
      assert r[i] in multiset(r);
    }
    forall i | 0 <= i < |items| && items[i].qty > 0 ensures items[i] in r {
      assert items[i] in multiset(items);
    }
  }

  lemma HiddenCons(items: seq<CartItem>, rest: seq<CartItem>)
    requires items != []
    requires forall e :: multiset(rest)[e] == if e.qty <= 0 then multiset(items[1..])[e] else 0
    ensures var r := if items[0].qty <= 0 then [items[0]] + rest else rest;
            forall e :: multiset(r)[e] == if e.qty <= 0 then multiset(items)[e] else 0
  {
    assert items == [items[0]] + items[1..];
  }

  lemma HiddenMembers(r: seq<CartItem>, items: seq<CartItem>)
    requires forall e :: multiset(r)[e] == if e.qty <= 0 then multiset(items)[e] else 0
    ensures forall i :: 0 <= i < |r| ==> r[i].qty <= 0 && r[i] in items
    ensures forall i :: 0 <= i < |items| && items[i].qty <= 0 ==> items[i] in r
  {
    forall i | 0 <= i < |r| ensures r[i].qty <= 0 && r[i] in items {
      assert r[i] in multiset(r);
    }
    forall i | 0 <= i < |items| && items[i].qty <= 0 ensures items[i] in r {
      assert items[i] in multiset(items);
    }
  }

  /** Every line is either drawn or hidden, as often as it occurs in the cart. */
  lemma DrawnAndHiddenPartition(items: seq<CartItem>)
    ensures multiset(Drawn(items)) + multiset(Hidden(items)) == multiset(items)
  {
    var d, h := Drawn(items), Hidden(items);
    forall e ensures (multiset(d) + multiset(h))[e] == multiset(items)[e] {
      assert multiset(d)[e] == if e.qty > 0 then multiset(items)[e] else 0;
      assert multiset(h)[e] == if e.qty <= 0 then multiset(items)[e] else 0;
    }
  }

  /** Splitting the head off a concatenation. */
  lemma ConsAppend<T>(a: seq<T>, b: seq<T>)
    requires a != []
    ensures (a + b)[0] == a[0] && (a + b)[1..] == a[1..] + b
  {
  }

  lemma AppendAssoc<T>(a: seq<T>, b: seq<T>, c: seq<T>)
    ensures a + (b + c) == (a + b) + c
  {
  }

  /** Drawing keeps the cart's order: the rows for `a + b` are the rows for `a`, then those for `b`. */
  lemma {:induction false} DrawnAppend(a: seq<CartItem>, b: seq<CartItem>)
    ensures Drawn(a + b) == Drawn(a) + Drawn(b)
  {
    if a == [] {
      assert a + b == b;
    } else {
      ConsAppend(a, b);
      DrawnAppend(a[1..], b);
      if a[0].qty > 0 {
        assert Drawn(a + b) == [a[0]] + Drawn(a[1..] + b);
        assert Drawn(a) == [a[0]] + Drawn(a[1..]);
        AppendAssoc([a[0]], Drawn(a[1..]), Drawn(b));
      } else {
        assert Drawn(a + b) == Drawn(a[1..] + b);
        assert Drawn(a) == Drawn(a[1..]);
      }
    }
  }

  /** The item count covers hidden lines too: it is the drawn lines' count plus the hidden lines' (non-positive) one. */
  lemma {:induction false} TotalItemsCountsHiddenLines(items: seq<CartItem>)
    ensures TotalItems(Some(items)) == QtySum(Drawn(items)) + QtySum(Hidden(items))
    ensures QtySum(Hidden(items)) <= 0
  {
    if items != [] {
      TotalItemsCountsHiddenLines(items[1..]);
    }
  }

  /** The empty state goes with totals of zero. */
  lemma EmptyCartHasZeroTotals(items: Option<seq<CartItem>>)
    requires ShowsEmptyCart(items)
    ensures TotalItems(items) == 0 && TotalCartValue(items) == Num(0)
  {
  }

  /** The worked example: two of a product costing 100 come to 200 and two items. */
  lemma TotalsExample(p: Product)
    requires p.id == "a" && p.cost == 100
    ensures var items := GenerateCartItemsFrom(Defined([CartEntry("a", 2)]), [p]);
            TotalCartValue(items) == Num(200) && TotalItems(items) == 2
  {
    var items := GenerateCartItemsFrom(Defined([CartEntry("a", 2)]), [p]);
    assert items.value[0].product == Some(p);
    assert items.value == [CartItem("a", 2, Some(p))];
    assert items.value[1..] == [];
    assert QtySum(items.value) == 2;
    assert ValueSum(items.value) == 200;
  }
}
