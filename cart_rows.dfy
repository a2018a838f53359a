/** Row-level rules of the cart and checkout views (store/views.py):
    which cart lines a cart holds, how adding a product changes them, and
    how a checkout prices them and snapshots them into order items. Cart
    lines are kept in primary-key order, so `.first()` is the first line of
    the cart in the sequence. */
module CartRows {
  import opened Errors
  import opened StoreModels

  /** Two lines for the same (cart, product) pair. */
  predicate SameLine(x: CartItem, y: CartItem) {
    x.cart == y.cart && x.product == y.product
  }

  /** The unique (cart, product) constraint of the cart-item table. */
  ghost predicate UniqueLines(items: seq<CartItem>) {
    forall i, j :: 0 <= i < j < |items| ==> !SameLine(items[i], items[j])
  }

  /** Every line names an existing product. */
  ghost predicate LinesReferToProducts(items: seq<CartItem>, products: map<ProductId, Product>) {
    forall x :: x in items ==> x.product in products
  }

  /** All lines of one cart come from one store. */
  ghost predicate OneStorePerCart(items: seq<CartItem>, products: map<ProductId, Product>)
    requires LinesReferToProducts(items, products)
  {
    forall x, y :: x in items && y in items && x.cart == y.cart ==>
      products[x.product].store == products[y.product].store
  }

  /** The lines whose cart is (`inCart`) or is not (`!inCart`) `cart`, in order. */
  function Select(items: seq<CartItem>, cart: UserId, inCart: bool): (r: seq<CartItem>)
    ensures forall x :: x in r <==> x in items && (x.cart == cart) == inCart
    ensures |r| <= |items|
  {
    if items == [] then []
    else (if (items[0].cart == cart) == inCart then [items[0]] else []) + Select(items[1..], cart, inCart)
  }

  /** `CartItem.objects.filter(cart=cart)`. */
  function ItemsOf(items: seq<CartItem>, cart: UserId): seq<CartItem> {
    Select(items, cart, true)
  }

  /** The table after `CartItem.objects.filter(cart=cart).delete()`. */
  function WithoutCart(items: seq<CartItem>, cart: UserId): seq<CartItem> {
    Select(items, cart, false)
  }

  /** The position of the line for (cart, product), if there is one. */
  function FindLine(items: seq<CartItem>, cart: UserId, product: ProductId): (r: Option<nat>)
    ensures r.None? ==> forall i :: 0 <= i < |items| ==> !(items[i].cart == cart && items[i].product == product)
    ensures r.Some? ==> r.value < |items| && items[r.value].cart == cart && items[r.value].product == product
  {
    if items == [] then None
    else if items[0].cart == cart && items[0].product == product then Some(0)
    else match FindLine(items[1..], cart, product)
      case None => None
      case Some(i) => Some(i + 1)
  }

  /** The store of the cart's first line (`cart_items.first().product.store`),
      or None when the cart is empty. */
  function FirstStore(items: seq<CartItem>, products: map<ProductId, Product>, cart: UserId): (r: Option<StoreId>)
    requires LinesReferToProducts(items, products)
    ensures r.None? <==> forall x :: x in items ==> x.cart != cart
    ensures r.Some? ==> exists x :: x in items && x.cart == cart && products[x.product].store == r.value
  {
    var existing := ItemsOf(items, cart);
    if |existing| == 0 then None
    else
      assert existing[0] in existing;
      Some(products[existing[0].product].store)
  }

  /** The `get_or_create` step: a new line with the given quantity, or the
      existing line's quantity increased by it. */
  function Upsert(items: seq<CartItem>, cart: UserId, product: ProductId, quantity: int): seq<CartItem> {
    match FindLine(items, cart, product)
    case None => items + [CartItem(cart, product, quantity)]
    case Some(i) => items[i := items[i].(quantity := items[i].quantity + quantity)]
  }

  /** The cart after the first step of `CartItemViewSet.create`: emptied
      when its first line is from another store than `product`. */
  function ClearForStore(items: seq<CartItem>, products: map<ProductId, Product>, cart: UserId, product: ProductId): (r: seq<CartItem>)
    requires LinesReferToProducts(items, products) && product in products
    ensures FirstStore(items, products, cart).Some? && FirstStore(items, products, cart).value != products[product].store ==>
      ItemsOf(r, cart) == []
    ensures !(FirstStore(items, products, cart).Some? && FirstStore(items, products, cart).value != products[product].store) ==>
      r == items
    ensures forall other :: other != cart ==> ItemsOf(r, other) == ItemsOf(items, other)
  {
    WithoutCartIsEmptyForCart(items, cart);
    assert forall other :: other != cart ==> ItemsOf(WithoutCart(items, cart), other) == ItemsOf(items, other) by {
      forall other | other != cart
        ensures ItemsOf(WithoutCart(items, cart), other) == ItemsOf(items, other)
      {
        SelectOfOtherCart(items, cart, other);
      }
    }
    match FirstStore(items, products, cart)
    case Some(s) => if s != products[product].store then WithoutCart(items, cart) else items
    case None => items
  }

  /** The cart-item table after `CartItemViewSet.create` adds `quantity` of `product`. */
  function AddItemRows(items: seq<CartItem>, products: map<ProductId, Product>, cart: UserId, product: ProductId, quantity: int): seq<CartItem>
    requires LinesReferToProducts(items, products) && product in products
  {
    Upsert(ClearForStore(items, products, cart, product), cart, product, quantity)
  }

  // ---- Facts about Select ----

  lemma {:induction false} SelectAppend(s: seq<CartItem>, t: seq<CartItem>, cart: UserId, inCart: bool)
    ensures Select(s + t, cart, inCart) == Select(s, cart, inCart) + Select(t, cart, inCart)
  {
    if s == [] {
      assert s + t == t;
    } else {
      assert (s + t)[1..] == s[1..] + t;
      SelectAppend(s[1..], t, cart, inCart);
    }
  }

  lemma {:induction false} SelectOfOtherCart(s: seq<CartItem>, cart: UserId, other: UserId)
    requires other != cart
    ensures ItemsOf(WithoutCart(s, cart), other) == ItemsOf(s, other)
  {
    if s != [] {
      SelectOfOtherCart(s[1..], cart, other);
      var head := if s[0].cart != cart then [s[0]] else [];
      SelectAppend(head, Select(s[1..], cart, false), other, true);
    }
  }

  lemma {:induction false} SelectIgnoresUpdateInOtherCart(s: seq<CartItem>, i: nat, y: CartItem, other: UserId)
    requires i < |s| && y.cart == s[i].cart && y.cart != other
    ensures ItemsOf(s[i := y], other) == ItemsOf(s, other)
  {
    if i > 0 {
      assert s[i := y][1..] == s[1..][i - 1 := y];
      SelectIgnoresUpdateInOtherCart(s[1..], i - 1, y, other);
    } else {
      assert s[i := y][1..] == s[1..];
    }
  }

  lemma {:induction false} SelectKeepsUniqueLines(s: seq<CartItem>, cart: UserId, inCart: bool)
    requires UniqueLines(s)
    ensures UniqueLines(Select(s, cart, inCart))
  {
    if s != [] {
      var rest := Select(s[1..], cart, inCart);
      assert UniqueLines(s[1..]) by {
        forall i, j | 0 <= i < j < |s[1..]| ensures !SameLine(s[1..][i], s[1..][j]) {
          assert s[1..][i] == s[i + 1] && s[1..][j] == s[j + 1];
        }
      }
      SelectKeepsUniqueLines(s[1..], cart, inCart);
      if (s[0].cart == cart) == inCart {
        var r := [s[0]] + rest;
        forall i, j | 0 <= i < j < |r| ensures !SameLine(r[i], r[j]) {
          if i == 0 {
            assert r[j] in s[1..];
            var k :| 0 <= k < |s[1..]| && s[1..][k] == r[j];
            assert s[k + 1] == r[j];
          } else {
            assert r[i] == rest[i - 1] && r[j] == rest[j - 1];
          }
        }
      }
    }
  }

  lemma {:induction false} WithoutCartIsEmptyForCart(s: seq<CartItem>, cart: UserId)
    ensures ItemsOf(WithoutCart(s, cart), cart) == []
  {
    if s != [] {
      WithoutCartIsEmptyForCart(s[1..], cart);
      var head := if s[0].cart != cart then [s[0]] else [];
      SelectAppend(head, WithoutCart(s[1..], cart), cart, true);
    }
  }

  // ---- Facts about Upsert and AddItemRows ----

  /** Upsert either appends exactly one new line with the given quantity
      (no line existed) or raises the one existing line's quantity by it;
      no other line changes. */
  lemma UpsertInsertsOrIncrements(items: seq<CartItem>, cart: UserId, product: ProductId, quantity: int)
    ensures FindLine(items, cart, product).None? ==>
      Upsert(items, cart, product, quantity) == items + [CartItem(cart, product, quantity)]
    ensures FindLine(items, cart, product).Some? ==>
      var i := FindLine(items, cart, product).value;
      var r := Upsert(items, cart, product, quantity);
      |r| == |items| && r[i] == CartItem(cart, product, items[i].quantity + quantity) &&
      forall k :: 0 <= k < |items| && k != i ==> r[k] == items[k]
  {
  }

  /** After the upsert there is exactly one line for (cart, product), and
      the table still has at most one line per pair. */
  lemma UpsertKeepsUniqueLines(items: seq<CartItem>, cart: UserId, product: ProductId, quantity: int)
    requires UniqueLines(items)
    ensures var r := Upsert(items, cart, product, quantity);
      UniqueLines(r) && FindLine(r, cart, product).Some? &&
      forall k :: 0 <= k < |r| && r[k].cart == cart && r[k].product == product ==> k == FindLine(r, cart, product).value
  {
    var r := Upsert(items, cart, product, quantity);
    var line := CartItem(cart, product, quantity);
    match FindLine(items, cart, product)
    case None =>
      assert r == items + [line];
      forall i, j | 0 <= i < j < |r| ensures !SameLine(r[i], r[j]) {
        if j == |items| {
          assert r[i] == items[i];
        } else {
          assert r[i] == items[i] && r[j] == items[j];
        }
      }
      assert SameLine(r[|items|], line);
    case Some(i0) =>
      assert r[i0].cart == cart && r[i0].product == product;
      forall i, j | 0 <= i < j < |r| ensures !SameLine(r[i], r[j]) {
        assert SameLine(r[i], items[i]) && SameLine(r[j], items[j]);
      }
  }

  /** Adding a product from another store than the cart's first line's
      empties the cart first: afterwards the cart holds only the new line. */
  lemma AddFromOtherStoreLeavesOnlyNewLine(items: seq<CartItem>, products: map<ProductId, Product>, cart: UserId, product: ProductId, quantity: int)
    requires LinesReferToProducts(items, products) && product in products
    requires FirstStore(items, products, cart).Some?
    requires FirstStore(items, products, cart).value != products[product].store
    ensures ItemsOf(AddItemRows(items, products, cart, product, quantity), cart) == [CartItem(cart, product, quantity)]
  {
    var cleared := WithoutCart(items, cart);
    WithoutCartIsEmptyForCart(items, cart);
    SelectAppend(cleared, [CartItem(cart, product, quantity)], cart, true);
  }

  /** Adding to one cart never changes the lines of another cart. */
  lemma AddLeavesOtherCartsAlone(items: seq<CartItem>, products: map<ProductId, Product>, cart: UserId, product: ProductId, quantity: int, other: UserId)
    requires LinesReferToProducts(items, products) && product in products
    requires other != cart
    ensures ItemsOf(AddItemRows(items, products, cart, product, quantity), other) == ItemsOf(items, other)
  {
    var cleared := ClearForStore(items, products, cart, product);
    assert ItemsOf(cleared, other) == ItemsOf(items, other) by {
      if cleared != items {
        SelectOfOtherCart(items, cart, other);
      }
    }
    match FindLine(cleared, cart, product)
    case None =>
      SelectAppend(cleared, [CartItem(cart, product, quantity)], other, true);
    case Some(i) =>
      SelectIgnoresUpdateInOtherCart(cleared, i, cleared[i].(quantity := cleared[i].quantity + quantity), other);
  }

  /** The quantity of the (cart, product) line after the add: the given
      quantity plus, when the cart was not emptied, the line's old quantity. */
  lemma AddLineQuantity(items: seq<CartItem>, products: map<ProductId, Product>, cart: UserId, product: ProductId, quantity: int)
    requires LinesReferToProducts(items, products) && product in products
    requires UniqueLines(items)
    ensures var r := AddItemRows(items, products, cart, product, quantity);
      var cleared := ClearForStore(items, products, cart, product);
      FindLine(r, cart, product).Some? &&
      r[FindLine(r, cart, product).value].quantity ==
        quantity + (match FindLine(cleared, cart, product) case None => 0 case Some(i) => cleared[i].quantity)
  {
    var cleared := ClearForStore(items, products, cart, product);
    if cleared != items {
      SelectKeepsUniqueLines(items, cart, false);
    }
    UpsertKeepsUniqueLines(cleared, cart, product, quantity);
    var r := AddItemRows(items, products, cart, product, quantity);
    match FindLine(cleared, cart, product)
    case None =>
      assert r[|cleared|].cart == cart && r[|cleared|].product == product;
    case Some(i) =>
      assert r[i].cart == cart && r[i].product == product;
  }

  /** Every line of `cart` left after the clear is from `product`'s store. */
  lemma ClearedCartIsFromProductStore(items: seq<CartItem>, products: map<ProductId, Product>, cart: UserId, product: ProductId)
    requires LinesReferToProducts(items, products) && product in products
    requires OneStorePerCart(items, products)
    ensures LinesReferToProducts(ClearForStore(items, products, cart, product), products)
    ensures forall x :: x in ClearForStore(items, products, cart, product) && x.cart == cart ==>
      products[x.product].store == products[product].store
  {
    var cleared := ClearForStore(items, products, cart, product);
    match FirstStore(items, products, cart)
    case None =>
    case Some(s) =>
      if s != products[product].store {
        assert cleared == WithoutCart(items, cart);
      } else {
        assert cleared == items;
      }
  }

  /** The add keeps the table's invariants: one line per (cart, product),
      every line names a product, and every cart holds one store's products. */
  lemma AddKeepsInvariants(items: seq<CartItem>, products: map<ProductId, Product>, cart: UserId, product: ProductId, quantity: int)
    requires LinesReferToProducts(items, products) && product in products
    requires UniqueLines(items) && OneStorePerCart(items, products)
    ensures var r := AddItemRows(items, products, cart, product, quantity);
      UniqueLines(r) && LinesReferToProducts(r, products) && OneStorePerCart(r, products)
  {
    var cleared := ClearForStore(items, products, cart, product);
    if cleared != items {
      SelectKeepsUniqueLines(items, cart, false);
    }
    UpsertKeepsUniqueLines(cleared, cart, product, quantity);
    var r := AddItemRows(items, products, cart, product, quantity);
    ClearedCartIsFromProductStore(items, products, cart, product);
    assert forall x :: x in r ==> x in cleared || x == CartItem(cart, product, x.quantity) by {
      match FindLine(cleared, cart, product)
      case None =>
      case Some(i) =>
        forall x | x in r ensures x in cleared || x == CartItem(cart, product, x.quantity) {
          var k :| 0 <= k < |r| && r[k] == x;
          if k != i { assert x == cleared[k]; }
        }
    }
  }

  /** Adding a product of store A then one of store B to an empty cart
      leaves only the second line. */
  lemma TwoStoresExample(products: map<ProductId, Product>, cart: UserId, p1: ProductId, p2: ProductId)
    requires p1 in products && p2 in products && products[p1].store != products[p2].store
    ensures var once := AddItemRows([], products, cart, p1, 2);
      AddItemRows(once, products, cart, p2, 1) == [CartItem(cart, p2, 1)]
  {
    var once := AddItemRows([], products, cart, p1, 2);
    assert once == [CartItem(cart, p1, 2)];
    assert FirstStore(once, products, cart) == Some(products[p1].store) by {
      assert ItemsOf(once, cart) == [CartItem(cart, p1, 2)];
    }
    assert WithoutCart(once, cart) == [];
  }

  /** Adding the same product twice, 2 then 3, gives one line of 5. */
  lemma SameProductTwiceExample(products: map<ProductId, Product>, cart: UserId, p: ProductId)
    requires p in products
    ensures AddItemRows(AddItemRows([], products, cart, p, 2), products, cart, p, 3) == [CartItem(cart, p, 5)]
  {
    var once := AddItemRows([], products, cart, p, 2);
    assert once == [CartItem(cart, p, 2)];
    assert ItemsOf(once, cart) == [CartItem(cart, p, 2)];
  }

  // ---- Checkout pricing ----

  /** `item.product.price * item.quantity`. */
  function LineTotal(x: CartItem, products: map<ProductId, Product>): int
    requires x.product in products
  {
    products[x.product].price * x.quantity
  }

  /** `sum(item.product.price * item.quantity for item in cart_items)`. */
  function Subtotal(items: seq<CartItem>, products: map<ProductId, Product>): int
    requires LinesReferToProducts(items, products)
  {
    if items == [] then 0
    else
      assert items[|items| - 1] in items;
      Subtotal(items[..|items| - 1], products) + LineTotal(items[|items| - 1], products)
  }

  /** The order items the checkout creates: one per cart line, copying its
      product and quantity and freezing its line total as `price_per_item`. */
  function Snapshot(items: seq<CartItem>, products: map<ProductId, Product>, order: OrderId): (r: seq<OrderItem>)
    requires LinesReferToProducts(items, products)
    ensures |r| == |items|
    ensures forall k :: 0 <= k < |items| ==>
      r[k] == OrderItem(order, items[k].product, items[k].quantity, LineTotal(items[k], products))
  {
    if items == [] then []
    else
      assert items[|items| - 1] in items;
      var last := items[|items| - 1];
      Snapshot(items[..|items| - 1], products, order) + [OrderItem(order, last.product, last.quantity, LineTotal(last, products))]
  }

  /** The sum of the order items' `price_per_item`. */
  function SumPrices(orderItems: seq<OrderItem>): int {
    if orderItems == [] then 0
    else SumPrices(orderItems[..|orderItems| - 1]) + orderItems[|orderItems| - 1].pricePerItem
  }

  /** The delivery fee an order pays: the store's fee, or 0 for "Pick Up". */
  function DeliveryFee(orderType: string, store: Store): int {
    if orderType == PickUp then 0 else store.deliveryFee
  }

  /** `total_price` of the order a checkout creates. */
  function OrderTotal(items: seq<CartItem>, products: map<ProductId, Product>, orderType: string, store: Store): int
    requires LinesReferToProducts(items, products)
  {
    Subtotal(items, products) + DeliveryFee(orderType, store)
  }

  /** The order items' prices add up to the cart's subtotal. */
  lemma {:induction false} SnapshotSumsToSubtotal(items: seq<CartItem>, products: map<ProductId, Product>, order: OrderId)
    requires LinesReferToProducts(items, products)
    ensures SumPrices(Snapshot(items, products, order)) == Subtotal(items, products)
  {
    if items != [] {
      var prefix := items[..|items| - 1];
      SnapshotSumsToSubtotal(prefix, products, order);
      var snap := Snapshot(items, products, order);
      assert snap[..|snap| - 1] == Snapshot(prefix, products, order);
    }
  }

  /** Hence total_price = sum of price_per_item + delivery fee. */
  lemma TotalIsItemPricesPlusFee(items: seq<CartItem>, products: map<ProductId, Product>, orderType: string, store: Store, order: OrderId)
    requires LinesReferToProducts(items, products)
    ensures OrderTotal(items, products, orderType, store) == SumPrices(Snapshot(items, products, order)) + DeliveryFee(orderType, store)
    ensures orderType == PickUp ==> OrderTotal(items, products, orderType, store) == Subtotal(items, products)
  {
    SnapshotSumsToSubtotal(items, products, order);
  }

  /** $10 x 2 and $5 x 1 with a $3 fee: 28.00 delivered, 25.00 picked up. */
  lemma CheckoutExample(products: map<ProductId, Product>, store: Store, cart: UserId, p1: ProductId, p2: ProductId)
    requires p1 in products && p2 in products
    requires products[p1].price == 1000 && products[p2].price == 500 && store.deliveryFee == 300
    ensures OrderTotal([CartItem(cart, p1, 2), CartItem(cart, p2, 1)], products, "Delivery", store) == 2800
    ensures OrderTotal([CartItem(cart, p1, 2), CartItem(cart, p2, 1)], products, PickUp, store) == 2500
  {
    var items := [CartItem(cart, p1, 2), CartItem(cart, p2, 1)];
    assert "Delivery"[0] != PickUp[0];
    assert items[..1] == [CartItem(cart, p1, 2)];
    assert items[..1][..0] == [];
    assert Subtotal(items[..1], products) == 2000;
    assert Subtotal(items, products) == 2500;
  }
}
