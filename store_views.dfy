/** The state-changing views of store/views.py (adding to the cart, checking
    out, updating an order's status), the per-request group cache, and the
    store list's visibility filter. */
module StoreViews {
  import opened Errors
  import opened StoreModels
  import opened CartRows
  import opened Database
  import StoreSignals
  import ViewPermissions
  import StoreSerializers

  /** `n` written in decimal, as the key appears in a message. */
  function DecimalDigits(n: nat): (s: string)
    ensures |s| > 0 && forall i :: 0 <= i < |s| ==> '0' <= s[i] <= '9'
  {
    if n < 10 then [('0' as int + n) as char]
    else DecimalDigits(n / 10) + [('0' as int + n % 10) as char]
  }

  /** The message a primary-key field gives for a key with no row; it
      quotes the key the request submitted. */
  function InvalidPk(pk: nat): string {
    "Invalid pk \"" + DecimalDigits(pk) + "\" - object does not exist."
  }
  const EmptyCartMessage := "Your cart does not contain any items."

  /** `CartItemViewSet.create`: add `quantity` of `product` to the caller's
      cart. A cart holding another store's products is emptied first; then
      the (cart, product) line is created or its quantity increased. The
      result is the line as it now stands. */
  method CreateCartItem(db: Db, user: UserId, product: ProductId, quantity: int) returns (r: Result<CartItem>)
    requires db.Valid()
    modifies db`cartItems
    ensures db.Valid()
    ensures r.Ok? <==> product in db.products && user in db.carts
    ensures product !in db.products ==> r == Err(ValidationError("product", InvalidPk(product)))
    ensures product in db.products && user !in db.carts ==> r == Err(DoesNotExist("Cart"))
    ensures r.Err? ==> db.cartItems == old(db.cartItems)
    ensures r.Ok? ==>
      db.cartItems == AddItemRows(old(db.cartItems), db.products, user, product, quantity) &&
      r.value in db.cartItems && r.value.cart == user && r.value.product == product
  {
    if product !in db.products {
      return Err(ValidationError("product", InvalidPk(product)));
    }
    if user !in db.carts {
      return Err(DoesNotExist("Cart"));
    }
    ghost var before := db.cartItems;
    var newStore := db.products[product].store;
    var existing := ItemsOf(db.cartItems, user);
    if |existing| > 0 {
      assert existing[0] in existing;
      var existingStore := db.products[existing[0].product].store;
      if existingStore != newStore {
        db.cartItems := WithoutCart(db.cartItems, user);
      }
    }
    assert db.cartItems == ClearForStore(before, db.products, user, product);
    var line: CartItem;
    match FindLine(db.cartItems, user, product) {
      case None =>
        line := CartItem(user, product, quantity);
        db.cartItems := db.cartItems + [line];
        assert db.cartItems[|db.cartItems| - 1] == line;
      case Some(i) =>
        line := db.cartItems[i].(quantity := db.cartItems[i].quantity + quantity);
        db.cartItems := db.cartItems[i := line];
        assert db.cartItems[i] == line;
    }
    AddKeepsInvariants(before, db.products, user, product, quantity);
    r := Ok(line);
  }

  /** The generator sum of the checkout: each line's price times quantity. */
  method SumCartItems(items: seq<CartItem>, products: map<ProductId, Product>) returns (total: int)
    requires LinesReferToProducts(items, products)
    ensures total == Subtotal(items, products)
  {
    total := 0;
    for i := 0 to |items|
      invariant total == Subtotal(items[..i], products)
    {
      assert items[..i + 1][..i] == items[..i];
      assert items[i] in items;
      total := total + products[items[i].product].price * items[i].quantity;
    }
    assert items[..|items|] == items;
  }

  /** The list comprehension of the checkout: one order item per line. */
  method SnapshotItems(items: seq<CartItem>, products: map<ProductId, Product>, order: OrderId) returns (snapshot: seq<OrderItem>)
    requires LinesReferToProducts(items, products)
    ensures snapshot == Snapshot(items, products, order)
  {
    snapshot := [];
    for i := 0 to |items|
      invariant |snapshot| == i
      invariant forall k :: 0 <= k < i ==>
        snapshot[k] == OrderItem(order, items[k].product, items[k].quantity, LineTotal(items[k], products))
    {
      assert items[i] in items;
      var item := items[i];
      snapshot := snapshot + [OrderItem(order, item.product, item.quantity, products[item.product].price * item.quantity)];
    }
  }

  /** `OrderViewSet.create`: turn the caller's cart into an order of
      `store`. An empty cart is refused before anything else is checked.
      The order's total is the lines' prices plus the store's delivery fee,
      which a "Pick Up" order does not pay; the store row itself is not
      changed. The lines are copied into order items and the cart is
      emptied. New orders start in status New. */
  method CreateOrder(db: Db, user: UserId, store: StoreId, orderType: string, pickUp: Option<int>) returns (r: Result<OrderId>)
    requires db.Valid()
    modifies db`cartItems, db`orders, db`orderItems, db`nextId
    ensures db.Valid()
    ensures r.Ok? <==> user in db.carts && ItemsOf(old(db.cartItems), user) != [] && store in db.stores
    ensures user !in db.carts ==> r == Err(DoesNotExist("Cart"))
    ensures user in db.carts && ItemsOf(old(db.cartItems), user) == [] ==>
      r == Err(ValidationError("cart", EmptyCartMessage))
    ensures user in db.carts && ItemsOf(old(db.cartItems), user) != [] && store !in db.stores ==>
      r == Err(ValidationError("store", InvalidPk(store)))
    ensures r.Err? ==>
      db.cartItems == old(db.cartItems) && db.orders == old(db.orders) && db.orderItems == old(db.orderItems)
    ensures r.Ok? ==>
      var items := ItemsOf(old(db.cartItems), user);
      r.value !in old(db.orders) &&
      db.orders == old(db.orders)[r.value :=
        Order(user, store, New, OrderTotal(items, db.products, orderType, db.stores[store]), orderType, pickUp)] &&
      db.orderItems == old(db.orderItems) + Snapshot(items, db.products, r.value) &&
      db.cartItems == WithoutCart(old(db.cartItems), user) &&
      ItemsOf(db.cartItems, user) == []
  {
    if user !in db.carts {
      return Err(DoesNotExist("Cart"));
    }
    var cartItems := ItemsOf(db.cartItems, user);
    if |cartItems| == 0 {
      return Err(ValidationError("cart", EmptyCartMessage));
    }
    if store !in db.stores {
      return Err(ValidationError("store", InvalidPk(store)));
    }
    // the fee override changes the loaded store object only
    var deliveryFee := db.stores[store].deliveryFee;
    if orderType == PickUp {
      deliveryFee := 0;
    }
    var subtotal := SumCartItems(cartItems, db.products);
    var totalPrice := subtotal + deliveryFee;
    var id := db.nextId;
    var order := Order(user, store, New, totalPrice, orderType, pickUp);
    db.orders := db.orders[id := order];
    db.nextId := db.nextId + 1;
    // the post_save receiver sends nothing for a created order
    var mail := StoreSignals.OrderUpdateEmail(order, true, db.stores, db.carts, db.users);
    assert mail == Ok(None);
    var orderItems := SnapshotItems(cartItems, db.products, id);
    db.orderItems := db.orderItems + orderItems;
    SelectKeepsUniqueLines(db.cartItems, user, false);
    WithoutCartIsEmptyForCart(db.cartItems, user);
    db.cartItems := WithoutCart(db.cartItems, user);
    r := Ok(id);
  }

  /** `update_order_status`: only members of "Store Owner" may call it;
      the order's status becomes `status` whatever it was, nothing else of
      the order changes, and the save runs the e-mail receiver, whose
      result (the e-mail sent, or the lookup error it raises) is returned. */
  method UpdateOrderStatus(db: Db, groups: set<string>, order: OrderId, status: Status) returns (r: Result<Option<StoreSignals.Email>>)
    requires db.Valid()
    modifies db`orders
    ensures db.Valid()
    ensures StoreOwnerGroup !in groups ==>
      r == Err(PermissionDenied("store", ViewPermissions.MustOwnStore)) && db.orders == old(db.orders)
    ensures StoreOwnerGroup in groups && order !in old(db.orders) ==>
      r == Err(DoesNotExist("Order")) && db.orders == old(db.orders)
    ensures StoreOwnerGroup in groups && order in old(db.orders) ==>
      db.orders == old(db.orders)[order := old(db.orders)[order].(status := status)] &&
      r == StoreSignals.OrderUpdateEmail(db.orders[order], false, db.stores, db.carts, db.users)
  {
    var allowed := ViewPermissions.StoreOwnerOnly(groups);
    if allowed.Fail? {
      return Err(allowed.error);
    }
    if order !in db.orders {
      return Err(DoesNotExist("Order"));
    }
    var updated := db.orders[order].(status := status);
    db.orders := db.orders[order := updated];
    r := StoreSignals.OrderUpdateEmail(updated, false, db.stores, db.carts, db.users);
  }

  /** The requesting user object, onto which `get_user_groups` caches the
      user's group names for the rest of the request. */
  class RequestUser {
    const id: UserId
    var cachedGroups: Option<set<string>>

    constructor (id: UserId)
      ensures this.id == id && cachedGroups == None
    {
      this.id := id;
      cachedGroups := None;
    }

    /** `get_user_groups`: the cached names if any (an empty set counts as
        cached), otherwise the names read from the database, which are then
        cached. Later changes to the user's groups are not seen by this
        request. */
    method GetUserGroups(db: Db) returns (groups: set<string>)
      modifies this
      ensures old(cachedGroups).Some? ==> groups == old(cachedGroups).value
      ensures old(cachedGroups).None? ==> groups == db.GroupsOf(id)
      ensures cachedGroups == Some(groups)
    {
      match cachedGroups {
        case Some(g) =>
          groups := g;
        case None =>
          groups := db.GroupsOf(id);
          cachedGroups := Some(groups);
      }
    }
  }

  /** `StoreViewSet.get_queryset`'s filter: for a list or retrieve by a
      non-staff caller, only live stores with at least one product, minus
      the caller's own store when the caller is signed in; every store
      otherwise. */
  function VisibleStores(stores: map<StoreId, Store>, products: map<ProductId, Product>,
                         action: ViewPermissions.Action, requester: ViewPermissions.Requester): (r: set<StoreId>)
    ensures r <= stores.Keys
    ensures !(ViewPermissions.IsRead(action) && !requester.isStaff) ==> r == stores.Keys
    ensures ViewPermissions.IsRead(action) && !requester.isStaff ==>
      forall s :: s in r <==>
        s in stores && stores[s].isLive && HasProducts(products, s) &&
        (requester.user.Some? ==> stores[s].user != requester.user.value)
  {
    if ViewPermissions.IsRead(action) && !requester.isStaff then
      set s | s in stores && stores[s].isLive && HasProducts(products, s) &&
        (requester.user.None? || stores[s].user != requester.user.value)
    else stores.Keys
  }

  /** A signed-in customer sees what an anonymous visitor sees, except
      their own store when they have one. */
  lemma SignedInSeesAnonymousListMinusOwnStore(stores: map<StoreId, Store>, products: map<ProductId, Product>,
                                               action: ViewPermissions.Action, user: UserId)
    requires OneStorePerUser(stores) && ViewPermissions.IsRead(action)
    ensures var anonymous := VisibleStores(stores, products, action, ViewPermissions.Requester(None, false));
      var signedIn := VisibleStores(stores, products, action, ViewPermissions.Requester(Some(user), false));
      match StoreSerializers.StoreOfUser(user, stores)
      case Ok(own) => signedIn == anonymous - {own}
      case Err(_) => signedIn == anonymous
  {
    var anonymous := VisibleStores(stores, products, action, ViewPermissions.Requester(None, false));
    var signedIn := VisibleStores(stores, products, action, ViewPermissions.Requester(Some(user), false));
    match StoreSerializers.StoreOfUser(user, stores)
    case Ok(own) =>
      forall s | s in anonymous - {own} ensures s in signedIn {
        assert stores[s].user != user;
      }
    case Err(_) =>
  }

  /** Deleting a store hides it from everyone and changes nothing else
      about who sees which store. */
  lemma DeletedStoreIsHidden(stores: map<StoreId, Store>, products: map<ProductId, Product>,
                             action: ViewPermissions.Action, requester: ViewPermissions.Requester, id: StoreId)
    ensures VisibleStores(stores - {id}, products, action, requester) == VisibleStores(stores, products, action, requester) - {id}
  {
  }
}
