/** The validation and update rules of store/serializers.py. */
module StoreSerializers {
  import opened Errors
  import opened StoreModels
  import opened CartRows
  import opened Database

  const NoProductsMessage := "A store must have at least one product before going live."
  const DuplicateCategoryMessage := "A category with that name already exists in your store"
  const DuplicateProductMessage := "A product with that name already exists in your store"

  // ---- StoreSerializer.validate ----

  /** The attributes of a store request that its validation looks at; a
      field the request does not supply is `None`. */
  datatype StoreAttrs = StoreAttrs(openingTime: Option<TimeOfDay>, closingTime: Option<TimeOfDay>, isLive: Option<bool>)

  /** `StoreSerializer.validate`: equal opening and closing times are
      refused (only when both are supplied), then a request to go live is
      refused for an existing store without products; a new store
      (`instance == None`) is not checked. */
  function ValidateStore(attrs: StoreAttrs, instance: Option<StoreId>, products: map<ProductId, Product>): (o: Outcome)
    ensures o == Fail(ValidationError("operating_hours", SameTimeMessage)) <==>
      attrs.openingTime.Some? && attrs.closingTime.Some? && attrs.openingTime.value == attrs.closingTime.value
    ensures o == Fail(ValidationError("is_live", NoProductsMessage)) <==>
      !(attrs.openingTime.Some? && attrs.closingTime.Some? && attrs.openingTime.value == attrs.closingTime.value) &&
      attrs.isLive == Some(true) && instance.Some? && !HasProducts(products, instance.value)
    ensures o.Pass? || o == Fail(ValidationError("operating_hours", SameTimeMessage)) ||
      o == Fail(ValidationError("is_live", NoProductsMessage))
  {
    if attrs.openingTime.Some? && attrs.closingTime.Some? && attrs.openingTime.value == attrs.closingTime.value then
      Fail(ValidationError("operating_hours", SameTimeMessage))
    else if attrs.isLive == Some(true) && instance.Some? && !HasProducts(products, instance.value) then
      Fail(ValidationError("is_live", NoProductsMessage))
    else
      Pass
  }

  /** The validation hours check agrees with `Store.clean` when both
      times are supplied, and is skipped when either is missing. */
  lemma ValidateStoreMatchesClean(attrs: StoreAttrs, store: Store, instance: Option<StoreId>, products: map<ProductId, Product>)
    requires attrs.openingTime == Some(store.openingTime) && attrs.closingTime == Some(store.closingTime)
    ensures Clean(store).Fail? <==> ValidateStore(attrs, instance, products).Fail? && ValidateStore(attrs, instance, products).error.field == "operating_hours"
  {
  }

  /** A store being created can ask to go live with no products at all. */
  lemma NewStoreGoesLiveUnchecked(openingTime: TimeOfDay, closingTime: TimeOfDay)
    requires openingTime != closingTime
    ensures ValidateStore(StoreAttrs(Some(openingTime), Some(closingTime), Some(true)), None, map[]).Pass?
  {
  }

  // ---- the caller's store ----

  /** `Store.objects.get(user=user)`. */
  function StoreOfUser(user: UserId, stores: map<StoreId, Store>): (r: Result<StoreId>)
    requires OneStorePerUser(stores)
    ensures r.Ok? <==> exists s :: s in stores && stores[s].user == user
    ensures r.Ok? ==> r.value in stores && stores[r.value].user == user
    ensures r.Err? ==> r.error == DoesNotExist("Store")
  {
    if exists s :: s in stores && stores[s].user == user then
      var s :| s in stores && stores[s].user == user;
      Ok(s)
    else
      Err(DoesNotExist("Store"))
  }

  // ---- CategorySerializer.validate ----

  /** A category of `store`, other than `instance`, is already called `name`. */
  predicate CategoryNameTaken(categories: map<CategoryId, Category>, store: StoreId, name: Option<string>, instance: Option<CategoryId>) {
    exists c :: c in categories && Some(c) != instance && categories[c].store == store && name == Some(categories[c].name)
  }

  /** `CategorySerializer.validate`: the caller's store, which the
      validated attributes then carry, unless one of its categories already
      has the requested name. The category being updated, if any, is not
      excluded from that search. */
  function ValidateCategory(user: UserId, name: Option<string>, stores: map<StoreId, Store>,
                            categories: map<CategoryId, Category>): (r: Result<StoreId>)
    requires OneStorePerUser(stores)
    ensures StoreOfUser(user, stores).Err? ==> r == Err(DoesNotExist("Store"))
    ensures StoreOfUser(user, stores).Ok? ==>
      var store := StoreOfUser(user, stores).value;
      (CategoryNameTaken(categories, store, name, None) ==> r == Err(ValidationError("name", DuplicateCategoryMessage))) &&
      (!CategoryNameTaken(categories, store, name, None) ==> r == Ok(store))
  {
    match StoreOfUser(user, stores)
    case Err(e) => Err(e)
    case Ok(store) =>
      if CategoryNameTaken(categories, store, name, None) then Err(ValidationError("name", DuplicateCategoryMessage))
      else Ok(store)
  }

  /** Saving an existing category of the caller's store under its own,
      unchanged name is refused, since the category itself is found. */
  lemma CategoryResaveRejected(user: UserId, c: CategoryId, stores: map<StoreId, Store>, categories: map<CategoryId, Category>)
    requires OneStorePerUser(stores)
    requires c in categories && categories[c].store in stores && stores[categories[c].store].user == user
    ensures ValidateCategory(user, Some(categories[c].name), stores, categories) ==
      Err(ValidationError("name", DuplicateCategoryMessage))
  {
    var r := StoreOfUser(user, stores);
    assert r.Ok? && r.value == categories[c].store;
    assert CategoryNameTaken(categories, r.value, Some(categories[c].name), None);
  }

  /** Category validation as the product validation does it: the
      category being updated is left out of the name search. */
  function ValidateCategoryExcluding(user: UserId, name: Option<string>, instance: Option<CategoryId>,
                                     stores: map<StoreId, Store>, categories: map<CategoryId, Category>): (r: Result<StoreId>)
    requires OneStorePerUser(stores)
    ensures StoreOfUser(user, stores).Err? ==> r == Err(DoesNotExist("Store"))
    ensures StoreOfUser(user, stores).Ok? ==>
      var store := StoreOfUser(user, stores).value;
      (CategoryNameTaken(categories, store, name, instance) ==> r == Err(ValidationError("name", DuplicateCategoryMessage))) &&
      (!CategoryNameTaken(categories, store, name, instance) ==> r == Ok(store))
  {
    match StoreOfUser(user, stores)
    case Err(e) => Err(e)
    case Ok(store) =>
      if CategoryNameTaken(categories, store, name, instance) then Err(ValidationError("name", DuplicateCategoryMessage))
      else Ok(store)
  }

  /** With the category itself left out, re-saving it under its own name
      passes when no other category of the store has that name, and a new
      category agrees with the validation as written. */
  lemma CategoryResaveAccepted(user: UserId, c: CategoryId, stores: map<StoreId, Store>, categories: map<CategoryId, Category>)
    requires OneStorePerUser(stores)
    requires c in categories && categories[c].store in stores && stores[categories[c].store].user == user
    requires forall d :: d in categories && d != c && categories[d].store == categories[c].store ==>
      categories[d].name != categories[c].name
    ensures ValidateCategoryExcluding(user, Some(categories[c].name), Some(c), stores, categories) == Ok(categories[c].store)
    ensures forall name :: (ValidateCategoryExcluding(user, name, None, stores, categories) ==
                            ValidateCategory(user, name, stores, categories))
  {
    var r := StoreOfUser(user, stores);
    assert r.Ok? && r.value == categories[c].store;
  }

  // ---- ProductSerializer.validate ----

  /** A product of `store`, other than `instance`, is already called `name`. */
  predicate ProductNameTaken(products: map<ProductId, Product>, store: StoreId, name: Option<string>, instance: Option<ProductId>) {
    exists p :: p in products && Some(p) != instance && products[p].store == store && name == Some(products[p].name)
  }

  /** `ProductSerializer.validate`: the caller's store unless another
      product of it already has the requested name; the product being
      updated is excluded from the search. */
  function ValidateProduct(user: UserId, name: Option<string>, instance: Option<ProductId>,
                           stores: map<StoreId, Store>, products: map<ProductId, Product>): (r: Result<StoreId>)
    requires OneStorePerUser(stores)
    ensures StoreOfUser(user, stores).Err? ==> r == Err(DoesNotExist("Store"))
    ensures StoreOfUser(user, stores).Ok? ==>
      var store := StoreOfUser(user, stores).value;
      (ProductNameTaken(products, store, name, instance) ==> r == Err(ValidationError("name", DuplicateProductMessage))) &&
      (!ProductNameTaken(products, store, name, instance) ==> r == Ok(store))
  {
    match StoreOfUser(user, stores)
    case Err(e) => Err(e)
    case Ok(store) =>
      if ProductNameTaken(products, store, name, instance) then Err(ValidationError("name", DuplicateProductMessage))
      else Ok(store)
  }

  /** Re-saving a product of the caller's store under its own name passes
      when no other product of the store has that name. */
  lemma ProductResaveAccepted(user: UserId, p: ProductId, stores: map<StoreId, Store>, products: map<ProductId, Product>)
    requires OneStorePerUser(stores)
    requires p in products && products[p].store in stores && stores[products[p].store].user == user
    requires forall q :: q in products && q != p && products[q].store == products[p].store ==>
      products[q].name != products[p].name
    ensures ValidateProduct(user, Some(products[p].name), Some(p), stores, products) == Ok(products[p].store)
  {
    var r := StoreOfUser(user, stores);
    assert r.Ok? && r.value == products[p].store;
  }

  /** A name used only by other stores' products is free for the caller's
      store; a name one of its own products has is refused for a new one. */
  lemma ProductNamePerStore(user: UserId, p: ProductId, stores: map<StoreId, Store>, products: map<ProductId, Product>)
    requires OneStorePerUser(stores)
    requires p in products && products[p].store in stores
    requires forall q :: q in products && q != p ==> products[q].name != products[p].name
    ensures stores[products[p].store].user != user && StoreOfUser(user, stores).Ok? ==>
      ValidateProduct(user, Some(products[p].name), None, stores, products) == Ok(StoreOfUser(user, stores).value)
    ensures stores[products[p].store].user == user ==>
      ValidateProduct(user, Some(products[p].name), None, stores, products) == Err(ValidationError("name", DuplicateProductMessage))
  {
    if stores[products[p].store].user == user {
      var r := StoreOfUser(user, stores);
      assert r.Ok? && r.value == products[p].store;
      assert ProductNameTaken(products, r.value, Some(products[p].name), None);
    }
  }

  // ---- StoreSerializer.update ----

  /** A value assigned to a model field by `setattr`. */
  datatype FieldValue = Text(string) | Amount(int) | Time(TimeOfDay) | Flag(bool) | Reference(nat)

  /** A model instance in memory: its fields by name. */
  class Instance {
    var fields: map<string, FieldValue>

    constructor (fields: map<string, FieldValue>)
      ensures this.fields == fields
    {
      this.fields := fields;
    }
  }

  /** `m` after assigning each (name, value) pair of `items` in turn. */
  function Overwrite<K, V>(m: map<K, V>, items: seq<(K, V)>): map<K, V> {
    if items == [] then m
    else Overwrite(m, items[..|items| - 1])[items[|items| - 1].0 := items[|items| - 1].1]
  }

  /** The keys of a dictionary given as its items. */
  function KeysOf<K, V>(items: seq<(K, V)>): set<K> {
    set i | 0 <= i < |items| :: items[i].0
  }

  /** The items of a dictionary: no key twice. */
  ghost predicate DistinctKeys<K, V>(items: seq<(K, V)>) {
    forall i, j :: 0 <= i < j < |items| ==> items[i].0 != items[j].0
  }

  /** Overwriting sets exactly the supplied fields to the supplied values
      and keeps every other field as it was. */
  lemma {:induction false} OverwriteSetsOnlySupplied<K, V>(m: map<K, V>, items: seq<(K, V)>)
    requires DistinctKeys(items)
    ensures Overwrite(m, items).Keys == m.Keys + KeysOf(items)
    ensures forall i :: 0 <= i < |items| ==> Overwrite(m, items)[items[i].0] == items[i].1
    ensures forall k :: k in m && k !in KeysOf(items) ==> Overwrite(m, items)[k] == m[k]
  {
    if items != [] {
      var init := items[..|items| - 1];
      var last := items[|items| - 1];
      assert DistinctKeys(init);
      OverwriteSetsOnlySupplied(m, init);
      assert KeysOf(items) == KeysOf(init) + {last.0} by {
        forall k | k in KeysOf(items) ensures k in KeysOf(init) + {last.0} {
          var i :| 0 <= i < |items| && items[i].0 == k;
          if i < |items| - 1 {
            assert init[i] == items[i];
          }
        }
        forall k | k in KeysOf(init) ensures k in KeysOf(items) {
          var i :| 0 <= i < |init| && init[i].0 == k;
          assert items[i] == init[i];
        }
      }
      forall i | 0 <= i < |items|
        ensures Overwrite(m, items)[items[i].0] == items[i].1
      {
        if i < |items| - 1 {
          assert init[i] == items[i];
        }
      }
    }
  }

  /** `StoreSerializer.update`: the supplied address fields are assigned to
      the store's address (when any are supplied), then the remaining
      supplied fields to the store, one `setattr` at a time. */
  method Update(instance: Instance, address: Instance, addressData: Option<seq<(string, FieldValue)>>,
                validatedData: seq<(string, FieldValue)>)
    requires instance != address
    modifies instance, address
    ensures addressData.Some? && addressData.value != [] ==> address.fields == Overwrite(old(address.fields), addressData.value)
    ensures !(addressData.Some? && addressData.value != []) ==> address.fields == old(address.fields)
    ensures instance.fields == Overwrite(old(instance.fields), validatedData)
  {
    if addressData.Some? && addressData.value != [] {
      var data := addressData.value;
      for i := 0 to |data|
        invariant address.fields == Overwrite(old(address.fields), data[..i])
        invariant instance.fields == old(instance.fields)
      {
        assert data[..i + 1][..i] == data[..i];
        address.fields := address.fields[data[i].0 := data[i].1];
      }
      assert data[..|data|] == data;
    }
    ghost var addressAfter := address.fields;
    for i := 0 to |validatedData|
      invariant instance.fields == Overwrite(old(instance.fields), validatedData[..i])
      invariant address.fields == addressAfter
    {
      assert validatedData[..i + 1][..i] == validatedData[..i];
      instance.fields := instance.fields[validatedData[i].0 := validatedData[i].1];
    }
    assert validatedData[..|validatedData|] == validatedData;
  }

  // ---- CartSerializer.to_representation ----

  /** The store shown with a cart is the first line's store, present
      exactly when the cart has lines; since a cart holds one store's
      products, it is the store of every line. */
  lemma CartStoreIsEveryLinesStore(items: seq<CartItem>, products: map<ProductId, Product>, cart: UserId)
    requires LinesReferToProducts(items, products) && OneStorePerCart(items, products)
    ensures FirstStore(items, products, cart).None? <==> ItemsOf(items, cart) == []
    ensures FirstStore(items, products, cart).Some? ==>
      forall x :: x in items && x.cart == cart ==> products[x.product].store == FirstStore(items, products, cart).value
  {
    if ItemsOf(items, cart) != [] {
      assert ItemsOf(items, cart)[0] in ItemsOf(items, cart);
    }
  }
}
