/** The tables the modelled code reads and writes, as one object whose
    fields the operations update in place. */
module Database {
  import opened StoreModels
  import opened CartRows

  /** `Store.user` is one-to-one: a user owns at most one store. */
  ghost predicate OneStorePerUser(stores: map<StoreId, Store>) {
    forall s, t :: s in stores && t in stores && stores[s].user == stores[t].user ==> s == t
  }

  /** `Store.address` is one-to-one: an address belongs to at most one store. */
  ghost predicate OneStorePerAddress(stores: map<StoreId, Store>) {
    forall s, t :: s in stores && t in stores && stores[s].address == stores[t].address ==> s == t
  }

  class Db {
    var users: map<UserId, User>
    /** names of the rows of the Group table */
    var groups: set<string>
    /** `user.groups`, by group name; a user absent here is in no group */
    var memberships: map<UserId, set<string>>
    /** the users that have a cart; a cart is named by its user */
    var carts: set<UserId>
    var addresses: map<AddressId, Address>
    var stores: map<StoreId, Store>
    var categories: map<CategoryId, Category>
    var products: map<ProductId, Product>
    /** cart lines in primary-key order */
    var cartItems: seq<CartItem>
    var orders: map<OrderId, Order>
    /** order lines in primary-key order */
    var orderItems: seq<OrderItem>
    /** the next primary key to hand out */
    var nextId: nat

    ghost predicate Valid()
      reads this
    {
      && UniqueLines(cartItems)
      && LinesReferToProducts(cartItems, products)
      && OneStorePerCart(cartItems, products)
      && OneStorePerUser(stores)
      && OneStorePerAddress(stores)
      && (forall a :: a in addresses ==> a < nextId)
      && (forall s :: s in stores ==> s < nextId)
      && (forall o :: o in orders ==> o < nextId)
    }

    /** The names of the groups `u` belongs to. */
    function GroupsOf(u: UserId): set<string>
      reads this
    {
      if u in memberships then memberships[u] else {}
    }

    /** An empty database with the given Group rows. */
    constructor (groupNames: set<string>)
      ensures Valid()
      ensures groups == groupNames
      ensures users == map[] && memberships == map[] && carts == {} && addresses == map[]
      ensures stores == map[] && categories == map[] && products == map[]
      ensures cartItems == [] && orders == map[] && orderItems == [] && nextId == 0
    {
      users, groups, memberships, carts := map[], groupNames, map[], {};
      addresses, stores, categories, products := map[], map[], map[], map[];
      cartItems, orders, orderItems, nextId := [], map[], [], 0;
    }
  }
}
