/** The store app's entities (store/models.py) and the opening-hours rules
    of `Store`. Money is in integer cents (every price and fee field has two
    decimal places); a time of day is a number of seconds since midnight. */
module StoreModels {
  import opened Errors

  type UserId = nat
  type AddressId = nat
  type StoreId = nat
  type CategoryId = nat
  type ProductId = nat
  type OrderId = nat

  /** Seconds in a day; a `TimeField` value lies in [0, DaySeconds). */
  const DaySeconds := 86400

  type TimeOfDay = t: int | 0 <= t < DaySeconds

  /** The group a store's user is put in while the store exists. */
  const StoreOwnerGroup := "Store Owner"

  datatype User = User(email: string, firstName: string)

  datatype Address = Address(city: string, province: string)

  /** A store row. `email` and `is_live` are fields the serializers read;
      the other fields are those of store/models.py. */
  datatype Store = Store(
    user: UserId,
    address: AddressId,
    name: string,
    email: string,
    mobileNumber: string,
    deliveryFee: int,
    description: string,
    openingTime: TimeOfDay,
    closingTime: TimeOfDay,
    isLive: bool)

  datatype Category = Category(store: StoreId, name: string)

  datatype Product = Product(store: StoreId, category: CategoryId, name: string, price: int)

  /** A cart is identified by its user: Cart.user is one-to-one. */
  datatype CartItem = CartItem(cart: UserId, product: ProductId, quantity: int)

  /** The lifecycle statuses of an order. */
  datatype Status = New | Accepted | PreparingOrder | OutForDelivery | ReadyForPickUp | Completed | Rejected

  /** The text an order's `status` column holds. */
  function StatusName(s: Status): string {
    match s
    case New => "New"
    case Accepted => "Accepted"
    case PreparingOrder => "Preparing Order"
    case OutForDelivery => "Out For Delivery"
    case ReadyForPickUp => "Ready For Pick Up"
    case Completed => "Completed"
    case Rejected => "Rejected"
  }

  const PickUp := "Pick Up"

  datatype Order = Order(
    cart: UserId,
    store: StoreId,
    status: Status,
    totalPrice: int,
    orderType: string,
    pickUpDatetime: Option<int>)

  datatype OrderItem = OrderItem(order: OrderId, product: ProductId, quantity: int, pricePerItem: int)

  /** `store.product_set.exists()`. */
  predicate HasProducts(products: map<ProductId, Product>, store: StoreId) {
    exists p :: p in products && products[p].store == store
  }

  const SameTimeMessage := "Opening time and closing time cannot be the same."

  /** `Store.clean`: the opening and closing times must differ. */
  function Clean(store: Store): (o: Outcome)
    ensures o.Pass? <==> store.openingTime != store.closingTime
    ensures o.Fail? ==> o.error == Invalid(SameTimeMessage)
  {
    if store.openingTime == store.closingTime then Fail(Invalid(SameTimeMessage)) else Pass
  }

  /** `Store.is_open` at time of day `now`: the half-open window
      [opening, closing), wrapping past midnight when closing is earlier. */
  function IsOpen(opening: TimeOfDay, closing: TimeOfDay, now: TimeOfDay): (open: bool)
    ensures opening == closing ==> open
    ensures opening != closing ==> (open <==> ClockDistance(opening, now) < ClockDistance(opening, closing))
  {
    if opening < closing then
      opening <= now < closing
    else
      now >= opening || now < closing
  }

  /** Same-day window: open iff opening <= now < closing. */
  lemma SameDayWindow(opening: TimeOfDay, closing: TimeOfDay, now: TimeOfDay)
    requires opening < closing
    ensures IsOpen(opening, closing, now) <==> opening <= now < closing
  {
  }

  /** Overnight window: open iff now >= opening or now < closing. */
  lemma OvernightWindow(opening: TimeOfDay, closing: TimeOfDay, now: TimeOfDay)
    requires opening > closing
    ensures IsOpen(opening, closing, now) <==> now >= opening || now < closing
  {
  }

  /** Seconds from `a` forward to `b` on a 24-hour clock. */
  function ClockDistance(a: TimeOfDay, b: TimeOfDay): (d: int)
    ensures 0 <= d < DaySeconds
    ensures (a + d) % DaySeconds == b
  {
    if a <= b then b - a else b - a + DaySeconds
  }

  /** With distinct times, the store is open exactly when the time elapsed
      since opening (on the wrapping clock) is shorter than the length of
      the window from opening to closing. */
  lemma OpenIffWithinWindow(opening: TimeOfDay, closing: TimeOfDay, now: TimeOfDay)
    requires opening != closing
    ensures IsOpen(opening, closing, now) <==> ClockDistance(opening, now) < ClockDistance(opening, closing)
  {
  }

  /** An overnight window is the complement of the same-day window with
      the two times swapped. */
  lemma OvernightIsSwappedComplement(opening: TimeOfDay, closing: TimeOfDay, now: TimeOfDay)
    requires opening > closing
    ensures IsOpen(opening, closing, now) == !IsOpen(closing, opening, now)
  {
  }

  /** With distinct times the store is open at its opening time and closed
      at its closing time. */
  lemma OpenAtOpeningClosedAtClosing(opening: TimeOfDay, closing: TimeOfDay)
    requires opening != closing
    ensures IsOpen(opening, closing, opening)
    ensures !IsOpen(opening, closing, closing)
  {
  }

  /** Equal times, which `Clean` rejects, fall into the overnight branch
      and make the store open around the clock. */
  lemma EqualTimesAlwaysOpen(store: Store, now: TimeOfDay)
    requires Clean(store).Fail?
    ensures IsOpen(store.openingTime, store.closingTime, now)
  {
  }

  /** 22:00 to 06:00 is open at 23:00 and closed at 12:00. */
  lemma OvernightExample()
    ensures IsOpen(22 * 3600, 6 * 3600, 23 * 3600)
    ensures !IsOpen(22 * 3600, 6 * 3600, 12 * 3600)
  {
  }
}
