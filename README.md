# FoodVille store core, modelled in Dafny

FoodVille is a food-ordering back end built with Django REST Framework. Stores
sell products grouped in categories. Customers fill a cart with the products
of one store at a time and check it out into an order. Store owners move
orders through their statuses, which e-mails the customer. This project
models the rules behind that flow and proves what they promise:

- adding to the cart (a cart never mixes stores; one line per product);
- checkout (total, order-item snapshot, emptied cart);
- the order-status update and the e-mail it triggers;
- the per-viewset permission rules and the generic CRUD permission class;
- a store's opening hours (same-day and overnight windows);
- the serializer checks (hours, going live, unique names per store) and the field-by-field update;
- the signal receivers (a cart per new user, the "Store Owner" group following store creation and deletion);
- the age and phone-number validators.

Units: money is integer cents (both decimal fields have two places). A time
of day is seconds since midnight (0..86399). A date is (year, month, day).
The database is one object, `Database.Db`, whose fields are the tables.
Operations that write to the tables are methods that modify named fields of
it. Cart lines and order lines are sequences in primary-key order, so
`.first()` is taken to be the first line of the sequence; the ordering of
the cart-item table is not part of this model. Since a cart only ever holds
one store's products, any line gives the same store
(`StoreSerializers.CartStoreIsEveryLinesStore`). A cart is named by its user,
since `Cart.user` is one-to-one.

Modules, one per source file or concern:

- `Errors`: Option, Result and the raised errors.
- `StoreModels`: the entities, `Store.clean` and `Store.is_open`.
- `CartRows`: the row-level specification of the cart and the checkout.
- `Database`: the tables and their invariant.
- `StorePermissions`: store/permissions.py.
- `ViewPermissions`: the `get_permissions` rules.
- `StoreViews`: the state-changing views.
- `StoreSerializers`: the serializers.
- `StoreSignals`: the receivers.
- `StoreDeletion`: `Store.delete`.
- `CoreValidators` and `StoreValidators`: the two validator files.

Category and product names are compared exactly, as the name filters at
store/serializers.py:117 and :158 do, with no case folding.

## Model

| member | source | states |
|---|---|---|
| StoreViews.CreateCartItem | store/views.py:238-266 | an unknown product is a "product" validation error quoting the key and a missing cart a Cart.DoesNotExist, both leaving the table untouched; otherwise the table becomes `AddItemRows` of the old one, the table invariants (one line per cart and product, one store per cart) are kept, and the returned line is the cart's line for that product |
| CartRows.AddFromOtherStoreLeavesOnlyNewLine | store/views.py:247-266 | when the cart's first line is from another store than the new product, the cart afterwards holds exactly one line, the new product with the given quantity |
| CartRows.AddLineQuantity | store/views.py:258-266 | after the add the cart has exactly one line for the product; its quantity is the old quantity plus the given one when the line survived the clear, the given quantity otherwise |
| CartRows.AddLeavesOtherCartsAlone | store/views.py:247-266 | adding to one cart leaves every other cart's lines exactly as they were |
| CartRows.AddKeepsInvariants | store/views.py:247-266 | the add keeps one line per (cart, product), every line naming a product, and one store per cart |
| CartRows.UpsertInsertsOrIncrements | store/views.py:258-266 | with no line for (cart, product) one line with the given quantity is appended; otherwise only that line changes, its quantity increased by the given amount |
| CartRows.UpsertKeepsUniqueLines | store/migrations/0020_cartitem_unique_cart_product.py:13-16 | the upsert keeps the unique (cart, product) constraint |
| CartRows.FirstStore | store/views.py:249-252 | no store exactly when the cart has no line; otherwise the store of one of the cart's lines |
| CartRows.Upsert | store/views.py:258-266 | computes the `get_or_create` and increment; what it promises is stated by `UpsertInsertsOrIncrements` and `UpsertKeepsUniqueLines` |
| CartRows.ClearForStore | store/views.py:247-256 | when the cart's first line is from another store than the product the cart is left empty, otherwise the table is unchanged; other carts' lines are never touched |
| CartRows.AddItemRows | store/views.py:247-266 | computes the clear followed by the upsert; what it promises is stated by `AddFromOtherStoreLeavesOnlyNewLine`, `AddLineQuantity`, `AddLeavesOtherCartsAlone` and `AddKeepsInvariants` |
| CartRows.FindLine | store/views.py:259-263 | the position of the (cart, product) line, or none when there is no such line |
| CartRows.Select | store/views.py:247 | the result holds exactly the rows of (or not of) the cart and is no longer than the table; the order is fixed by `SelectAppend` |
| CartRows.SelectAppend | store/views.py:247 | filtering distributes over concatenation of tables, so the kept rows stay in table order |
| CartRows.SelectOfOtherCart | store/views.py:256 | deleting one cart's lines leaves every other cart's lines as they were |
| CartRows.SelectIgnoresUpdateInOtherCart | store/views.py:265-266 | changing a line of one cart leaves every other cart's lines as they were |
| CartRows.SelectKeepsUniqueLines | store/views.py:256 | deleting rows keeps the unique (cart, product) constraint |
| CartRows.WithoutCartIsEmptyForCart | store/views.py:352 | after deleting the cart's lines the cart has none |
| CartRows.TwoStoresExample | store/views.py:247-266 | a product of store A, then one of store B, leaves only the store-B line |
| CartRows.SameProductTwiceExample | store/views.py:258-266 | adding a product 2 then 3 times gives one line of quantity 5 |
| StoreViews.CreateOrder | store/views.py:313-352 | a missing cart is Cart.DoesNotExist, an empty cart the "cart" error "Your cart does not contain any items.", an unknown store a "store" error quoting the key, all changing nothing; otherwise one new order in status New with total `OrderTotal`, order items appended equal to `Snapshot` of the cart's lines, the cart's lines deleted and no other line touched, and the store row unchanged |
| StoreViews.SumCartItems | store/views.py:329-332 | the loop's sum equals `Subtotal`, the sum of price times quantity over the lines |
| StoreViews.SnapshotItems | store/views.py:340-348 | the loop's list equals `Snapshot`: one order item per line with its product, quantity and price times quantity |
| CartRows.Subtotal | store/views.py:330 | computes the sum of price times quantity; `StoreViews.SumCartItems` is proved equal to it and `SnapshotSumsToSubtotal` relates it to the order items |
| CartRows.DeliveryFee | store/views.py:325-327 | computes the fee an order pays; `TotalIsItemPricesPlusFee` states that a "Pick Up" order pays none |
| CartRows.OrderTotal | store/views.py:329-332 | computes total_price; `TotalIsItemPricesPlusFee` states it is the order items' prices plus the fee |
| CartRows.Snapshot | store/views.py:340-348 | as many order items as lines, item k copying line k's product and quantity with price_per_item = price x quantity |
| CartRows.SnapshotSumsToSubtotal | store/views.py:329-349 | the order items' price_per_item add up to the cart's subtotal |
| CartRows.TotalIsItemPricesPlusFee | store/views.py:325-349 | total_price = sum of price_per_item + delivery fee, and a "Pick Up" order pays no fee |
| CartRows.CheckoutExample | store/views.py:325-332 | 2 x 10.00 + 1 x 5.00 with a 3.00 fee gives 28.00 delivered and 25.00 picked up |
| StoreViews.UpdateOrderStatus | store/views.py:396-405 | a caller outside "Store Owner" gets "You must own a store!" and no order changes; an unknown order is Order.DoesNotExist; otherwise only that order's status changes, to the requested value whatever it was, and the result is the update e-mail of the saved order |
| StoreViews.RequestUser.GetUserGroups | store/views.py:81-87 | a cached set (even an empty one) is returned as is; otherwise the user's group names are read and cached |
| StoreViews.VisibleStores | store/views.py:51-57 | for a list or retrieve by a non-staff caller, exactly the live stores that have a product and are not the signed-in caller's own; every store otherwise |
| StoreViews.SignedInSeesAnonymousListMinusOwnStore | store/views.py:51-56 | a signed-in customer's list is the anonymous list minus the customer's own store (the one `Store.objects.get(user=...)` finds), and equal to it for a customer without a store |
| StoreViews.DeletedStoreIsHidden | store/views.py:51-57 | after a store is deleted it is visible to nobody, and every other store's visibility is unchanged, for every caller and action |
| ViewPermissions.StoreViewSetPermissions | store/views.py:59-74 | denied exactly for `my_store` without "Store Owner" and for create by staff or by a store owner, each with its message; otherwise create needs authentication, list and retrieve allow anyone, update and destroy need the owner or staff |
| ViewPermissions.CategoryViewSetPermissions | store/views.py:111-118 | denied exactly for create without "Store Owner"; updates and deletes need the category owner or staff |
| ViewPermissions.ProductViewSetPermissions | store/views.py:139-148 | denied exactly for create and `my_products` without "Store Owner"; list and retrieve allow anyone; updates and deletes need the product owner or staff |
| ViewPermissions.FeedbackViewSetPermissions | store/views.py:420-424 | denied exactly for list without "Store Owner", with a bare message |
| ViewPermissions.StoreOwnerOnly | store/views.py:384-386 | passes exactly for members of "Store Owner" |
| ViewPermissions.Grants | store/views.py:69-73 | computes whether the installed classes let a request through; what it promises is stated by `StoreCreateAllowedIff` and `StoreWriteAllowedIff` |
| ViewPermissions.StoreCreateAllowedIff | store/views.py:64-69 | a store can be created exactly by an authenticated, non-staff user who is not yet a store owner |
| ViewPermissions.StoreWriteAllowedIff | store/views.py:72-73 | a store can be updated or deleted exactly by its own user or by staff |
| ViewPermissions.OwnerActionsFollowGroup | store/views.py:59-148 | granting "Store Owner" opens `my_store`, category and product create; revoking it closes them, `my_products`, feedback list and the order actions |
| StorePermissions.HasPermission | store/permissions.py:5-19 | no queryset attribute returns False; a None queryset raises AttributeError; otherwise the method's entry in the method table decides, and a method outside it returns None |
| StorePermissions.RequiredPermission | store/permissions.py:12-19 | computes the if-chain; `RequiredPermissionIsTable` states that it agrees with the method table |
| StorePermissions.RequiredPermissionIsTable | store/permissions.py:12-19 | the if-chain requires "{app}.view/add/change/delete_{model}" for GET/POST/PUT and PATCH/DELETE and nothing for any other method |
| StorePermissions.PutAndPatchAgree | store/permissions.py:16-17 | PUT and PATCH need the same change permission |
| StorePermissions.CodenameInjective | store/permissions.py:12-19 | distinct actions never need the same permission string |
| StorePermissions.DeniedWithoutQuerysetOrKnownMethod | store/permissions.py:6-7 | a view without a queryset, or a method outside the table, is never let through |
| StorePermissions.IsStoreOwner | store/permissions.py:23-24 | granted exactly when the object's user is the requesting user |
| StoreModels.Clean | store/models.py:51-53 | fails exactly when opening and closing times are equal |
| StoreModels.IsOpen | store/models.py:55-67 | with distinct times, open exactly when the time since opening on the 24-hour clock is shorter than the window from opening to closing; with equal times, always open |
| StoreModels.SameDayWindow | store/models.py:60-63 | with opening before closing, open exactly when opening <= now < closing |
| StoreModels.OvernightWindow | store/models.py:64-67 | with opening after closing, open exactly when now >= opening or now < closing |
| StoreModels.ClockDistance | store/models.py:56-67 | the forward distance on a 24-hour clock, in [0, 86400), that takes the first time to the second |
| StoreModels.OpenIffWithinWindow | store/models.py:56-67 | with distinct times, open exactly when the time since opening is shorter than the window's length, in both branches |
| StoreModels.OvernightIsSwappedComplement | store/models.py:60-67 | an overnight window is the complement of the same-day window with the times swapped |
| StoreModels.OpenAtOpeningClosedAtClosing | store/models.py:56-67 | with distinct times the store is open at opening time and closed at closing time |
| StoreModels.EqualTimesAlwaysOpen | store/models.py:51-53 | equal times, which `clean` refuses, would make the store open at every time |
| StoreModels.OvernightExample | store/models.py:64-67 | 22:00-06:00 is open at 23:00 and closed at 12:00 |
| StoreDeletion.DeleteStore | store/models.py:46-49 | the store and its own address are deleted and nothing else of those tables; the owner leaves "Store Owner" when the group exists, the second revocation changing nothing |
| StoreDeletion.WithoutAddress | store/models.py:48 | the stores left are exactly those on another address, unchanged |
| StoreDeletion.CascadeRemovesOnlyTheStore | store/models.py:26 | since an address has one store, deleting the address deletes exactly that store |
| StoreSerializers.ValidateStore | store/serializers.py:51-73 | the "operating_hours" error exactly when both times are supplied and equal; else the "is_live" error exactly when going live is asked for an existing store with no product; else it passes |
| StoreSerializers.ValidateStoreMatchesClean | store/serializers.py:55-61 | with both times supplied, the hours check agrees with `Store.clean` |
| StoreSerializers.NewStoreGoesLiveUnchecked | store/serializers.py:64-71 | a store being created may ask to go live with no products |
| StoreSerializers.StoreOfUser | store/serializers.py:116 | the caller's store when there is one, Store.DoesNotExist otherwise |
| StoreSerializers.ValidateCategory | store/serializers.py:113-122 | Store.DoesNotExist without a store; the "name" error exactly when a category of the caller's store has the name; otherwise the caller's store, which the attributes then carry |
| StoreSerializers.CategoryResaveRejected | store/serializers.py:113-122 | saving an existing category under its own unchanged name is refused |
| StoreSerializers.ValidateCategoryExcluding | store/serializers.py:113-122 | as `ValidateCategory`, but the category being updated is not counted as a duplicate |
| StoreSerializers.CategoryResaveAccepted | store/serializers.py:113-122 | with the category itself excluded, saving it under its own name passes when no other category of the store has it, and creation behaves as written |
| StoreSerializers.ValidateProduct | store/serializers.py:153-166 | Store.DoesNotExist without a store; the "name" error exactly when another product of the caller's store, other than the one being updated, has the name; otherwise the caller's store |
| StoreSerializers.ProductResaveAccepted | store/serializers.py:159-161 | saving a product under its own name passes when no other product of its store has it |
| StoreSerializers.ProductNamePerStore | store/serializers.py:156-164 | a name used only in another store is allowed; a name of one of the caller's own products is refused for a new product |
| StoreSerializers.OverwriteSetsOnlySupplied | store/serializers.py:85-97 | after the assignments the supplied fields hold the supplied values, every other field keeps its value, and the field set is the old one plus the supplied |
| StoreSerializers.Update | store/serializers.py:85-97 | the store's address fields are overwritten by the supplied address data when any is supplied, then the store's fields by the other supplied data, and nothing else |
| StoreSerializers.CartStoreIsEveryLinesStore | store/serializers.py:302-308 | the cart shows a store exactly when it has lines, and that store is the store of every one of its lines |
| StoreSignals.CreateCartForNewUser | store/signals.py:11-17 | a created user gets exactly one new cart (a second one breaks the unique user column); a re-save creates none |
| StoreSignals.AddUserToStoreOwner | store/signals.py:20-27 | a created store adds its user to "Store Owner", keeping their other groups; a missing group raises Group.DoesNotExist; a re-save changes no groups |
| StoreSignals.RemoveUserFromStoreOwner | store/signals.py:30-39 | the store's user leaves "Store Owner", keeping their other groups; without that group nothing changes and no error escapes |
| StoreSignals.StatusMessage | store/signals.py:48-65 | a paragraph exactly for Accepted, Rejected, Out For Delivery, Ready For Pick Up and Completed |
| StoreSignals.OrderUpdateEmail | store/signals.py:42-83 | nothing on the save that creates the order or for a status that does not notify; otherwise an error exactly when the store (for a rejection), the cart or the user is missing, reported in that order, and else the subject "Order {status} on FoodVille", the status paragraph, and exactly the customer's address as recipient |
| StoreSignals.OnlyRejectionNamesTheStore | store/signals.py:56-65 | only the rejection paragraph depends on the store's name, and it contains it (different names give different paragraphs) |
| CoreValidators.Age | core/validators.py:8-12 | the number of whole years: the birth date's age-th anniversary is on or before today and the next one is after it |
| CoreValidators.AnniversaryMonotonic | core/validators.py:8-12 | anniversaries move forward with the year count |
| CoreValidators.AgeIsWholeYears | core/validators.py:8-12 | the age is the only year count with that property |
| CoreValidators.ValidateAge | core/validators.py:6-14 | fails exactly when the age is under 13, with the underage message |
| CoreValidators.ValidateAgeIffThirteenthBirthday | core/validators.py:6-14 | passes exactly when the 13th birthday is on or before today |
| CoreValidators.ThirteenthBirthdayAccepted | core/validators.py:8-14 | born exactly 13 years before today: accepted |
| CoreValidators.DayBeforeThirteenthBirthdayRejected | core/validators.py:8-14 | born 13 years back but with the birthday later in the year: rejected |
| CoreValidators.AgeAntitone | core/validators.py:8-12 | for a fixed today an earlier birth date never gives a smaller age |
| StoreValidators.IsDigitString | store/validators.py:7 | true exactly for a non-empty string of digits |
| StoreValidators.ValidateMobileNumber | store/validators.py:6-8 | passes exactly for a non-empty all-digit string; fails with the digits-only message otherwise |
| StoreValidators.NonDigitRejected | store/validators.py:7-8 | a non-digit anywhere makes the number fail |
| StoreValidators.ConcatenationAccepted | store/validators.py:7 | two accepted numbers concatenated are accepted |
| StoreValidators.Examples | store/validators.py:7-8 | leading zeros pass; the empty string, a '+' prefix and a space fail |

## Left out

- The e-mail body beyond the status paragraph: the greeting, order id and `Decimal` amount formatting. Sending the mail is I/O.
- The clock: `datetime.now()` and `date.today()` are parameters.
- Image files: the file deletion in `Store.delete` and the image size validator.
- `print` in the checkout, HTTP responses, status codes and response serializers.
- ORM plumbing: prefetching, annotations and query ordering, other than the primary-key order `.first()` relies on.
- The rating average: it is floating point.
- Concurrency: the operations are sequential. Only the upsert runs in a transaction in the source, and no atomicity is claimed.
- The models of Cart, CartItem, Order, OrderItem, Feedback and Group are not part of this model. Their fields are the ones the views and serializers use, and the order statuses are New, Accepted, Preparing Order, Out For Delivery, Ready For Pick Up, Completed and Rejected. A new order starts as New.
- `Store.email` and `Store.is_live` are used by the serializers and views but are not in the models file; they are plain fields here.
- `IsCartItemOwner`, `IsCategoryOwner` and `IsProductOwner` are imported by the views but not defined. The model only records which of them an action installs, as `OwnerOrAdmin`. Whether the owner check passes is a parameter of `ViewPermissions.Grants`, and so is the verdict of the project's default permission classes.
- The cascade of a store deletion to its categories and products: the on-delete rules of the cart and order tables that refer to products are not part of this model.
- `StoreSerializer.create` with no address: it would fail on an unbound variable and is not modelled.
- `cart_item_count` in the cart representation comes from an annotation outside the serializer and is not modelled.
- Field validation the framework does before the views run: types, required fields, and the choice of a valid status.
- The widths of the decimal fields: a product price is below 10^8 cents (store/models.py:95) and a delivery fee below 10^5 cents (store/models.py:36); the framework enforces both on input. The model's amounts are unbounded integers, and it does not model the width of `total_price`.
- The primary key quoted in the "Invalid pk" message is the one the request submitted; the model renders the looked-up key in decimal.
- StoreViews.UpdateOrderStatus: checks only the group, as the source does. It does not check that the order belongs to the caller's store.
- StoreSerializers.Update: `save()` persists the instance; the model stops at the instance's fields. The re-save's signal changes no groups, by `StoreSignals.AddUserToStoreOwner` with `created` false.
- StorePermissions.HasPermission: `hasattr(view, "queryset")` is true for a queryset of None, and that call raises AttributeError; it is modelled as that error.
- StoreValidators.IsDigitString: ASCII digits only; Python's `isdigit` also accepts other Unicode digits.

## Findings

| source | as written | input that shows it | evidently intended | confidence | as-written member | corrected member |
|---|---|---|---|---|---|---|
| store/serializers.py:113-122 | the duplicate-name search counts the category being updated | a PUT on an existing category that keeps its name is refused with "A category with that name already exists in your store" | exclude the instance being updated from the search, as the product serializer does (store/serializers.py:159-160) | medium, not executed | StoreSerializers.CategoryResaveRejected | StoreSerializers.CategoryResaveAccepted |
