/** The `get_permissions` rules of the viewsets in store/views.py: for each
    action, the PermissionDenied a viewset raises or the permission classes
    it installs, and what those classes grant. */
module ViewPermissions {
  import opened Errors
  import opened StoreModels
  import StorePermissions

  /** The viewset actions the rules mention. */
  datatype Action =
    | List | Retrieve | Create | Update | PartialUpdate | Destroy
    | MyStore | MyProducts | MyOrders | MyStoreOrders | UpdateOrderStatus

  /** The owner permission class an update or delete is checked with. */
  datatype OwnerClass = StoreOwnerClass | CategoryOwnerClass | ProductOwnerClass

  /** The permission classes a viewset ends up with: the project default,
      AllowAny, IsAuthenticated, or "owner | IsAdminUser". */
  datatype Policy = DefaultClasses | AllowAnyClass | IsAuthenticatedClass | OwnerOrAdmin(owner: OwnerClass)

  /** The caller: a user id when authenticated, and the staff flag. */
  datatype Requester = Requester(user: Option<UserId>, isStaff: bool)

  const MustOwnStore := "You must own a store!"
  const AdminsCannotCreate := "Admins cannot create a store!"
  const AlreadyOwner := "You're already a store owner!"

  predicate IsWrite(action: Action) {
    action == PartialUpdate || action == Update || action == Destroy
  }

  predicate IsRead(action: Action) {
    action == List || action == Retrieve
  }

  /** `StoreViewSet.get_permissions`. */
  function StoreViewSetPermissions(action: Action, isStaff: bool, groups: set<string>): (r: Result<Policy>)
    ensures r.Err? <==>
      (action == MyStore && StoreOwnerGroup !in groups) ||
      (action == Create && (isStaff || StoreOwnerGroup in groups))
    ensures action == MyStore && StoreOwnerGroup !in groups ==> r == Err(PermissionDenied("store", MustOwnStore))
    ensures action == Create && isStaff ==> r == Err(PermissionDenied("store", AdminsCannotCreate))
    ensures action == Create && !isStaff && StoreOwnerGroup in groups ==> r == Err(PermissionDenied("store", AlreadyOwner))
    ensures r.Ok? && action == Create ==> r.value == IsAuthenticatedClass
    ensures r.Ok? && IsRead(action) ==> r.value == AllowAnyClass
    ensures r.Ok? && IsWrite(action) ==> r.value == OwnerOrAdmin(StoreOwnerClass)
  {
    if action == MyStore && StoreOwnerGroup !in groups then Err(PermissionDenied("store", MustOwnStore))
    else if action == Create && isStaff then Err(PermissionDenied("store", AdminsCannotCreate))
    else if action == Create && StoreOwnerGroup in groups then Err(PermissionDenied("store", AlreadyOwner))
    else if action == Create then Ok(IsAuthenticatedClass)
    else if IsRead(action) then Ok(AllowAnyClass)
    else if IsWrite(action) then Ok(OwnerOrAdmin(StoreOwnerClass))
    else Ok(DefaultClasses)
  }

  /** `CategoryViewSet.get_permissions`. */
  function CategoryViewSetPermissions(action: Action, groups: set<string>): (r: Result<Policy>)
    ensures r.Err? <==> action == Create && StoreOwnerGroup !in groups
    ensures r.Err? ==> r.error == PermissionDenied("store", MustOwnStore)
    ensures r.Ok? && IsWrite(action) ==> r.value == OwnerOrAdmin(CategoryOwnerClass)
    ensures r.Ok? && !IsWrite(action) ==> r.value == DefaultClasses
  {
    if action == Create && StoreOwnerGroup !in groups then Err(PermissionDenied("store", MustOwnStore))
    else if IsWrite(action) then Ok(OwnerOrAdmin(CategoryOwnerClass))
    else Ok(DefaultClasses)
  }

  /** `ProductViewSet.get_permissions`. */
  function ProductViewSetPermissions(action: Action, groups: set<string>): (r: Result<Policy>)
    ensures r.Err? <==> (action == Create || action == MyProducts) && StoreOwnerGroup !in groups
    ensures r.Err? ==> r.error == PermissionDenied("store", MustOwnStore)
    ensures r.Ok? && IsRead(action) ==> r.value == AllowAnyClass
    ensures r.Ok? && IsWrite(action) ==> r.value == OwnerOrAdmin(ProductOwnerClass)
    ensures r.Ok? && !IsRead(action) && !IsWrite(action) ==> r.value == DefaultClasses
  {
    if (action == Create || action == MyProducts) && StoreOwnerGroup !in groups then
      Err(PermissionDenied("store", MustOwnStore))
    else if IsRead(action) then Ok(AllowAnyClass)
    else if IsWrite(action) then Ok(OwnerOrAdmin(ProductOwnerClass))
    else Ok(DefaultClasses)
  }

  /** `FeedbackViewSet.get_permissions`: a bare message, so the error's
      field is DRF's "detail". */
  function FeedbackViewSetPermissions(action: Action, groups: set<string>): (r: Result<Policy>)
    ensures r.Err? <==> action == List && StoreOwnerGroup !in groups
    ensures r.Err? ==> r.error == PermissionDenied("detail", MustOwnStore)
    ensures r.Ok? ==> r.value == DefaultClasses
  {
    if action == List && StoreOwnerGroup !in groups then Err(PermissionDenied("detail", MustOwnStore))
    else Ok(DefaultClasses)
  }

  /** The check at the top of `my_store_orders` and `update_order_status`. */
  function StoreOwnerOnly(groups: set<string>): (o: Outcome)
    ensures o.Pass? <==> StoreOwnerGroup in groups
    ensures o.Fail? ==> o.error == PermissionDenied("store", MustOwnStore)
  {
    if StoreOwnerGroup !in groups then Fail(PermissionDenied("store", MustOwnStore)) else Pass
  }

  /** Whether installed permission classes let the request through.
      `ownsObject` is the owner class's object check and `defaultGrants`
      the verdict of the project's default classes, which are not part of
      this model. "owner | IsAdminUser" passes the view-level check (the
      owner class has no view-level rule) and, on the object, passes the
      owner or a staff user. */
  function Grants(policy: Policy, requester: Requester, ownsObject: bool, defaultGrants: bool): bool {
    match policy
    case DefaultClasses => defaultGrants
    case AllowAnyClass => true
    case IsAuthenticatedClass => requester.user.Some?
    case OwnerOrAdmin(_) => ownsObject || requester.isStaff
  }

  /** A store can be created exactly by an authenticated user who is
      neither staff nor already a store owner. */
  lemma StoreCreateAllowedIff(requester: Requester, groups: set<string>, defaultGrants: bool)
    ensures var d := StoreViewSetPermissions(Create, requester.isStaff, groups);
      (d.Ok? && Grants(d.value, requester, false, defaultGrants)) <==>
      (requester.user.Some? && !requester.isStaff && StoreOwnerGroup !in groups)
  {
  }

  /** A store can be changed or deleted exactly by its user or by staff. */
  lemma StoreWriteAllowedIff(action: Action, requester: Requester, groups: set<string>, store: Store, defaultGrants: bool)
    requires IsWrite(action)
    ensures var owns := requester.user.Some? && StorePermissions.IsStoreOwner(store.user, requester.user.value);
      var d := StoreViewSetPermissions(action, requester.isStaff, groups);
      (d.Ok? && Grants(d.value, requester, owns, defaultGrants)) <==>
      (requester.user == Some(store.user) || requester.isStaff)
  {
  }

  /** The owner-only actions all turn on the one group: granting it opens
      them and revoking it closes them again. */
  lemma OwnerActionsFollowGroup(groups: set<string>, isStaff: bool)
    ensures CategoryViewSetPermissions(Create, groups + {StoreOwnerGroup}).Ok?
    ensures CategoryViewSetPermissions(Create, groups - {StoreOwnerGroup}).Err?
    ensures ProductViewSetPermissions(Create, groups + {StoreOwnerGroup}).Ok?
    ensures ProductViewSetPermissions(Create, groups - {StoreOwnerGroup}).Err?
    ensures ProductViewSetPermissions(MyProducts, groups - {StoreOwnerGroup}).Err?
    ensures StoreViewSetPermissions(MyStore, isStaff, groups + {StoreOwnerGroup}).Ok?
    ensures StoreViewSetPermissions(MyStore, isStaff, groups - {StoreOwnerGroup}).Err?
    ensures FeedbackViewSetPermissions(List, groups - {StoreOwnerGroup}).Err?
    ensures StoreOwnerOnly(groups - {StoreOwnerGroup}).Fail?
  {
  }
}
