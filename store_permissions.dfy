/** The permission classes of store/permissions.py. */
module StorePermissions {
  import opened Errors
  import opened StoreModels

  /** `queryset.model._meta`: the app label and model name. */
  datatype ModelMeta = ModelMeta(appLabel: string, modelName: string)

  /** What a view offers `has_permission`: no `queryset` attribute at all,
      or one that holds a queryset (Some) or None. */
  datatype View = WithoutQuerysetAttribute | WithQueryset(queryset: Option<ModelMeta>)

  /** The four model permissions Django creates per model. */
  datatype CrudAction = ViewRows | AddRows | ChangeRows | DeleteRows

  function ActionPrefix(a: CrudAction): string {
    match a
    case ViewRows => "view"
    case AddRows => "add"
    case ChangeRows => "change"
    case DeleteRows => "delete"
  }

  /** The permission string "{app}.{action}_{model}". */
  function Codename(meta: ModelMeta, a: CrudAction): string {
    meta.appLabel + "." + ActionPrefix(a) + "_" + meta.modelName
  }

  /** The capability table: which model permission each HTTP method needs. */
  const MethodActions: map<string, CrudAction> :=
    map["GET" := ViewRows, "POST" := AddRows, "PUT" := ChangeRows, "PATCH" := ChangeRows, "DELETE" := DeleteRows]

  /** The if-chain of `has_permission`: the permission string a method
      requires, or None when the chain falls through. */
  function RequiredPermission(httpMethod: string, meta: ModelMeta): Option<string> {
    if httpMethod == "GET" then Some(meta.appLabel + ".view_" + meta.modelName)
    else if httpMethod == "POST" then Some(meta.appLabel + ".add_" + meta.modelName)
    else if httpMethod in ["PUT", "PATCH"] then Some(meta.appLabel + ".change_" + meta.modelName)
    else if httpMethod == "DELETE" then Some(meta.appLabel + ".delete_" + meta.modelName)
    else None
  }

  /** `GenericModelCRUDPermission.has_permission`. `granted` is the set of
      permission strings `user.has_perm` accepts. The result is the Python
      return value: Some(b) for a boolean, None when the body falls off its
      end, or the error a `None` queryset raises. */
  function HasPermission(view: View, httpMethod: string, granted: set<string>): (r: Result<Option<bool>>)
    ensures view.WithoutQuerysetAttribute? ==> r == Ok(Some(false))
    ensures view == WithQueryset(None) ==> r == Err(AttributeError("model"))
    ensures view.WithQueryset? && view.queryset.Some? ==>
      r == Ok(if httpMethod in MethodActions then Some(Codename(view.queryset.value, MethodActions[httpMethod]) in granted) else None)
  {
    match view
    case WithoutQuerysetAttribute => Ok(Some(false))
    case WithQueryset(None) => Err(AttributeError("model"))
    case WithQueryset(Some(meta)) =>
      RequiredPermissionIsTable(httpMethod, meta);
      match RequiredPermission(httpMethod, meta)
      case Some(p) => Ok(Some(p in granted))
      case None => Ok(None)
  }

  /** DRF lets the request through only on a truthy return. */
  predicate Permits(r: Result<Option<bool>>) {
    r == Ok(Some(true))
  }

  /** The if-chain agrees with the capability table. */
  lemma RequiredPermissionIsTable(httpMethod: string, meta: ModelMeta)
    ensures RequiredPermission(httpMethod, meta) ==
      if httpMethod in MethodActions then Some(Codename(meta, MethodActions[httpMethod])) else None
  {
    // the chain spells "{app}" + ".verb_" + "{model}", the table "{app}" + "." + "verb" + "_" + "{model}"
    var app, model := meta.appLabel, meta.modelName;
    assert app + "." + "view" + "_" == app + ".view_";
    assert app + "." + "add" + "_" == app + ".add_";
    assert app + "." + "change" + "_" == app + ".change_";
    assert app + "." + "delete" + "_" == app + ".delete_";
  }

  /** PUT and PATCH need the same permission. */
  lemma PutAndPatchAgree(meta: ModelMeta)
    ensures RequiredPermission("PUT", meta) == RequiredPermission("PATCH", meta) == Some(Codename(meta, ChangeRows))
  {
    RequiredPermissionIsTable("PUT", meta);
    RequiredPermissionIsTable("PATCH", meta);
  }

  /** Distinct actions never share a permission string. */
  lemma CodenameInjective(meta: ModelMeta, a: CrudAction, b: CrudAction)
    requires Codename(meta, a) == Codename(meta, b)
    ensures a == b
  {
    var k := |meta.appLabel| + 1;
    assert Codename(meta, a)[k] == ActionPrefix(a)[0];
    assert Codename(meta, b)[k] == ActionPrefix(b)[0];
  }

  /** A view without a queryset, or a method outside the table, is denied. */
  lemma DeniedWithoutQuerysetOrKnownMethod(view: View, httpMethod: string, granted: set<string>)
    requires view.WithoutQuerysetAttribute? || httpMethod !in MethodActions
    ensures !Permits(HasPermission(view, httpMethod, granted))
  {
  }

  /** `IsStoreOwner.has_object_permission`: the object's user is the caller. */
  function IsStoreOwner(objectUser: UserId, requestUser: UserId): (b: bool)
    ensures b <==> objectUser == requestUser
  {
    objectUser == requestUser
  }
}
