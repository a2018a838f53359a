/** The signal receivers of store/signals.py: the cart every new user gets,
    the "Store Owner" group that follows store creation and deletion, and
    the choice of the e-mail an order update sends. */
module StoreSignals {
  import opened Errors
  import opened StoreModels
  import opened Database

  /** `create_cart_for_new_user`, run after a user is saved. The cart's
      one-to-one user column rejects a second cart for the same user. */
  method CreateCartForNewUser(db: Db, user: UserId, created: bool) returns (o: Outcome)
    requires db.Valid()
    modifies db`carts
    ensures db.Valid()
    ensures !created ==> o == Pass && db.carts == old(db.carts)
    ensures created && user !in old(db.carts) ==> o == Pass && db.carts == old(db.carts) + {user}
    ensures created && user in old(db.carts) ==> o == Fail(IntegrityError("cart.user")) && db.carts == old(db.carts)
  {
    o := Pass;
    if created {
      if user in db.carts {
        o := Fail(IntegrityError("cart.user"));
      } else {
        db.carts := db.carts + {user};
      }
    }
  }

  /** `add_user_to_store_owner`, run after a store is saved. A missing
      group row raises Group.DoesNotExist, which is not caught. */
  method AddUserToStoreOwner(db: Db, store: Store, created: bool) returns (o: Outcome)
    requires db.Valid()
    modifies db`memberships
    ensures db.Valid()
    ensures !created ==> o == Pass && db.memberships == old(db.memberships)
    ensures created && StoreOwnerGroup !in db.groups ==>
      o == Fail(DoesNotExist("Group")) && db.memberships == old(db.memberships)
    ensures created && StoreOwnerGroup in db.groups ==>
      o == Pass && db.memberships == old(db.memberships)[store.user := old(db.GroupsOf(store.user)) + {StoreOwnerGroup}]
  {
    o := Pass;
    if created {
      if StoreOwnerGroup !in db.groups {
        o := Fail(DoesNotExist("Group"));
      } else {
        db.memberships := db.memberships[store.user := db.GroupsOf(store.user) + {StoreOwnerGroup}];
      }
    }
  }

  /** `remove_user_to_store_owner`, run after a store is deleted. A missing
      group row is caught and nothing changes; no error escapes. */
  method RemoveUserFromStoreOwner(db: Db, store: Store)
    requires db.Valid()
    modifies db`memberships
    ensures db.Valid()
    ensures StoreOwnerGroup !in db.groups ==> db.memberships == old(db.memberships)
    ensures StoreOwnerGroup in db.groups ==>
      db.memberships == old(db.memberships)[store.user := old(db.GroupsOf(store.user)) - {StoreOwnerGroup}]
  {
    if StoreOwnerGroup in db.groups {
      db.memberships := db.memberships[store.user := db.GroupsOf(store.user) - {StoreOwnerGroup}];
    }
  }

  // ---- the order-update e-mail ----

  /** The parts of the e-mail this model fixes: its subject, the status
      paragraph, and the recipient list. */
  datatype Email = Email(subject: string, statusMessage: string, recipients: seq<string>)

  /** The statuses an update notifies the customer of. */
  predicate Notifies(s: Status) {
    s == Accepted || s == Rejected || s == OutForDelivery || s == ReadyForPickUp || s == Completed
  }

  const AcceptedMessage := "We're happy to inform you that your order has been accepted and is being processed."
  const RejectedPrefix := "Unfortunately, your order has been rejected. Please contact reach out to "
  const RejectedSuffix := " any questions."
  const OutForDeliveryMessage := "Good news! Your order is out for delivery and will be with you soon."
  const ReadyForPickUpMessage := "Your order is ready for pick-up! Please collect it at your specified pick-up schedule."
  const CompletedMessage := "Your order has been successfully completed. We hope you enjoy your meal!"

  /** The status paragraph the if/elif chain picks, or None for a status
      that sends nothing. */
  function StatusMessage(s: Status, storeName: string): (m: Option<string>)
    ensures m.Some? <==> Notifies(s)
  {
    match s
    case Accepted => Some(AcceptedMessage)
    case Rejected => Some(RejectedPrefix + storeName + RejectedSuffix)
    case OutForDelivery => Some(OutForDeliveryMessage)
    case ReadyForPickUp => Some(ReadyForPickUpMessage)
    case Completed => Some(CompletedMessage)
    case _ => None
  }

  /** The e-mail's subject line. */
  function Subject(s: Status): string {
    "Order " + StatusName(s) + " on FoodVille"
  }

  /** `send_email_on_order_update`: the e-mail sent after `order` is saved,
      if any. The store name is looked up only for a rejection, and the
      customer (the cart's user) for every notifying status. */
  function OrderUpdateEmail(order: Order, created: bool, stores: map<StoreId, Store>, carts: set<UserId>, users: map<UserId, User>): (r: Result<Option<Email>>)
    ensures created || !Notifies(order.status) ==> r == Ok(None)
    ensures r.Ok? && r.value.Some? ==>
      !created && order.cart in users &&
      r.value.value.subject == Subject(order.status) &&
      r.value.value.recipients == [users[order.cart].email] &&
      Some(r.value.value.statusMessage) == StatusMessage(order.status, if order.store in stores then stores[order.store].name else "")
    ensures !created && Notifies(order.status) ==>
      (r.Err? <==> (order.status == Rejected && order.store !in stores) || order.cart !in carts || order.cart !in users)
    ensures !created && Notifies(order.status) && r.Ok? ==> r.value.Some?
    // the lookups fail in the order the source makes them: the store, then the cart, then the user
    ensures !created && order.status == Rejected && order.store !in stores ==> r == Err(DoesNotExist("Store"))
    ensures (!created && Notifies(order.status) && !(order.status == Rejected && order.store !in stores) &&
             order.cart !in carts) ==> r == Err(DoesNotExist("Cart"))
    ensures (!created && Notifies(order.status) && !(order.status == Rejected && order.store !in stores) &&
             order.cart in carts && order.cart !in users) ==> r == Err(DoesNotExist("User"))
  {
    if created || !Notifies(order.status) then Ok(None)
    else if order.status == Rejected && order.store !in stores then Err(DoesNotExist("Store"))
    else
      var storeName := if order.status == Rejected then stores[order.store].name else "";
      if order.cart !in carts then Err(DoesNotExist("Cart"))
      else if order.cart !in users then Err(DoesNotExist("User"))
      else Ok(Some(Email(Subject(order.status), StatusMessage(order.status, storeName).value, [users[order.cart].email])))
  }

  /** Only the rejection paragraph depends on the store's name, and it
      names it: different names give different paragraphs. */
  lemma OnlyRejectionNamesTheStore(s: Status, name1: string, name2: string)
    ensures s != Rejected ==> StatusMessage(s, name1) == StatusMessage(s, name2)
    ensures s == Rejected && name1 != name2 ==> StatusMessage(s, name1) != StatusMessage(s, name2)
    ensures s == Rejected ==>
      StatusMessage(s, name1).value[|RejectedPrefix|..|RejectedPrefix| + |name1|] == name1
  {
    var m1 := RejectedPrefix + name1 + RejectedSuffix;
    var m2 := RejectedPrefix + name2 + RejectedSuffix;
    assert m1[|RejectedPrefix|..|RejectedPrefix| + |name1|] == name1;
    assert m2[|RejectedPrefix|..|RejectedPrefix| + |name2|] == name2;
  }
}
