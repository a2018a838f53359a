/** `Store.delete` (store/models.py): the store's address is deleted, which
    cascades to the store row, and then the store itself is deleted; each
    of the two deletions sends `post_delete` for the store, so the owner's
    "Store Owner" membership is revoked twice. */
module StoreDeletion {
  import opened StoreModels
  import opened Database
  import StoreSignals

  /** The stores left after deleting address `a`: those on another address. */
  function WithoutAddress(stores: map<StoreId, Store>, a: AddressId): (r: map<StoreId, Store>)
    ensures forall s :: s in r <==> s in stores && stores[s].address != a
    ensures forall s :: s in r ==> r[s] == stores[s]
  {
    map s | s in stores && stores[s].address != a :: stores[s]
  }

  /** Deleting the store on an address removes exactly that store. */
  lemma CascadeRemovesOnlyTheStore(stores: map<StoreId, Store>, id: StoreId)
    requires OneStorePerAddress(stores) && id in stores
    ensures WithoutAddress(stores, stores[id].address) == stores - {id}
  {
    var r := WithoutAddress(stores, stores[id].address);
    assert r.Keys == (stores - {id}).Keys;
  }

  /** `Store.delete` on the loaded store `id`: the address and the store
      are gone, every other address and store is kept, and the owner is no
      longer a member of "Store Owner" (when that group exists). */
  method DeleteStore(db: Db, id: StoreId)
    requires db.Valid() && id in db.stores
    modifies db`addresses, db`stores, db`memberships
    ensures db.Valid()
    ensures db.addresses == old(db.addresses) - {old(db.stores)[id].address}
    ensures db.stores == old(db.stores) - {id}
    ensures StoreOwnerGroup !in db.groups ==> db.memberships == old(db.memberships)
    ensures StoreOwnerGroup in db.groups ==>
      var owner := old(db.stores)[id].user;
      db.memberships == old(db.memberships)[owner := old(db.GroupsOf(owner)) - {StoreOwnerGroup}]
  {
    var store := db.stores[id];
    // the image file is deleted first; files are not modelled
    // self.address.delete(): the address row, then the store row on it
    db.addresses := db.addresses - {store.address};
    CascadeRemovesOnlyTheStore(db.stores, id);
    db.stores := WithoutAddress(db.stores, store.address);
    StoreSignals.RemoveUserFromStoreOwner(db, store);
    // super().delete(): the row is already gone, but the signal is sent again
    db.stores := db.stores - {id};
    ghost var once := db.memberships;
    if StoreOwnerGroup in db.groups {
      assert store.user in once && db.GroupsOf(store.user) - {StoreOwnerGroup} == once[store.user];
    }
    // revoking a second time changes nothing
    StoreSignals.RemoveUserFromStoreOwner(db, store);
    assert db.memberships == once;
  }
}
