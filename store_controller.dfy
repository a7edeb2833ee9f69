/**
 * The store routes: a caller opening their one store, renaming it, and an
 * administrator listing stores and deciding on their approval.
 */
module StoreController {
  import opened Wrappers
  import opened Common
  import opened Strings
  import opened StoreModel
  import opened UserModel
  import opened Database

  /** The reply and the two collections a store-opening route leaves. */
  datatype Registry = Registry(reply: Reply<Store>, stores: seq<Store>, users: seq<User>)

  /** The reply and the stores a store-editing route leaves. */
  datatype StoreEdit = StoreEdit(reply: Reply<Store>, stores: seq<Store>)

  const AlreadyHaveStore: string := "You already have a store"
  const ServerError: string := "Server error"
  const NotAuthorized: string := "Not authorized"

  // ---------------------------------------------------------------- createStore

  /** `User.findByIdAndUpdate(id, { role: "seller", store })`; `sellerStatus` is not a user path. */
  function LinkSeller(users: seq<User>, id: Id, store: Id): seq<User> {
    match FindUser(users, id)
    case None => users
    case Some(k) => users[k := users[k].(role := Seller, store := Some(store))]
  }

  /** `createStore`; an absent `name` or `description` reaches `Store.create` as a missing required path. */
  function CreateStoreSpec(stores: seq<Store>, users: seq<User>, caller: Id, name: Option<string>,
                           description: Option<string>, newId: Id): Registry {
    if FindStoreOf(stores, caller).Some? then Registry(Err(400, AlreadyHaveStore), stores, users)
    else
      match NewStore(newId, caller, name.GetOr(""), description.GetOr(""), None, None, None)
      case None => Registry(Err(500, ServerError), stores, users)
      case Some(s) => Registry(Ok(201, s), stores + [s], LinkSeller(users, caller, newId))
  }

  /**
   * A caller who already owns a store is refused and nothing is written; a
   * blank name or description fails validation and nothing is written; the
   * collections change only on a 201.
   */
  lemma CreateStoreRejections(stores: seq<Store>, users: seq<User>, caller: Id, name: Option<string>,
                              description: Option<string>, newId: Id)
    ensures var r := CreateStoreSpec(stores, users, caller, name, description, newId);
            && (FindStoreOf(stores, caller).Some? ==> r.reply == Err(400, AlreadyHaveStore))
            && (r.reply.Err? <==> FindStoreOf(stores, caller).Some? || Trim(name.GetOr("")) == []
                                  || Trim(description.GetOr("")) == [])
            && (r.reply.Err? ==> r.stores == stores && r.users == users)
  {
  }

  /**
   * A created store is pending, inactive, with zero rating, sales and
   * balance, owned by the caller and appended to the stores; the caller (when
   * present) becomes a seller linked to it, and every other user is unchanged.
   * One store per owner is kept.
   */
  lemma CreatedStore(stores: seq<Store>, users: seq<User>, caller: Id, name: Option<string>,
                     description: Option<string>, newId: Id)
    requires StoresValid(stores) && forall k :: 0 <= k < |stores| ==> stores[k].id != newId
    ensures var r := CreateStoreSpec(stores, users, caller, name, description, newId);
            && StoresValid(r.stores)
            && (r.reply.Ok? ==>
                  && r.reply.code == 201 && r.stores == stores + [r.reply.data]
                  && r.reply.data.id == newId && r.reply.data.owner == caller
                  && r.reply.data.status == StorePending && !r.reply.data.isActive
                  && r.reply.data.rating == 0.0 && r.reply.data.totalRatings == 0
                  && r.reply.data.totalSales == 0 && r.reply.data.balance == 0
                  && r.users == LinkSeller(users, caller, newId))
  {
    if FindStoreOf(stores, caller).None? {
      var ns := NewStore(newId, caller, name.GetOr(""), description.GetOr(""), None, None, None);
      if ns.Some? {
        StoresValidAppend(stores, ns.value);
      }
    }
  }

  /**
   * The seller link changes only the caller's record, making it a seller
   * linked to the store; every other user, id and email is unchanged.
   */
  lemma LinkSellerEffects(users: seq<User>, id: Id, store: Id)
    ensures var r := LinkSeller(users, id, store);
            && |r| == |users|
            && (FindUser(users, id).None? ==> r == users)
            && (FindUser(users, id).Some? ==>
                  var j := FindUser(users, id).value;
                  && r[j] == users[j].(role := Seller, store := Some(store))
                  && forall k :: 0 <= k < |users| && k != j ==> r[k] == users[k])
    ensures UsersValid(users) ==> UsersValid(LinkSeller(users, id, store))
  {
    match FindUser(users, id)
    case None =>
    case Some(k) =>
      if UsersValid(users) {
        UsersValidUpdate(users, k, users[k].(role := Seller, store := Some(store)));
      }
  }

  /** `createStore` on the collections. */
  method CreateStore(db: Db, caller: Id, name: Option<string>, description: Option<string>, newId: Id)
    returns (reply: Reply<Store>)
    requires db.Valid()
    requires forall k :: 0 <= k < |db.stores| ==> db.stores[k].id != newId
    modifies db
    ensures db.Valid()
    ensures var r := CreateStoreSpec(old(db.stores), old(db.users), caller, name, description, newId);
            reply == r.reply && db.stores == r.stores && db.users == r.users
    ensures db.products == old(db.products) && db.orders == old(db.orders) && db.carts == old(db.carts)
  {
    CreatedStore(db.stores, db.users, caller, name, description, newId);
    var existing := FindStoreOf(db.stores, caller);
    if existing.Some? {
      return Err(400, AlreadyHaveStore);
    }
    var store := NewStore(newId, caller, name.GetOr(""), description.GetOr(""), None, None, None);
    if store.None? {
      return Err(500, ServerError);
    }
    db.stores := db.stores + [store.value];
    var k := FindUser(db.users, caller);
    if k.Some? {
      var user := db.users[k.value];
      UsersValidUpdate(db.users, k.value, user.(role := Seller, store := Some(newId)));
      db.users := db.users[k.value := user.(role := Seller, store := Some(newId))];
    }
    reply := Ok(201, store.value);
  }

  // ---------------------------------------------------------------- updateStore

  /** `store.name = name || store.name` and the same for `description`, through the `trim` setters. */
  function Renamed(s: Store, name: Option<string>, description: Option<string>): Store {
    s.(name := Trim(if Truthy(name) then name.value else s.name),
       description := Trim(if Truthy(description) then description.value else s.description))
  }

  /** `updateStore` on the caller's store. */
  function UpdateStoreSpec(stores: seq<Store>, caller: Id, name: Option<string>, description: Option<string>)
    : StoreEdit {
    match FindStoreOf(stores, caller)
    case None => StoreEdit(Err(404, "Store not found"), stores)
    case Some(k) =>
      var s := Renamed(stores[k], name, description);
      if StoreValid(s) then StoreEdit(Ok(200, s), stores[k := s]) else StoreEdit(Err(500, ServerError), stores)
  }

  /**
   * A supplied non-empty text replaces the old one (trimmed) and an absent or
   * empty one keeps it; nothing else changes, and the result fails
   * validation exactly when a supplied non-empty text trims to nothing.
   */
  lemma RenamedEffects(s: Store, name: Option<string>, description: Option<string>)
    requires StoreValid(s) && StoreTrimmed(s)
    ensures var t := Renamed(s, name, description);
            && t == s.(name := t.name, description := t.description)
            && t.name == (if Truthy(name) then Trim(name.value) else s.name)
            && t.description == (if Truthy(description) then Trim(description.value) else s.description)
            && StoreTrimmed(t)
            && (StoreValid(t) <==> !(Truthy(name) && Trim(name.value) == [])
                                   && !(Truthy(description) && Trim(description.value) == []))
  {
    var n := Trim(if Truthy(name) then name.value else s.name);
    var d := Trim(if Truthy(description) then description.value else s.description);
    OrKeepTrimmed(s.name, name);
    OrKeepTrimmed(s.description, description);
    var t := Renamed(s, name, description);
    assert t == s.(name := n, description := d);
    assert t.name == n && t.description == d;
  }

  /** `` `v || current` `` through the `trim` setter, for a `current` value that is already trimmed. */
  lemma OrKeepTrimmed(current: string, v: Option<string>)
    requires Trimmed(current)
    ensures var t := Trim(if Truthy(v) then v.value else current);
            && t == (if Truthy(v) then Trim(v.value) else current)
            && Trimmed(t)
  {
    TrimTrimmed(current);
    if Truthy(v) {
      TrimTrimmed(v.value);
    }
  }

  /**
   * Without a store the caller gets 404. Otherwise the caller's store is
   * renamed as `Renamed` says when that passes validation, and nothing is
   * written when it does not; no other store changes.
   */
  lemma UpdateStoreEffects(stores: seq<Store>, caller: Id, name: Option<string>, description: Option<string>)
    requires StoresValid(stores)
    ensures var e := UpdateStoreSpec(stores, caller, name, description);
            && (e.reply == Err(404, "Store not found") <==> FindStoreOf(stores, caller).None?)
            && StoresValid(e.stores)
            && (e.reply.Err? ==> e.stores == stores)
            && (FindStoreOf(stores, caller).Some? ==>
                  var k := FindStoreOf(stores, caller).value;
                  && (e.reply.Ok? <==> StoreValid(Renamed(stores[k], name, description)))
                  && (e.reply.Ok? ==> e.reply == Ok(200, Renamed(stores[k], name, description))
                                      && e.stores == stores[k := e.reply.data]))
  {
    var k := FindStoreOf(stores, caller);
    if k.Some? {
      var s := Renamed(stores[k.value], name, description);
      RenamedEffects(stores[k.value], name, description);
      if StoreValid(s) {
        StoresValidUpdate(stores, k.value, s);
        assert UpdateStoreSpec(stores, caller, name, description) == StoreEdit(Ok(200, s), stores[k.value := s]);
      } else {
        assert UpdateStoreSpec(stores, caller, name, description) == StoreEdit(Err(500, ServerError), stores);
      }
    }
  }

  /** `updateStore`: the two assignments, then `store.save()`. */
  method UpdateStore(db: Db, caller: Id, name: Option<string>, description: Option<string>)
    returns (reply: Reply<Store>)
    requires db.Valid()
    modifies db
    ensures db.Valid()
    ensures var e := UpdateStoreSpec(old(db.stores), caller, name, description);
            reply == e.reply && db.stores == e.stores
    ensures db.users == old(db.users) && db.products == old(db.products) && db.orders == old(db.orders)
            && db.carts == old(db.carts)
  {
    var k := FindStoreOf(db.stores, caller);
    if k.None? {
      return Err(404, "Store not found");
    }
    ghost var loaded := db.stores[k.value];
    var store := db.stores[k.value];
    var newName := if Truthy(name) then name.value else store.name;
    var newDescription := if Truthy(description) then description.value else store.description;
    store := store.(name := Trim(newName), description := Trim(newDescription));
    assert store == Renamed(loaded, name, description);
    if !StoreValid(store) {
      return Err(500, ServerError);
    }
    RenamedEffects(loaded, name, description);
    StoresValidUpdate(db.stores, k.value, store);
    db.stores := db.stores[k.value := store];
    reply := Ok(200, store);
  }

  // ---------------------------------------------------------------- administration

  /** `getAllStores`: the whole collection, for administrators only. */
  function GetAllStores(stores: seq<Store>, caller: Caller): (r: Reply<seq<Store>>)
    ensures r.Ok? <==> caller.role == Admin
    ensures r.Ok? ==> r == Ok(200, stores)
    ensures r.Err? ==> r == Err(403, NotAuthorized)
  {
    if caller.role != Admin then Err(403, NotAuthorized) else Ok(200, stores)
  }

  /**
   * `updateStoreStatus`: a status outside the enum fails validation on save.
   * The owner update sets only `sellerStatus`, which is not a user path, so
   * the users are left as they are; `isActive` is not touched either.
   */
  function UpdateStoreStatusSpec(stores: seq<Store>, caller: Caller, storeId: Id, status: string): StoreEdit {
    if caller.role != Admin then StoreEdit(Err(403, NotAuthorized), stores)
    else
      match FindStore(stores, storeId)
      case None => StoreEdit(Err(404, "Store not found"), stores)
      case Some(k) =>
        match ParseStoreStatus(status)
        case None => StoreEdit(Err(500, ServerError), stores)
        case Some(st) => StoreEdit(Ok(200, stores[k].(status := st)), stores[k := stores[k].(status := st)])
  }

  /**
   * Non-administrators get 403 and an unknown store 404, with nothing
   * written; otherwise the store takes exactly the named status (its
   * `isActive` and every other field unchanged) and no other store changes.
   */
  lemma UpdateStoreStatusEffects(stores: seq<Store>, caller: Caller, storeId: Id, status: string)
    requires StoresValid(stores)
    ensures var e := UpdateStoreStatusSpec(stores, caller, storeId, status);
            && StoresValid(e.stores)
            && (caller.role != Admin ==> e.reply == Err(403, NotAuthorized))
            && (caller.role == Admin && FindStore(stores, storeId).None? ==> e.reply == Err(404, "Store not found"))
            && (e.reply.Err? ==> e.stores == stores)
            && (e.reply.Ok? <==> caller.role == Admin && FindStore(stores, storeId).Some?
                                 && ParseStoreStatus(status).Some?)
            && (e.reply.Ok? ==>
                  var k := FindStore(stores, storeId).value;
                  && StoreStatusName(e.reply.data.status) == status
                  && e.reply.data == stores[k].(status := e.reply.data.status)
                  && e.reply.data.isActive == stores[k].isActive
                  && e.stores == stores[k := e.reply.data])
  {
    var e := UpdateStoreStatusSpec(stores, caller, storeId, status);
    if e.reply.Ok? {
      StoresValidUpdate(stores, FindStore(stores, storeId).value, e.reply.data);
    }
  }

  /** `updateStoreStatus`: the assignment, then `store.save()`. */
  method UpdateStoreStatus(db: Db, caller: Caller, storeId: Id, status: string) returns (reply: Reply<Store>)
    requires db.Valid()
    modifies db
    ensures db.Valid()
    ensures var e := UpdateStoreStatusSpec(old(db.stores), caller, storeId, status);
            reply == e.reply && db.stores == e.stores
    ensures db.users == old(db.users) && db.products == old(db.products) && db.orders == old(db.orders)
            && db.carts == old(db.carts)
  {
    UpdateStoreStatusEffects(db.stores, caller, storeId, status);
    if caller.role != Admin {
      return Err(403, NotAuthorized);
    }
    var k := FindStore(db.stores, storeId);
    if k.None? {
      return Err(404, "Store not found");
    }
    var st := ParseStoreStatus(status);
    if st.None? {
      return Err(500, ServerError);
    }
    var store := db.stores[k.value].(status := st.value);
    db.stores := db.stores[k.value := store];
    reply := Ok(200, store);
  }
}
