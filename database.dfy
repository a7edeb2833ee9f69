/**
 * The MongoDB collections the controllers read and write, as one object
 * holding each collection's documents in insertion order, with the lookups
 * the controllers use and the consistency every controller preserves.
 */
module Database {
  import opened Wrappers
  import opened Common
  import opened Seqs
  import opened OrderModel
  import opened ProductModel
  import opened CartModel
  import opened UserModel
  import opened StoreModel

  // ---------------------------------------------------------------- lookups

  /** `User.findById`. */
  function FindUser(users: seq<User>, id: Id): (r: Option<nat>)
    ensures r.Some? ==> r.value < |users| && users[r.value].id == id
    ensures r.None? ==> forall k :: 0 <= k < |users| ==> users[k].id != id
  {
    FirstIndex(users, (u: User) => u.id == id)
  }

  /** `Store.findById`. */
  function FindStore(stores: seq<Store>, id: Id): (r: Option<nat>)
    ensures r.Some? ==> r.value < |stores| && stores[r.value].id == id
    ensures r.None? ==> forall k :: 0 <= k < |stores| ==> stores[k].id != id
  {
    FirstIndex(stores, (s: Store) => s.id == id)
  }

  /** `Store.findOne({ owner })`. */
  function FindStoreOf(stores: seq<Store>, owner: Id): (r: Option<nat>)
    ensures r.Some? ==> r.value < |stores| && stores[r.value].owner == owner
    ensures r.None? ==> forall k :: 0 <= k < |stores| ==> stores[k].owner != owner
  {
    FirstIndex(stores, (s: Store) => s.owner == owner)
  }

  /** `Product.findById`. */
  function FindProduct(products: seq<Product>, id: Id): (r: Option<nat>)
    ensures r.Some? ==> r.value < |products| && products[r.value].id == id
    ensures r.None? ==> forall k :: 0 <= k < |products| ==> products[k].id != id
  {
    FirstIndex(products, (p: Product) => p.id == id)
  }

  /** `Order.findById`. */
  function FindOrder(orders: seq<Order>, id: Id): (r: Option<nat>)
    ensures r.Some? ==> r.value < |orders| && orders[r.value].id == id
    ensures r.None? ==> forall k :: 0 <= k < |orders| ==> orders[k].id != id
  {
    FirstIndex(orders, (o: Order) => o.id == id)
  }

  /** `Cart.findOne({ user })`. */
  function FindCartOf(carts: seq<Cart>, user: Id): (r: Option<nat>)
    ensures r.Some? ==> r.value < |carts| && carts[r.value].user == user
    ensures r.None? ==> forall k :: 0 <= k < |carts| ==> carts[k].user != user
  {
    FirstIndex(carts, (c: Cart) => c.user == user)
  }

  // ---------------------------------------------------------------- consistency

  /** A saved order: schema bounds, the hook's total, and a history ending in the current status. */
  predicate OrderConsistent(o: Order) {
    && PassesSchema(o)
    && o.totalAmount == LinesTotal(o.items)
    && o.statusHistory != []
    && o.statusHistory[|o.statusHistory| - 1].status == o.status
  }

  /** At most one line per product. */
  predicate OneLinePerProduct(items: seq<LineItem>) {
    forall i, j :: 0 <= i < |items| && 0 <= j < |items| && items[i].product == items[j].product ==> i == j
  }

  /** A saved cart: line bounds, the hook's total, one line per product. */
  predicate CartConsistent(c: Cart) {
    LinesValid(c.items) && c.total == LinesTotal(c.items) && OneLinePerProduct(c.items)
  }

  /** User ids and emails are unique (the `unique` index on `email`); every user passes the schema. */
  predicate UsersValid(users: seq<User>) {
    && (forall i, j :: 0 <= i < |users| && 0 <= j < |users| && users[i].id == users[j].id ==> i == j)
    && (forall i, j :: 0 <= i < |users| && 0 <= j < |users| && users[i].email == users[j].email ==> i == j)
    && (forall k :: 0 <= k < |users| ==> UserValid(users[k]))
  }

  /**
   * Store ids are unique, every owner has at most one store (both creating
   * routes look for the caller's store first), every store passes the schema
   * and holds trimmed texts.
   */
  predicate StoresValid(stores: seq<Store>) {
    && (forall i, j :: 0 <= i < |stores| && 0 <= j < |stores| && stores[i].id == stores[j].id ==> i == j)
    && (forall i, j :: 0 <= i < |stores| && 0 <= j < |stores| && stores[i].owner == stores[j].owner ==> i == j)
    && (forall k :: 0 <= k < |stores| ==> StoreValid(stores[k]) && StoreTrimmed(stores[k]))
  }

  /** Product ids and SKUs are unique (the `unique` index on `sku`); every product passes the schema. */
  predicate ProductsValid(products: seq<Product>) {
    && (forall i, j :: 0 <= i < |products| && 0 <= j < |products| && products[i].id == products[j].id ==> i == j)
    && (forall i, j :: 0 <= i < |products| && 0 <= j < |products| && products[i].sku == products[j].sku ==> i == j)
    && (forall k :: 0 <= k < |products| ==> ProductValid(products[k]))
  }

  /** Order ids are unique and every order is as a save leaves it. */
  predicate OrdersValid(orders: seq<Order>) {
    && (forall i, j :: 0 <= i < |orders| && 0 <= j < |orders| && orders[i].id == orders[j].id ==> i == j)
    && (forall k :: 0 <= k < |orders| ==> OrderConsistent(orders[k]))
  }

  /** Cart ids and owners are unique (the `unique` index on `user`); every cart is as a save leaves it. */
  predicate CartsValid(carts: seq<Cart>) {
    && (forall i, j :: 0 <= i < |carts| && 0 <= j < |carts| && carts[i].id == carts[j].id ==> i == j)
    && (forall i, j :: 0 <= i < |carts| && 0 <= j < |carts| && carts[i].user == carts[j].user ==> i == j)
    && (forall k :: 0 <= k < |carts| ==> CartConsistent(carts[k]))
  }

  /** Replacing a product by a valid one with the same id and SKU keeps the catalogue valid. */
  lemma ProductsValidUpdate(products: seq<Product>, k: nat, p: Product)
    requires ProductsValid(products) && k < |products|
    requires ProductValid(p) && p.id == products[k].id && p.sku == products[k].sku
    ensures ProductsValid(products[k := p])
  {
  }

  /** Replacing a product by a valid one with the same id and a SKU no other product holds keeps the catalogue valid. */
  lemma ProductsValidReplace(products: seq<Product>, k: nat, p: Product)
    requires ProductsValid(products) && k < |products|
    requires ProductValid(p) && p.id == products[k].id
    requires forall i :: 0 <= i < |products| && i != k ==> products[i].sku != p.sku
    ensures ProductsValid(products[k := p])
  {
  }

  /** Appending a valid product with a fresh id and a fresh SKU keeps the catalogue valid. */
  lemma ProductsValidAppend(products: seq<Product>, p: Product)
    requires ProductsValid(products) && ProductValid(p)
    requires forall k :: 0 <= k < |products| ==> products[k].id != p.id && products[k].sku != p.sku
    ensures ProductsValid(products + [p])
  {
  }

  /** Removing one product keeps the catalogue valid. */
  lemma ProductsValidRemove(products: seq<Product>, k: nat)
    requires ProductsValid(products) && k < |products|
    ensures ProductsValid(products[..k] + products[k + 1..])
  {
    var r := products[..k] + products[k + 1..];
    assert forall i :: 0 <= i < |r| ==> r[i] == products[if i < k then i else i + 1];
  }

  /** Replacing an order by a consistent one with the same id keeps the orders valid. */
  lemma OrdersValidUpdate(orders: seq<Order>, k: nat, o: Order)
    requires OrdersValid(orders) && k < |orders|
    requires OrderConsistent(o) && o.id == orders[k].id
    ensures OrdersValid(orders[k := o])
  {
  }

  /** Appending a consistent order with a fresh id keeps the orders valid. */
  lemma OrdersValidAppend(orders: seq<Order>, o: Order)
    requires OrdersValid(orders) && OrderConsistent(o)
    requires forall k :: 0 <= k < |orders| ==> orders[k].id != o.id
    ensures OrdersValid(orders + [o])
  {
  }

  /** Appending a consistent cart with a fresh id for a user without a cart keeps the carts valid. */
  lemma CartsValidAppend(carts: seq<Cart>, c: Cart)
    requires CartsValid(carts) && CartConsistent(c)
    requires forall k :: 0 <= k < |carts| ==> carts[k].id != c.id && carts[k].user != c.user
    ensures CartsValid(carts + [c])
  {
  }

  /** Replacing a cart by a consistent one with the same id and user keeps the carts valid. */
  lemma CartsValidUpdate(carts: seq<Cart>, k: nat, c: Cart)
    requires CartsValid(carts) && k < |carts|
    requires CartConsistent(c) && c.id == carts[k].id && c.user == carts[k].user
    ensures CartsValid(carts[k := c])
  {
  }

  /** Replacing a user by a valid one with the same id and email keeps the users valid. */
  lemma UsersValidUpdate(users: seq<User>, k: nat, u: User)
    requires UsersValid(users) && k < |users|
    requires UserValid(u) && u.id == users[k].id && u.email == users[k].email
    ensures UsersValid(users[k := u])
  {
  }

  /** Appending a valid store with a fresh id for an owner without a store keeps the stores valid. */
  lemma StoresValidAppend(stores: seq<Store>, s: Store)
    requires StoresValid(stores) && StoreValid(s) && StoreTrimmed(s)
    requires forall k :: 0 <= k < |stores| ==> stores[k].id != s.id && stores[k].owner != s.owner
    ensures StoresValid(stores + [s])
  {
  }

  /** Replacing a store by a valid one with the same id and owner keeps the stores valid. */
  lemma StoresValidUpdate(stores: seq<Store>, k: nat, s: Store)
    requires StoresValid(stores) && k < |stores|
    requires StoreValid(s) && StoreTrimmed(s) && s.id == stores[k].id && s.owner == stores[k].owner
    ensures StoresValid(stores[k := s])
  {
  }

  class Db {
    var users: seq<User>
    var stores: seq<Store>
    var products: seq<Product>
    var orders: seq<Order>
    var carts: seq<Cart>

    /** Every collection is consistent. */
    ghost predicate Valid()
      reads this
    {
      UsersValid(users) && StoresValid(stores) && ProductsValid(products) && OrdersValid(orders) && CartsValid(carts)
    }

    /** An empty database. */
    constructor ()
      ensures Valid()
      ensures users == [] && stores == [] && products == [] && orders == [] && carts == []
    {
      users, stores, products, orders, carts := [], [], [], [], [];
    }
  }
}
