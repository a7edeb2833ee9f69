/**
 * The wishlist routes: toggling a product in the caller's wishlist and
 * removing one, both as a reassignment of `user.wishlist` and a save.
 */
module WishlistController {
  import opened Wrappers
  import opened Common
  import opened Seqs
  import opened UserModel
  import opened Database

  /** `wishlist.filter((id) => id.toString() !== productId)`. */
  function Without(wishlist: seq<Id>, product: Id): seq<Id> {
    Filter(wishlist, (id: Id) => id != product)
  }

  /** The wishlist after a toggle: every occurrence removed if present, else appended. */
  function Toggle(wishlist: seq<Id>, product: Id): seq<Id> {
    if product in wishlist then Without(wishlist, product) else wishlist + [product]
  }

  /** Removal drops every occurrence of the product and keeps every other entry. */
  lemma WithoutEffects(wishlist: seq<Id>, product: Id)
    ensures product !in Without(wishlist, product)
    ensures forall id :: id != product ==> (id in Without(wishlist, product) <==> id in wishlist)
    ensures product !in wishlist ==> Without(wishlist, product) == wishlist
  {
    forall id ensures id in Without(wishlist, product) <==> id in wishlist && id != product {
      FilterMembership(wishlist, (id: Id) => id != product, id);
    }
    if product !in wishlist {
      FilterAll(wishlist, (id: Id) => id != product);
    }
  }

  /** Removal keeps the remaining entries in their order: it distributes over concatenation. */
  lemma WithoutKeepsOrder(a: seq<Id>, b: seq<Id>, product: Id)
    ensures Without(a + b, product) == Without(a, product) + Without(b, product)
  {
    FilterAppend(a, b, (id: Id) => id != product);
  }

  /**
   * A toggle of a present product removes all its occurrences; a toggle of
   * an absent one appends it at the end; and toggling twice restores the
   * product's membership (and the whole list when it was absent).
   */
  lemma ToggleEffects(wishlist: seq<Id>, product: Id)
    ensures product in wishlist ==> product !in Toggle(wishlist, product)
                                    && Toggle(wishlist, product) == Without(wishlist, product)
    ensures product !in wishlist ==> Toggle(wishlist, product) == wishlist + [product]
    ensures (product in Toggle(Toggle(wishlist, product), product)) == (product in wishlist)
    ensures product !in wishlist ==> Toggle(Toggle(wishlist, product), product) == wishlist
    ensures forall id :: id != product ==> (id in Toggle(wishlist, product) <==> id in wishlist)
  {
    WithoutEffects(wishlist, product);
    WithoutEffects(wishlist + [product], product);
    WithoutKeepsOrder(wishlist, [product], product);
    assert Without([product], product) == [];
  }

  /** `toggleWishlist` for the caller; the reply carries the saved list. */
  method ToggleWishlist(db: Db, caller: Id, product: Id) returns (reply: Reply<seq<Id>>)
    requires db.Valid()
    modifies db
    ensures db.Valid()
    ensures FindUser(old(db.users), caller).None? ==> reply == Err(404, "User not found") && db.users == old(db.users)
    ensures FindUser(old(db.users), caller).Some? ==>
              var k := FindUser(old(db.users), caller).value;
              var list := Toggle(old(db.users)[k].wishlist, product);
              reply == Ok(200, list) && db.users == old(db.users)[k := old(db.users)[k].(wishlist := list)]
    ensures db.stores == old(db.stores) && db.products == old(db.products) && db.orders == old(db.orders)
            && db.carts == old(db.carts)
  {
    var k := FindUser(db.users, caller);
    if k.None? {
      return Err(404, "User not found");
    }
    var user := db.users[k.value];
    var list: seq<Id>;
    if product in user.wishlist {
      list := Without(user.wishlist, product);
    } else {
      list := user.wishlist + [product];
    }
    UsersValidUpdate(db.users, k.value, user.(wishlist := list));
    db.users := db.users[k.value := user.(wishlist := list)];
    reply := Ok(200, list);
  }

  /** `removeFromWishlist` for the caller. */
  method RemoveFromWishlist(db: Db, caller: Id, product: Id) returns (reply: Reply<seq<Id>>)
    requires db.Valid()
    modifies db
    ensures db.Valid()
    ensures FindUser(old(db.users), caller).None? ==> reply == Err(404, "User not found") && db.users == old(db.users)
    ensures FindUser(old(db.users), caller).Some? && product !in old(db.users)[FindUser(old(db.users), caller).value].wishlist ==>
              reply == Err(404, "Product not found in wishlist") && db.users == old(db.users)
    ensures FindUser(old(db.users), caller).Some? && product in old(db.users)[FindUser(old(db.users), caller).value].wishlist ==>
              var k := FindUser(old(db.users), caller).value;
              var list := Without(old(db.users)[k].wishlist, product);
              reply == Ok(200, list) && db.users == old(db.users)[k := old(db.users)[k].(wishlist := list)]
    ensures db.stores == old(db.stores) && db.products == old(db.products) && db.orders == old(db.orders)
            && db.carts == old(db.carts)
  {
    var k := FindUser(db.users, caller);
    if k.None? {
      return Err(404, "User not found");
    }
    var user := db.users[k.value];
    if product !in user.wishlist {
      return Err(404, "Product not found in wishlist");
    }
    var list := Without(user.wishlist, product);
    UsersValidUpdate(db.users, k.value, user.(wishlist := list));
    db.users := db.users[k.value := user.(wishlist := list)];
    reply := Ok(200, list);
  }
}
