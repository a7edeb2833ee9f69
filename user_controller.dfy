/**
 * The profile routes of the user controller: `updateProfile`, which drops a
 * supplied password and `$set`s the rest with the update validators on, and
 * `becomeSeller`, which opens a pending store for the caller and makes them
 * a seller.
 */
module UserController {
  import opened Wrappers
  import opened Common
  import opened Strings
  import opened StoreModel
  import opened UserModel
  import opened Database
  import opened StoreController

  // ---------------------------------------------------------------- updateProfile

  /** The body of `PUT /profile`, over the user paths the model keeps; an absent path is `None`. */
  datatype ProfileUpdate = ProfileUpdate(
    name: Option<string>,
    email: Option<string>,
    password: Option<string>,
    phone: Option<string>,
    bio: Option<string>,
    role: Option<string>,
    isActive: Option<bool>)

  /** The reply and the users a profile update leaves. */
  datatype ProfileOutcome = ProfileOutcome(reply: Reply<User>, users: seq<User>)

  const ProfileUpdateFailed: string := "Error updating profile"

  /**
   * The update validators of the `$set` paths: a required text may not be
   * set to one that trims to nothing, `bio` keeps `maxlength: 500` and
   * `role` stays in its enum. The password is not among the paths checked as
   * the controller has deleted it by then.
   */
  predicate UpdatePasses(u: ProfileUpdate) {
    && (u.name.Some? ==> Trim(u.name.value) != [])
    && (u.email.Some? ==> Trim(u.email.value) != [])
    && (u.bio.Some? ==> |u.bio.value| <= 500)
    && (u.role.Some? ==> ParseRole(u.role.value).Some?)
  }

  /** The `$set` through the setters (`trim`, and `lowercase` for `email`); `password` is never applied. */
  function SetPaths(user: User, u: ProfileUpdate): User
    requires u.role.Some? ==> ParseRole(u.role.value).Some?
  {
    user.(name := if u.name.Some? then Trim(u.name.value) else user.name,
          email := if u.email.Some? then ToLower(Trim(u.email.value)) else user.email,
          phone := if u.phone.Some? then Some(Trim(u.phone.value)) else user.phone,
          bio := if u.bio.Some? then u.bio else user.bio,
          role := if u.role.Some? then ParseRole(u.role.value).value else user.role,
          isActive := if u.isActive.Some? then u.isActive.value else user.isActive)
  }

  /** The `-password` projection of the reply. */
  function WithoutPassword(user: User): User {
    user.(password := [])
  }

  /** Another user already holds this email (the `unique` index on `email`). */
  predicate EmailTaken(users: seq<User>, k: nat, email: string)
    requires k < |users|
  {
    exists j :: 0 <= j < |users| && j != k && users[j].email == email
  }

  /** `updateProfile` once `delete updates.password` has run. */
  function SetProfile(users: seq<User>, caller: Id, u: ProfileUpdate): ProfileOutcome {
    if !UpdatePasses(u) then ProfileOutcome(Err(500, ProfileUpdateFailed), users)
    else
      match FindUser(users, caller)
      case None => ProfileOutcome(Err(404, "User not found"), users)
      case Some(k) =>
        var user := SetPaths(users[k], u);
        if EmailTaken(users, k, user.email) then ProfileOutcome(Err(500, ProfileUpdateFailed), users)
        else ProfileOutcome(Ok(200, WithoutPassword(user)), users[k := user])
  }

  /** `updateProfile`: the password is deleted from the body, then the rest is set. */
  function UpdateProfileSpec(users: seq<User>, caller: Id, updates: ProfileUpdate): ProfileOutcome {
    SetProfile(users, caller, updates.(password := None))
  }

  /**
   * A supplied password changes nothing: the outcome is the one without it,
   * and every stored password is the one held before.
   */
  lemma UpdateProfileIgnoresPassword(users: seq<User>, caller: Id, updates: ProfileUpdate, password: string)
    ensures UpdateProfileSpec(users, caller, updates.(password := Some(password)))
            == UpdateProfileSpec(users, caller, updates.(password := None))
    ensures var r := UpdateProfileSpec(users, caller, updates);
            |r.users| == |users| && forall k :: 0 <= k < |users| ==> r.users[k].password == users[k].password
  {
    assert updates.(password := Some(password)).(password := None) == updates.(password := None);
  }

  /**
   * A body failing the update validators gives 500 and an unknown caller
   * 404, both writing nothing; otherwise the caller's record takes the set
   * paths, no other user changes, and the users stay valid (an email held by
   * another user is refused).
   */
  lemma UpdateProfileEffects(users: seq<User>, caller: Id, updates: ProfileUpdate)
    requires UsersValid(users)
    ensures var r := UpdateProfileSpec(users, caller, updates);
            var u := updates.(password := None);
            && UsersValid(r.users)
            && (r.reply.Err? ==> r.users == users)
            && (!UpdatePasses(u) ==> r.reply == Err(500, ProfileUpdateFailed))
            && (UpdatePasses(u) && FindUser(users, caller).None? ==> r.reply == Err(404, "User not found"))
            && (r.reply.Ok? ==>
                  var k := FindUser(users, caller).value;
                  && r.users == users[k := SetPaths(users[k], u)]
                  && r.reply.data == WithoutPassword(r.users[k])
                  && !EmailTaken(users, k, r.users[k].email))
  {
    var u := updates.(password := None);
    if UpdatePasses(u) && FindUser(users, caller).Some? {
      var k := FindUser(users, caller).value;
      var user := SetPaths(users[k], u);
      if !EmailTaken(users, k, user.email) {
        if u.name.Some? {
          TrimEmptyIffBlank(u.name.value);
        }
        if u.email.Some? {
          assert |ToLower(Trim(u.email.value))| == |Trim(u.email.value)|;
        }
        assert UserValid(user);
        assert UsersValid(users[k := user]);
      }
    }
  }

  /**
   * `role` is an ordinary `$set` path: any caller can make themselves an
   * administrator through their own profile.
   */
  lemma UpdateProfileCanSetRole(users: seq<User>, caller: Id)
    requires UsersValid(users) && FindUser(users, caller).Some?
    ensures var r := UpdateProfileSpec(users, caller, ProfileUpdate(None, None, None, None, None, Some("admin"), None));
            r.reply.Ok? && r.users[FindUser(users, caller).value].role == Admin
  {
    var k := FindUser(users, caller).value;
    var u := ProfileUpdate(None, None, None, None, None, Some("admin"), None);
    assert SetPaths(users[k], u).email == users[k].email;
    assert !EmailTaken(users, k, users[k].email);
  }

  /** `updateProfile` on the users. */
  method UpdateProfile(db: Db, caller: Id, updates: ProfileUpdate) returns (reply: Reply<User>)
    requires db.Valid()
    modifies db
    ensures db.Valid()
    ensures var r := UpdateProfileSpec(old(db.users), caller, updates);
            reply == r.reply && db.users == r.users
    ensures db.stores == old(db.stores) && db.products == old(db.products) && db.orders == old(db.orders)
            && db.carts == old(db.carts)
  {
    UpdateProfileEffects(db.users, caller, updates);
    var body := updates;
    body := body.(password := None);
    if !UpdatePasses(body) {
      return Err(500, ProfileUpdateFailed);
    }
    var k := FindUser(db.users, caller);
    if k.None? {
      return Err(404, "User not found");
    }
    var user := SetPaths(db.users[k.value], body);
    if EmailTaken(db.users, k.value, user.email) {
      return Err(500, ProfileUpdateFailed);
    }
    db.users := db.users[k.value := user];
    reply := Ok(200, WithoutPassword(user));
  }

  // ---------------------------------------------------------------- becomeSeller

  /** The body of `POST /become-seller`. */
  datatype SellerRequest = SellerRequest(
    name: Option<string>,
    description: Option<string>,
    contactEmail: Option<string>,
    contactPhone: Option<string>,
    address: Option<string>)

  const DetailsRequired: string := "Store name and description are required"
  const BecomeSellerFailed: string := "Error creating store"

  /** `User.findByIdAndUpdate(id, { $set: { role: "seller" } })`; the `store` link is not set. */
  function MakeSeller(users: seq<User>, id: Id): seq<User> {
    match FindUser(users, id)
    case None => users
    case Some(k) => users[k := users[k].(role := Seller)]
  }

  /**
   * `contactEmail || user.email`: `req.user` here is what `authenticate`
   * attaches, which carries no email, so a missing or empty contact email
   * stays unset.
   */
  function ContactEmail(r: SellerRequest): Option<string> {
    if Truthy(r.contactEmail) then r.contactEmail else None
  }

  /** `becomeSeller`. */
  function BecomeSellerSpec(stores: seq<Store>, users: seq<User>, caller: Id, r: SellerRequest, newId: Id)
    : Registry {
    if !Truthy(r.name) || !Truthy(r.description) then Registry(Err(400, DetailsRequired), stores, users)
    else if FindStoreOf(stores, caller).Some? then Registry(Err(400, AlreadyHaveStore), stores, users)
    else
      match NewStore(newId, caller, r.name.value, r.description.value, ContactEmail(r), r.contactPhone, r.address)
      case None => Registry(Err(500, BecomeSellerFailed), stores, users)
      case Some(s) => Registry(Ok(201, s), stores + [s], MakeSeller(users, caller))
  }

  /**
   * A missing or empty name or description gives 400 before anything else;
   * a caller with a store gets 400; a text of only whitespace fails
   * validation with 500; none of them writes anything.
   */
  lemma BecomeSellerRejections(stores: seq<Store>, users: seq<User>, caller: Id, r: SellerRequest, newId: Id)
    ensures var g := BecomeSellerSpec(stores, users, caller, r, newId);
            && (g.reply == Err(400, DetailsRequired) <==> !Truthy(r.name) || !Truthy(r.description))
            && (g.reply == Err(400, AlreadyHaveStore) <==>
                  Truthy(r.name) && Truthy(r.description) && FindStoreOf(stores, caller).Some?)
            && (g.reply == Err(500, BecomeSellerFailed) <==>
                  Truthy(r.name) && Truthy(r.description) && FindStoreOf(stores, caller).None?
                  && (AllSpace(r.name.value) || AllSpace(r.description.value)))
            && (g.reply.Err? ==> g.stores == stores && g.users == users)
  {
    if Truthy(r.name) && Truthy(r.description) {
      TrimEmptyIffBlank(r.name.value);
      TrimEmptyIffBlank(r.description.value);
    }
  }

  /**
   * A created store is pending and inactive, owned by the caller, with the
   * supplied contact email (lower-cased and trimmed) or none, and appended
   * to the stores, keeping one store per owner. The caller becomes a seller;
   * their `store` link and every other user are left as they were.
   */
  lemma BecameSeller(stores: seq<Store>, users: seq<User>, caller: Id, r: SellerRequest, newId: Id)
    requires StoresValid(stores) && UsersValid(users)
    requires forall k :: 0 <= k < |stores| ==> stores[k].id != newId
    ensures var g := BecomeSellerSpec(stores, users, caller, r, newId);
            && StoresValid(g.stores) && UsersValid(g.users)
            && (g.reply.Ok? ==>
                  && g.reply.code == 201 && g.stores == stores + [g.reply.data]
                  && g.reply.data.id == newId && g.reply.data.owner == caller
                  && g.reply.data.status == StorePending && !g.reply.data.isActive
                  && g.reply.data.contactEmail == EmailSetter(ContactEmail(r))
                  && |g.users| == |users|
                  && (forall k :: 0 <= k < |users| ==>
                        g.users[k] == if k == FindUser(users, caller).GetOr(|users|)
                                      then users[k].(role := Seller) else users[k]))
  {
    var g := BecomeSellerSpec(stores, users, caller, r, newId);
    if g.reply.Ok? {
      StoresValidAppend(stores, g.reply.data);
      match FindUser(users, caller)
      case None =>
      case Some(k) => UsersValidUpdate(users, k, users[k].(role := Seller));
    }
  }

  /** `becomeSeller` on the collections. */
  method BecomeSeller(db: Db, caller: Id, r: SellerRequest, newId: Id) returns (reply: Reply<Store>)
    requires db.Valid()
    requires forall k :: 0 <= k < |db.stores| ==> db.stores[k].id != newId
    modifies db
    ensures db.Valid()
    ensures var g := BecomeSellerSpec(old(db.stores), old(db.users), caller, r, newId);
            reply == g.reply && db.stores == g.stores && db.users == g.users
    ensures db.products == old(db.products) && db.orders == old(db.orders) && db.carts == old(db.carts)
  {
    BecameSeller(db.stores, db.users, caller, r, newId);
    if !Truthy(r.name) || !Truthy(r.description) {
      return Err(400, DetailsRequired);
    }
    var existing := FindStoreOf(db.stores, caller);
    if existing.Some? {
      return Err(400, AlreadyHaveStore);
    }
    var store := NewStore(newId, caller, r.name.value, r.description.value, ContactEmail(r), r.contactPhone, r.address);
    if store.None? {
      return Err(500, BecomeSellerFailed);
    }
    db.stores := db.stores + [store.value];
    var k := FindUser(db.users, caller);
    if k.Some? {
      db.users := db.users[k.value := db.users[k.value].(role := Seller)];
    }
    reply := Ok(201, store.value);
  }
}
