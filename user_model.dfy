/**
 * The User document as far as the core reads or writes it: identity, role,
 * activation, the store link and the wishlist, plus the free-text profile
 * paths `updateProfile` can set.
 */
module UserModel {
  import opened Wrappers
  import opened Common

  /** The `role` enum; `Customer` is the stored string "user". */
  datatype Role = Customer | Admin | Seller

  function RoleName(r: Role): string {
    match r
    case Customer => "user"
    case Admin => "admin"
    case Seller => "seller"
  }

  function ParseRole(name: string): (r: Option<Role>)
    ensures r.Some? ==> RoleName(r.value) == name
  {
    if name == "user" then Some(Customer)
    else if name == "admin" then Some(Admin)
    else if name == "seller" then Some(Seller)
    else None
  }

  /** Every role is accepted under its own name, so `ParseRole` succeeds exactly on the three names. */
  lemma ParseRoleName(r: Role)
    ensures ParseRole(RoleName(r)) == Some(r)
  {
  }

  datatype User = User(
    id: Id,
    name: string,
    email: string,
    password: string,
    role: Role,
    isActive: bool,
    store: Option<Id>,
    wishlist: seq<Id>,
    phone: Option<string>,
    bio: Option<string>)

  /** Required strings are non-empty and `bio` has `maxlength: 500`. */
  predicate UserValid(u: User) {
    u.name != [] && u.email != [] && u.password != [] && (u.bio.Some? ==> |u.bio.value| <= 500)
  }

  /** `req.user` as the controllers read it: the caller's id and role. */
  datatype Caller = Caller(id: Id, role: Role)
}
