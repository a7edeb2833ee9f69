/**
 * The Store document: its approval status, its defaults, and the record
 * `Store.create` builds from a seller's request.
 */
module StoreModel {
  import opened Wrappers
  import opened Common
  import opened Strings

  datatype StoreStatus = StorePending | Approved | Rejected

  function StoreStatusName(s: StoreStatus): string {
    match s
    case StorePending => "pending"
    case Approved => "approved"
    case Rejected => "rejected"
  }

  function ParseStoreStatus(name: string): (r: Option<StoreStatus>)
    ensures r.Some? ==> StoreStatusName(r.value) == name
  {
    if name == "pending" then Some(StorePending)
    else if name == "approved" then Some(Approved)
    else if name == "rejected" then Some(Rejected)
    else None
  }

  lemma ParseStoreStatusName(s: StoreStatus)
    ensures ParseStoreStatus(StoreStatusName(s)) == Some(s)
  {
  }

  datatype Store = Store(
    id: Id,
    owner: Id,
    name: string,
    description: string,
    status: StoreStatus,
    isActive: bool,
    rating: real,
    totalRatings: int,
    totalSales: int,
    balance: int,
    contactEmail: Option<string>,
    contactPhone: Option<string>,
    address: Option<string>)

  /** `name` and `description` are required (after trimming); `rating` lies in [0, 5]. */
  predicate StoreValid(s: Store) {
    s.name != [] && s.description != [] && 0.0 <= s.rating <= 5.0
  }

  /** The `trim` setters of `name` and `description`: stored values carry no outer whitespace. */
  predicate StoreTrimmed(s: Store) {
    Trimmed(s.name) && Trimmed(s.description)
  }

  /** The `trim` setter. */
  function TrimOpt(s: Option<string>): Option<string> {
    match s
    case None => None
    case Some(v) => Some(Trim(v))
  }

  /** The `trim` and `lowercase` setters of `contactEmail`. */
  function EmailSetter(s: Option<string>): Option<string> {
    match s
    case None => None
    case Some(v) => Some(ToLower(Trim(v)))
  }

  /**
   * `Store.create`: the setters and defaults applied, then validation; a new
   * store is pending, inactive and has zero rating, sales and balance.
   */
  function NewStore(id: Id, owner: Id, name: string, description: string, contactEmail: Option<string>,
                    contactPhone: Option<string>, address: Option<string>): (r: Option<Store>)
    ensures r.Some? ==> StoreValid(r.value) && r.value.id == id && r.value.owner == owner
    ensures r.Some? ==> r.value.status == StorePending && !r.value.isActive && r.value.rating == 0.0
                        && r.value.totalRatings == 0 && r.value.totalSales == 0 && r.value.balance == 0
    ensures r.Some? ==> r.value.contactEmail == EmailSetter(contactEmail)
    ensures r.Some? ==> StoreTrimmed(r.value)
    ensures r.None? <==> Trim(name) == [] || Trim(description) == []
  {
    var n := Trim(name);
    var d := Trim(description);
    TrimTrimmed(name);
    TrimTrimmed(description);
    var s := Store(id, owner, n, d, StorePending, false, 0.0, 0, 0, 0,
                   EmailSetter(contactEmail), TrimOpt(contactPhone), TrimOpt(address));
    assert StoreTrimmed(s) && (StoreValid(s) <==> n != [] && d != []);
    if StoreValid(s) then Some(s) else None
  }
}
