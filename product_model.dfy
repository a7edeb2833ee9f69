/**
 * The Product document: its schema bounds and defaults, and the SKU string
 * `SKU-<store>-<n>` that the controller and the `pre("save")` hook build.
 */
module ProductModel {
  import opened Wrappers
  import opened Common
  import opened Strings

  datatype Review = Review(user: Id, rating: real, comment: string)

  datatype Product = Product(
    id: Id,
    name: string,
    description: string,
    price: int,
    stock: int,
    store: Id,
    images: seq<string>,
    category: string,
    isActive: bool,
    rating: real,
    totalRatings: int,
    totalSales: int,
    discount: Option<real>,
    sku: string,
    reviews: seq<Review>,
    createdAt: Time)

  /** A review's `rating` is required, with `min: 1` and `max: 5`. */
  predicate ReviewValid(r: Review) {
    1.0 <= r.rating <= 5.0
  }

  /**
   * The schema validators: required strings are non-empty, `price` and `stock`
   * have `min: 0`, `rating` lies in [0, 5], `discount.percentage` in [0, 100],
   * every image is a non-empty string and every review rating lies in [1, 5].
   */
  predicate ProductValid(p: Product) {
    && p.name != [] && p.description != [] && p.category != [] && p.sku != []
    && p.price >= 0 && p.stock >= 0
    && 0.0 <= p.rating <= 5.0
    && (p.discount.Some? ==> 0.0 <= p.discount.value <= 100.0)
    && (forall k :: 0 <= k < |p.images| ==> p.images[k] != [])
    && (forall k :: 0 <= k < |p.reviews| ==> ReviewValid(p.reviews[k]))
  }

  /** What `Product.create` is given; an absent `stock` is `None`. */
  datatype ProductInput = ProductInput(
    name: string, description: string, price: int, stock: Option<int>, category: string, images: seq<string>)

  /**
   * `Product.create`: the trimming setters and the schema defaults applied, then
   * the validators run. `None` is a validation failure.
   */
  function CreateRecord(id: Id, store: Id, sku: string, input: ProductInput, now: Time): (r: Option<Product>)
    ensures r.Some? ==> ProductValid(r.value)
    ensures r.Some? ==> r.value.isActive && r.value.totalSales == 0 && r.value.rating == 0.0
                        && r.value.reviews == [] && r.value.discount.None?
    ensures r.Some? ==> r.value.stock == input.stock.GetOr(0) && r.value.price == input.price
    ensures r.Some? ==> r.value.id == id && r.value.store == store && r.value.sku == sku
                        && r.value.images == input.images
    ensures r.None? <==>
      (Trim(input.name) == [] || Trim(input.description) == [] || Trim(input.category) == [] || sku == []
       || input.price < 0 || input.stock.GetOr(0) < 0
       || exists k :: 0 <= k < |input.images| && input.images[k] == [])
  {
    var p := Product(id, Trim(input.name), Trim(input.description), input.price, input.stock.GetOr(0),
                     store, input.images, Trim(input.category), true, 0.0, 0, 0, None, sku, [], now);
    if ProductValid(p) then Some(p) else None
  }

  // ---------------------------------------------------------------- SKU strings

  /** `` `SKU-${store}-${n}` ``. */
  function SkuFor(store: Id, n: nat): string {
    "SKU-" + NatToString(store) + "-" + NatToString(n)
  }

  /** Reads a SKU back into its store and sequence number. */
  function ParseSku(s: string): Option<(Id, nat)> {
    if !StartsWith(s, "SKU-") then None
    else
      var parts := Split(s[4..], "-");
      if |parts| != 2 then None
      else
        match (ParseNat(parts[0]), ParseNat(parts[1]))
        case (Some(store), Some(n)) => Some((store, n))
        case _ => None
  }

  lemma NoDashInDigits(s: string)
    requires AllDigits(s)
    ensures forall j :: !OccursAt(s, "-", j)
  {
    forall j ensures !OccursAt(s, "-", j) {
      if 0 <= j && j + 1 <= |s| {
        assert s[j..j + 1][0] == s[j];
      }
    }
  }

  /** Two digit strings joined by a dash split back into the same two strings. */
  lemma SplitDigitsAtDash(a: string, b: string)
    requires AllDigits(a) && AllDigits(b)
    ensures Split(a + "-" + b, "-") == [a, b]
  {
    var s := a + "-" + b;
    assert s[|a|..|a| + 1] == "-";
    assert OccursAt(s, "-", |a|);
    var r := IndexOf(s, "-");
    assert r.Some?;
    assert forall j :: 0 <= j < |a| ==> s[j..j + 1][0] == a[j];
    assert s[r.value..r.value + 1][0] == '-';
    assert r.value == |a|;
    assert s[..|a|] == a;
    assert s[|a| + 1..] == b;
    NoDashInDigits(b);
    assert IndexOf(b, "-") == None;
    assert Split(b, "-") == [b];
    assert Split(s, "-") == [s[..|a|]] + Split(s[|a| + 1..], "-");
  }

  /** Rendering a SKU and reading it back gives its store and number. */
  lemma ParseSkuFor(store: Id, n: nat)
    ensures ParseSku(SkuFor(store, n)) == Some((store, n))
  {
    var s := SkuFor(store, n);
    assert s[..4] == "SKU-";
    assert s[4..] == NatToString(store) + "-" + NatToString(n);
    SplitDigitsAtDash(NatToString(store), NatToString(n));
    ParseNatToString(store);
    ParseNatToString(n);
  }

  /** Different stores or numbers never produce the same SKU. */
  lemma SkuForInjective(s1: Id, n1: nat, s2: Id, n2: nat)
    requires SkuFor(s1, n1) == SkuFor(s2, n2)
    ensures s1 == s2 && n1 == n2
  {
    ParseSkuFor(s1, n1);
    ParseSkuFor(s2, n2);
  }

  /**
   * The SKU as written, from `countDocuments()` over the whole catalogue; the
   * count drops after a delete, so a number already in use can come back.
   */
  function SkuAsWritten(count: nat, store: Id): string {
    SkuFor(store, count + 1)
  }

  /**
   * A store whose products were numbered `1..n` in turn deletes any of them
   * but the last: the count has dropped to `n - 1`, so the next SKU as
   * written is `SKU-<store>-<n>`, which the last product still holds.
   */
  lemma SkuAsWrittenCollidesAfterDelete(products: seq<Product>, store: Id, k: nat)
    requires forall i :: 0 <= i < |products| ==> products[i].sku == SkuFor(store, i + 1)
    requires k + 1 < |products|
    ensures var rest := products[..k] + products[k + 1..];
      && |rest| == |products| - 1
      && (forall i :: 0 <= i < |rest| ==> rest[i] in products)
      && SkuAsWritten(|rest|, store) == rest[|rest| - 1].sku
  {
    var rest := products[..k] + products[k + 1..];
    assert forall i :: 0 <= i < |rest| ==> rest[i] == products[if i < k then i else i + 1];
    assert rest[|rest| - 1] == products[|products| - 1];
  }

  /** The largest sequence number among the catalogue's well-formed SKUs (0 if none). */
  function MaxSkuNumber(products: seq<Product>): (m: nat)
    ensures forall k :: 0 <= k < |products| && ParseSku(products[k].sku).Some? ==>
              ParseSku(products[k].sku).value.1 <= m
  {
    if products == [] then 0
    else
      var rest := MaxSkuNumber(products[1..]);
      match ParseSku(products[0].sku)
      case Some((_, n)) => if n > rest then n else rest
      case None => rest
  }

  /** The SKU with a number past every number in use. */
  function NextSku(products: seq<Product>, store: Id): string {
    SkuFor(store, MaxSkuNumber(products) + 1)
  }

  /** The next SKU is never one a product of the catalogue already holds. */
  lemma NextSkuFresh(products: seq<Product>, store: Id)
    ensures forall k :: 0 <= k < |products| ==> products[k].sku != NextSku(products, store)
  {
    ParseSkuFor(store, MaxSkuNumber(products) + 1);
  }

  /** In a catalogue whose numbers run up to its size, both rules give `count + 1`. */
  lemma NextSkuAgreesWithoutDeletes(products: seq<Product>, store: Id)
    requires MaxSkuNumber(products) == |products|
    ensures NextSku(products, store) == SkuAsWritten(|products|, store)
  {
  }

  /**
   * The `pre("save")` hook: a product without a SKU is given one built from
   * the document count; a SKU already set is kept. Mongoose validates before
   * the hook runs and `sku` is required, so every product that reaches the
   * hook on a save already has a SKU and the hook leaves it unchanged.
   */
  function SkuHook(p: Product, count: nat): (r: Product)
    ensures ProductValid(p) ==> r == p
    ensures p.sku != [] ==> r == p
    ensures p.sku == [] ==> r == p.(sku := r.sku) && ParseSku(r.sku) == Some((p.store, count + 1))
  {
    if p.sku != [] then p
    else
      ParseSkuFor(p.store, count + 1);
      p.(sku := SkuAsWritten(count, p.store))
  }
}
