/**
 * The product routes: creation by the owner of an approved store, the
 * seller's own listing, update and delete behind the store-ownership check,
 * and the search filter.
 */
module ProductController {
  import opened Wrappers
  import opened Common
  import opened Seqs
  import opened Strings
  import opened Sorting
  import opened ProductModel
  import opened StoreModel
  import opened UserModel
  import opened Database

  /** The separator the product forms put between image URLs. */
  const ImageSeparator: string := ",next,"

  /** `images.split(",next,")`: the pieces join back to the input and none holds the separator. */
  function SplitImages(images: string): (r: seq<string>)
    ensures |r| >= 1
    ensures Join(r, ImageSeparator) == images
    ensures forall k :: 0 <= k < |r| ==> !Occurs(r[k], ImageSeparator)
  {
    JoinSplit(images, ImageSeparator);
    SplitPiecesAvoidSeparator(images, ImageSeparator);
    Split(images, ImageSeparator)
  }

  // ---------------------------------------------------------------- createProduct

  /** The body of a create request; `images` is the joined string, absent when not sent. */
  datatype ProductBody = ProductBody(
    name: string, description: string, price: int, stock: Option<int>, category: string, images: Option<string>)

  function BodyInput(body: ProductBody, images: seq<string>): ProductInput {
    ProductInput(body.name, body.description, body.price, body.stock, body.category, images)
  }

  /** `Store.findOne({ owner, status: "approved" })`. */
  function FindApprovedStoreOf(stores: seq<Store>, owner: Id): (r: Option<nat>)
    ensures r.Some? ==> r.value < |stores| && stores[r.value].owner == owner && stores[r.value].status == Approved
    ensures r.None? ==> forall k :: 0 <= k < |stores| ==> !(stores[k].owner == owner && stores[k].status == Approved)
  {
    FirstIndex(stores, (s: Store) => s.owner == owner && s.status == Approved)
  }

  /** Some product of the catalogue already holds `sku` (the unique index then rejects the insert). */
  predicate SkuTaken(products: seq<Product>, sku: string) {
    exists k :: 0 <= k < |products| && products[k].sku == sku
  }

  /** What a create answers and inserts. */
  datatype Creation = Creation(reply: Reply<Product>, created: Option<Product>)

  /** `Product.create` for a store with a SKU chosen: images split, validators, unique index. */
  function CreateFrom(products: seq<Product>, store: Id, sku: string, body: ProductBody, newId: Id, now: Time)
    : Creation
  {
    if body.images.None? then Creation(Err(500, "Server error"), None)
    else
      match CreateRecord(newId, store, sku, BodyInput(body, SplitImages(body.images.value)), now)
      case None => Creation(Err(500, "Server error"), None)
      case Some(p) =>
        if SkuTaken(products, sku) then Creation(Err(500, "Server error"), None)
        else Creation(Ok(201, p), Some(p))
  }

  const NeedApprovedStore: string := "You need an approved store to create products"

  /** `createProduct` with the SKU numbered past every number in use. */
  function CreateProductSpec(stores: seq<Store>, products: seq<Product>, caller: Id, body: ProductBody, newId: Id,
                             now: Time): Creation
  {
    match FindApprovedStoreOf(stores, caller)
    case None => Creation(Err(403, NeedApprovedStore), None)
    case Some(k) => CreateFrom(products, stores[k].id, NextSku(products, stores[k].id), body, newId, now)
  }

  /** `createProduct` as written, numbering the SKU from the document count. */
  function CreateProductAsWritten(stores: seq<Store>, products: seq<Product>, caller: Id, body: ProductBody,
                                  newId: Id, now: Time): Creation
  {
    match FindApprovedStoreOf(stores, caller)
    case None => Creation(Err(403, NeedApprovedStore), None)
    case Some(k) => CreateFrom(products, stores[k].id, SkuAsWritten(|products|, stores[k].id), body, newId, now)
  }

  /** Only the owner of an approved store may create products; everybody else gets 403. */
  lemma CreateProductNeedsApprovedStore(stores: seq<Store>, products: seq<Product>, caller: Id, body: ProductBody,
                                        newId: Id, now: Time)
    ensures CreateProductSpec(stores, products, caller, body, newId, now).reply == Err(403, NeedApprovedStore)
            <==> forall k :: 0 <= k < |stores| ==> !(stores[k].owner == caller && stores[k].status == Approved)
    ensures CreateProductSpec(stores, products, caller, body, newId, now).created.Some? ==>
              exists k :: 0 <= k < |stores| && stores[k].owner == caller && stores[k].status == Approved
  {
  }

  /**
   * A created product belongs to the caller's approved store, holds the split
   * image list and passes the schema with its defaults applied. Creation
   * fails only for missing images or a schema violation.
   */
  lemma CreatedProduct(stores: seq<Store>, products: seq<Product>, caller: Id, body: ProductBody, newId: Id,
                       now: Time)
    requires FindApprovedStoreOf(stores, caller).Some?
    ensures var store := stores[FindApprovedStoreOf(stores, caller).value].id;
      var c := CreateProductSpec(stores, products, caller, body, newId, now);
      && (c.created.Some? <==>
            body.images.Some? &&
            CreateRecord(newId, store, NextSku(products, store), BodyInput(body, SplitImages(body.images.value)), now).Some?)
      && (c.created.Some? ==>
            var p := c.created.value;
            && c.reply == Ok(201, p)
            && p.id == newId && p.store == store && p.sku == NextSku(products, store)
            && p.images == SplitImages(body.images.value)
            && ProductValid(p) && p.isActive && p.totalSales == 0 && p.stock == body.stock.GetOr(0))
  {
    var store := stores[FindApprovedStoreOf(stores, caller).value].id;
    CreatedProductSku(products, store);
    CreateFromFreshSku(products, store, NextSku(products, store), body, newId, now);
  }

  /** With a SKU nobody holds, `CreateFrom` fails only for missing images or the validators. */
  lemma CreateFromFreshSku(products: seq<Product>, store: Id, sku: string, body: ProductBody, newId: Id, now: Time)
    requires !SkuTaken(products, sku)
    ensures var c := CreateFrom(products, store, sku, body, newId, now);
      && (c.created.Some? <==>
            body.images.Some? && CreateRecord(newId, store, sku, BodyInput(body, SplitImages(body.images.value)), now).Some?)
      && (c.created.Some? ==>
            var p := c.created.value;
            && c.reply == Ok(201, p)
            && p.id == newId && p.store == store && p.sku == sku
            && p.images == SplitImages(body.images.value)
            && ProductValid(p) && p.isActive && p.totalSales == 0 && p.stock == body.stock.GetOr(0))
  {
  }

  /** The SKU of a created product names its store and a number past every number in use. */
  lemma CreatedProductSku(products: seq<Product>, store: Id)
    ensures ParseSku(NextSku(products, store)) == Some((store, MaxSkuNumber(products) + 1))
    ensures !SkuTaken(products, NextSku(products, store))
  {
    NextSkuFresh(products, store);
    ParseSkuFor(store, MaxSkuNumber(products) + 1);
  }

  /**
   * As written, after the first of a store's two products is deleted the
   * next create of that store reuses the remaining product's SKU and the
   * unique index rejects it, where the corrected rule creates the product.
   */
  lemma CreateAsWrittenCollidesAfterDelete(s: Store, remaining: Product, body: ProductBody, newId: Id, now: Time)
    requires s.status == Approved
    requires remaining.sku == SkuFor(s.id, 2)
    requires body.images.Some?
    requires CreateRecord(newId, s.id, SkuFor(s.id, 2), BodyInput(body, SplitImages(body.images.value)), now).Some?
    ensures CreateProductAsWritten([s], [remaining], s.owner, body, newId, now).reply == Err(500, "Server error")
    ensures CreateProductSpec([s], [remaining], s.owner, body, newId, now).reply.Ok?
  {
    assert FindApprovedStoreOf([s], s.owner) == Some(0);
    assert SkuAsWritten(|[remaining]|, s.id) == SkuFor(s.id, 2);
    assert [remaining][0].sku == SkuFor(s.id, 2);
    assert SkuTaken([remaining], SkuAsWritten(|[remaining]|, s.id));
    var next := NextSku([remaining], s.id);
    CreatedProductSku([remaining], s.id);
    var input := BodyInput(body, SplitImages(body.images.value));
    CreateRecordAnySku(newId, s.id, SkuFor(s.id, 2), next, input, now);
    CreateFromFreshSku([remaining], s.id, next, body, newId, now);
  }

  /** Whether the validators pass does not depend on which non-empty SKU is given. */
  lemma CreateRecordAnySku(id: Id, store: Id, sku1: string, sku2: string, input: ProductInput, now: Time)
    requires sku1 != [] && sku2 != []
    ensures CreateRecord(id, store, sku1, input, now).Some? == CreateRecord(id, store, sku2, input, now).Some?
  {
  }

  /** `createProduct`: the approved-store check, the SKU, the split image list and the insert. */
  method CreateProduct(db: Db, caller: Id, body: ProductBody, newId: Id, now: Time) returns (reply: Reply<Product>)
    requires db.Valid()
    requires forall k :: 0 <= k < |db.products| ==> db.products[k].id != newId
    modifies db
    ensures db.Valid()
    ensures var c := CreateProductSpec(old(db.stores), old(db.products), caller, body, newId, now);
      reply == c.reply && db.products == old(db.products) + (if c.created.Some? then [c.created.value] else [])
    ensures db.users == old(db.users) && db.stores == old(db.stores) && db.orders == old(db.orders)
            && db.carts == old(db.carts)
  {
    var c := CreateProductSpec(db.stores, db.products, caller, body, newId, now);
    if c.created.Some? {
      CreateProductKeepsValid(db.stores, db.products, caller, body, newId, now);
      db.products := db.products + [c.created.value];
    }
    reply := c.reply;
  }

  /** A created product has a fresh id and SKU and passes the schema, so the catalogue stays consistent. */
  lemma CreateProductKeepsValid(stores: seq<Store>, products: seq<Product>, caller: Id, body: ProductBody, newId: Id,
                                now: Time)
    requires ProductsValid(products)
    requires forall k :: 0 <= k < |products| ==> products[k].id != newId
    requires CreateProductSpec(stores, products, caller, body, newId, now).created.Some?
    ensures ProductsValid(products + [CreateProductSpec(stores, products, caller, body, newId, now).created.value])
  {
    var k := FindApprovedStoreOf(stores, caller).value;
    CreatedProduct(stores, products, caller, body, newId, now);
    CreatedProductSku(products, stores[k].id);
    ProductsValidAppend(products, CreateProductSpec(stores, products, caller, body, newId, now).created.value);
  }

  // ---------------------------------------------------------------- getStoreProducts

  /** `getStoreProducts`: the caller's store's active products, newest first. */
  function GetStoreProducts(stores: seq<Store>, products: seq<Product>, caller: Caller): Reply<seq<Product>> {
    if caller.role != Seller then Err(403, "Only sellers can access their store products")
    else
      match FindStoreOf(stores, caller.id)
      case None => Err(404, "Store not found. Please create a store first.")
      case Some(k) =>
        if stores[k].status != Approved then Err(403, "Your store is not approved yet")
        else
          var id := stores[k].id;
          Ok(200, SortNewestFirst(Filter(products, (p: Product) => p.store == id && p.isActive),
                                  (p: Product) => p.createdAt))
  }

  /**
   * A non-seller gets 403, a seller without a store 404, a seller whose
   * store is not approved 403; otherwise the reply holds exactly the store's
   * active products, each once, newest first.
   */
  lemma StoreProductsView(stores: seq<Store>, products: seq<Product>, caller: Caller)
    ensures caller.role != Seller ==>
              GetStoreProducts(stores, products, caller) == Err(403, "Only sellers can access their store products")
    ensures caller.role == Seller && FindStoreOf(stores, caller.id).None? ==>
              GetStoreProducts(stores, products, caller) == Err(404, "Store not found. Please create a store first.")
    ensures caller.role == Seller && FindStoreOf(stores, caller.id).Some?
            && stores[FindStoreOf(stores, caller.id).value].status != Approved ==>
              GetStoreProducts(stores, products, caller) == Err(403, "Your store is not approved yet")
    ensures GetStoreProducts(stores, products, caller).Ok? ==>
              var id := stores[FindStoreOf(stores, caller.id).value].id;
              var r := GetStoreProducts(stores, products, caller).data;
              && multiset(r) == multiset(Filter(products, (p: Product) => p.store == id && p.isActive))
              && (forall p :: p in r <==> p in products && p.store == id && p.isActive)
              && (forall i, j :: 0 <= i < j < |r| ==> r[i].createdAt >= r[j].createdAt)
  {
    if GetStoreProducts(stores, products, caller).Ok? {
      var id := stores[FindStoreOf(stores, caller.id).value].id;
      var pred := (p: Product) => p.store == id && p.isActive;
      var r := GetStoreProducts(stores, products, caller).data;
      assert NewestFirst(r, (p: Product) => p.createdAt);
      forall p ensures p in r <==> p in products && p.store == id && p.isActive {
        FilterMembership(products, pred, p);
        assert p in r <==> p in multiset(r);
      }
    }
  }

  // ---------------------------------------------------------------- updateProduct and deleteProduct

  /**
   * The paths an update body may set; `images` is the joined string. The body
   * is spread into the update whole, so it can also move the product to
   * another store, rename its SKU and set its counters.
   */
  datatype ProductUpdate = ProductUpdate(
    name: Option<string>, description: Option<string>, price: Option<int>, stock: Option<int>,
    category: Option<string>, isActive: Option<bool>, images: Option<string>,
    store: Option<Id>, sku: Option<string>, rating: Option<real>, totalRatings: Option<int>, totalSales: Option<int>)

  /** `$set` of the body's paths with the trimming setters, `images` replaced by the split list. */
  function ApplyUpdate(p: Product, u: ProductUpdate, images: seq<string>): Product {
    p.(name := if u.name.Some? then Trim(u.name.value) else p.name,
       description := if u.description.Some? then Trim(u.description.value) else p.description,
       price := u.price.GetOr(p.price),
       stock := u.stock.GetOr(p.stock),
       category := if u.category.Some? then Trim(u.category.value) else p.category,
       isActive := u.isActive.GetOr(p.isActive),
       images := images,
       store := u.store.GetOr(p.store),
       sku := u.sku.GetOr(p.sku),
       rating := u.rating.GetOr(p.rating),
       totalRatings := u.totalRatings.GetOr(p.totalRatings),
       totalSales := u.totalSales.GetOr(p.totalSales))
  }

  /** A product other than the one at `k` holds `sku`, so the unique index rejects setting it there. */
  predicate SkuHeldByOther(products: seq<Product>, k: nat, sku: string) {
    exists i :: 0 <= i < |products| && i != k && products[i].sku == sku
  }

  /** What an update or delete answers and the catalogue it leaves. */
  datatype Edit<T> = Edit(reply: Reply<T>, products: seq<Product>)

  /** The ownership check of `updateProduct` and `deleteProduct`: the product's store exists and the caller owns it. */
  predicate OwnsStoreOf(stores: seq<Store>, p: Product, caller: Id) {
    FindStore(stores, p.store).Some? && stores[FindStore(stores, p.store).value].owner == caller
  }

  /** `updateProduct` with `runValidators`. */
  function UpdateProductSpec(stores: seq<Store>, products: seq<Product>, caller: Id, id: Id, u: ProductUpdate)
    : Edit<Product>
  {
    match FindProduct(products, id)
    case None => Edit(Err(404, "Product not found"), products)
    case Some(k) =>
      if !OwnsStoreOf(stores, products[k], caller) then Edit(Err(403, "Not authorized"), products)
      else if u.images.None? then Edit(Err(500, "Server error"), products)
      else
        var updated := ApplyUpdate(products[k], u, SplitImages(u.images.value));
        if !ProductValid(updated) then Edit(Err(500, "Server error"), products)
        else if u.sku.Some? && SkuHeldByOther(products, k, u.sku.value) then Edit(Err(500, "Server error"), products)
        else Edit(Ok(200, updated), products[k := updated])
  }

  /**
   * An update of an unknown product gets 404 and one whose store the caller
   * does not own 403, both leaving the catalogue as it was. An update
   * succeeds exactly when the images are sent, the updated product passes the
   * validators and any new SKU is held by no other product; it then replaces
   * that one product, sets exactly the sent paths with the images re-split,
   * keeps its id, and changes its store and SKU only when the body sets them.
   */
  lemma UpdateProductEffects(stores: seq<Store>, products: seq<Product>, caller: Id, id: Id, u: ProductUpdate)
    requires ProductsValid(products)
    ensures var e := UpdateProductSpec(stores, products, caller, id, u);
      && (FindProduct(products, id).None? ==> e == Edit(Err(404, "Product not found"), products))
      && ((FindProduct(products, id).Some? && !OwnsStoreOf(stores, products[FindProduct(products, id).value], caller))
          ==> e == Edit(Err(403, "Not authorized"), products))
      && (e.reply.Err? ==> e.products == products)
      && (e.reply.Ok? <==>
            && FindProduct(products, id).Some?
            && OwnsStoreOf(stores, products[FindProduct(products, id).value], caller)
            && u.images.Some?
            && ProductValid(ApplyUpdate(products[FindProduct(products, id).value], u, SplitImages(u.images.value)))
            && !(u.sku.Some? && SkuHeldByOther(products, FindProduct(products, id).value, u.sku.value)))
      && (e.reply.Ok? ==>
            var k := FindProduct(products, id).value;
            && e.products == products[k := e.reply.data]
            && e.reply.data == ApplyUpdate(products[k], u, SplitImages(u.images.value))
            && e.reply.data.id == id
            && e.reply.data.store == u.store.GetOr(products[k].store)
            && e.reply.data.sku == u.sku.GetOr(products[k].sku)
            && (forall i :: 0 <= i < |products| && i != k ==> products[i].sku != e.reply.data.sku)
            && ProductsValid(e.products))
  {
    var e := UpdateProductSpec(stores, products, caller, id, u);
    if e.reply.Ok? {
      var k := FindProduct(products, id).value;
      ProductsValidReplace(products, k, e.reply.data);
    }
  }

  /** `updateProduct`: ownership check, then `findByIdAndUpdate` of the one product. */
  method UpdateProduct(db: Db, caller: Id, id: Id, u: ProductUpdate) returns (reply: Reply<Product>)
    requires db.Valid()
    modifies db
    ensures db.Valid()
    ensures var e := UpdateProductSpec(old(db.stores), old(db.products), caller, id, u);
      reply == e.reply && db.products == e.products
    ensures db.users == old(db.users) && db.stores == old(db.stores) && db.orders == old(db.orders)
            && db.carts == old(db.carts)
  {
    var k := FindProduct(db.products, id);
    if k.None? {
      return Err(404, "Product not found");
    }
    var p := db.products[k.value];
    var s := FindStore(db.stores, p.store);
    if s.None? || db.stores[s.value].owner != caller {
      return Err(403, "Not authorized");
    }
    if u.images.None? {
      return Err(500, "Server error");
    }
    var updated := ApplyUpdate(p, u, SplitImages(u.images.value));
    if !ProductValid(updated) {
      return Err(500, "Server error");
    }
    if u.sku.Some? && SkuHeldByOther(db.products, k.value, u.sku.value) {
      return Err(500, "Server error");
    }
    UpdateProductEffects(db.stores, db.products, caller, id, u);
    db.products := db.products[k.value := updated];
    reply := Ok(200, updated);
  }

  /** `deleteProduct`. */
  function DeleteProductSpec(stores: seq<Store>, products: seq<Product>, caller: Id, id: Id): Edit<string> {
    match FindProduct(products, id)
    case None => Edit(Err(404, "Product not found"), products)
    case Some(k) =>
      if !OwnsStoreOf(stores, products[k], caller) then Edit(Err(403, "Not authorized"), products)
      else Edit(Ok(200, "Product deleted"), products[..k] + products[k + 1..])
  }

  /**
   * A delete answers 404 or 403 under the same conditions as an update and
   * then changes nothing; a successful delete removes exactly that product
   * (ids are unique, so none with its id remains) and keeps the rest in order.
   */
  lemma DeleteProductEffects(stores: seq<Store>, products: seq<Product>, caller: Id, id: Id)
    requires ProductsValid(products)
    ensures var e := DeleteProductSpec(stores, products, caller, id);
      && (FindProduct(products, id).None? ==> e == Edit(Err(404, "Product not found"), products))
      && ((FindProduct(products, id).Some? && !OwnsStoreOf(stores, products[FindProduct(products, id).value], caller))
          ==> e == Edit(Err(403, "Not authorized"), products))
      && (e.reply.Ok? ==>
            && OwnsStoreOf(stores, products[FindProduct(products, id).value], caller)
            && |e.products| == |products| - 1
            && (forall k :: 0 <= k < |e.products| ==> e.products[k].id != id)
            && (forall p :: p in products && p.id != id ==> p in e.products))
  {
    var e := DeleteProductSpec(stores, products, caller, id);
    if e.reply.Ok? {
      var k := FindProduct(products, id).value;
      RemoveAtOthers(products, k);
    }
  }

  /** Removing the product at `k` leaves one fewer, none with its id (ids are unique), and every other product. */
  lemma RemoveAtOthers(products: seq<Product>, k: nat)
    requires k < |products|
    requires forall i :: 0 <= i < |products| && i != k ==> products[i].id != products[k].id
    ensures var r := products[..k] + products[k + 1..];
      && |r| == |products| - 1
      && (forall i :: 0 <= i < |r| ==> r[i].id != products[k].id)
      && (forall p :: p in products && p.id != products[k].id ==> p in r)
  {
    var r := products[..k] + products[k + 1..];
    assert forall i :: 0 <= i < |r| ==> r[i] == products[if i < k then i else i + 1];
    forall p | p in products && p.id != products[k].id ensures p in r {
      var i :| 0 <= i < |products| && products[i] == p;
      assert r[if i < k then i else i - 1] == p;
    }
  }

  /** `deleteProduct`: ownership check, then `product.deleteOne()`. */
  method DeleteProduct(db: Db, caller: Id, id: Id) returns (reply: Reply<string>)
    requires db.Valid()
    modifies db
    ensures db.Valid()
    ensures var e := DeleteProductSpec(old(db.stores), old(db.products), caller, id);
      reply == e.reply && db.products == e.products
    ensures db.users == old(db.users) && db.stores == old(db.stores) && db.orders == old(db.orders)
            && db.carts == old(db.carts)
  {
    var k := FindProduct(db.products, id);
    if k.None? {
      return Err(404, "Product not found");
    }
    var s := FindStore(db.stores, db.products[k.value].store);
    if s.None? || db.stores[s.value].owner != caller {
      return Err(403, "Not authorized");
    }
    ProductsValidRemove(db.products, k.value);
    db.products := db.products[..k.value] + db.products[k.value + 1..];
    reply := Ok(200, "Product deleted");
  }

  // ---------------------------------------------------------------- searchProducts

  /** The `filter` object: `isActive: true`, an optional `$text` search and an optional category. */
  datatype SearchFilter = SearchFilter(isActive: bool, text: Option<string>, category: Option<string>)

  /** `searchProducts` building its filter field by field. */
  method BuildSearchFilter(query: Option<string>, category: Option<string>) returns (f: SearchFilter)
    ensures f.isActive
    ensures f.text.Some? <==> Truthy(query)
    ensures f.text.Some? ==> f.text == query
    ensures f.category.Some? <==> Truthy(category)
    ensures f.category.Some? ==> f.category == category
  {
    f := SearchFilter(true, None, None);
    if Truthy(query) {
      f := f.(text := query);
    }
    if Truthy(category) {
      f := f.(category := category);
    }
  }

  /** A product the filter selects; `textMatches` stands for MongoDB's `$text` index. */
  predicate Selects(f: SearchFilter, textMatches: (string, Product) -> bool, p: Product) {
    p.isActive == f.isActive
    && (f.text.Some? ==> textMatches(f.text.value, p))
    && (f.category.Some? ==> p.category == f.category.value)
  }

  /** `Product.find(filter).sort({ createdAt: -1 })`. */
  function Search(products: seq<Product>, f: SearchFilter, textMatches: (string, Product) -> bool): seq<Product> {
    SortNewestFirst(Filter(products, (p: Product) => Selects(f, textMatches, p)), (p: Product) => p.createdAt)
  }

  /**
   * Whatever the query, only active products are found; a category, when
   * given, is matched exactly; with neither query nor category every active
   * product is found; results are newest first.
   */
  lemma SearchResults(products: seq<Product>, query: Option<string>, category: Option<string>,
                      textMatches: (string, Product) -> bool, f: SearchFilter)
    requires f.isActive
    requires f.text.Some? <==> Truthy(query)
    requires f.text.Some? ==> f.text == query
    requires f.category.Some? <==> Truthy(category)
    requires f.category.Some? ==> f.category == category
    ensures var r := Search(products, f, textMatches);
      && (forall p :: p in r ==> p in products && p.isActive)
      && (Truthy(category) ==> forall p :: p in r ==> p.category == category.value)
      && (!Truthy(query) && !Truthy(category) ==> forall p :: p in r <==> p in products && p.isActive)
      && (forall i, j :: 0 <= i < j < |r| ==> r[i].createdAt >= r[j].createdAt)
  {
    var pred := (p: Product) => Selects(f, textMatches, p);
    var r := Search(products, f, textMatches);
    assert NewestFirst(r, (p: Product) => p.createdAt);
    forall p ensures p in r <==> p in products && Selects(f, textMatches, p) {
      FilterMembership(products, pred, p);
      assert p in r <==> p in multiset(r);
    }
  }
}
