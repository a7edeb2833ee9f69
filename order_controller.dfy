/**
 * The order routes: placing an order (price snapshot, stock checks, creation,
 * stock decrement), reading one order, status and payment updates through
 * the document's save hooks, and the seller's per-store view of orders.
 */
module OrderController {
  import opened Wrappers
  import opened Common
  import opened Seqs
  import opened Strings
  import opened Sorting
  import opened OrderModel
  import opened ProductModel
  import opened StoreModel
  import opened UserModel
  import opened Database

  // ---------------------------------------------------------------- placing an order

  /** One `{ product, quantity }` of the request body. */
  datatype ItemRequest = ItemRequest(product: Id, quantity: int)

  /** The callback of `items.map(...)`: look the product up, check its stock, snapshot its price. */
  function PriceItem(products: seq<Product>, req: ItemRequest): Result<LineItem, string> {
    match FindProduct(products, req.product)
    case None => Failure("Product not found")
    case Some(k) =>
      if products[k].stock < req.quantity then Failure("Not enough stock for " + products[k].name)
      else Success(LineItem(req.product, req.quantity, products[k].price))
  }

  /** Item `k` is the first one that cannot be priced, failing with `e`. */
  predicate FirstFailure(products: seq<Product>, reqs: seq<ItemRequest>, k: int, e: string) {
    && 0 <= k < |reqs|
    && PriceItem(products, reqs[k]) == Failure(e)
    && forall j :: 0 <= j < k ==> PriceItem(products, reqs[j]).Success?
  }

  /**
   * `itemsWithPrices`: every item priced, in request order, or the error of
   * the first item that fails.
   */
  function PriceItems(products: seq<Product>, reqs: seq<ItemRequest>): (r: Result<seq<LineItem>, string>)
    ensures r.Success? ==> |r.value| == |reqs|
    ensures r.Success? ==> forall k :: 0 <= k < |reqs| ==> PriceItem(products, reqs[k]) == Success(r.value[k])
    ensures r.Failure? ==> exists k :: FirstFailure(products, reqs, k, r.error)
    ensures (forall k :: 0 <= k < |reqs| ==> PriceItem(products, reqs[k]).Success?) ==> r.Success?
    decreases |reqs|
  {
    if reqs == [] then Success([])
    else
      var init := reqs[..|reqs| - 1];
      var last := |reqs| - 1;
      assert forall k :: 0 <= k < |init| ==> init[k] == reqs[k];
      match PriceItems(products, init)
      case Failure(e) =>
        var k :| FirstFailure(products, init, k, e);
        assert FirstFailure(products, reqs, k, e);
        Failure(e)
      case Success(lines) =>
        match PriceItem(products, reqs[last])
        case Failure(e) =>
          assert FirstFailure(products, reqs, last, e);
          Failure(e)
        case Success(line) =>
          assert forall k :: 0 <= k < last ==> (lines + [line])[k] == lines[k];
          Success(lines + [line])
  }

  /** When the items before `i` can be priced and item `i` cannot, that item's error is the result. */
  lemma PriceItemsFirstFailure(products: seq<Product>, reqs: seq<ItemRequest>, i: nat, e: string)
    requires i < |reqs|
    requires forall j :: 0 <= j < i ==> PriceItem(products, reqs[j]).Success?
    requires PriceItem(products, reqs[i]) == Failure(e)
    ensures PriceItems(products, reqs) == Failure(e)
  {
    var r := PriceItems(products, reqs);
    if r.Failure? {
      var k :| FirstFailure(products, reqs, k, r.error);
      assert k == i;
    }
  }

  /** A priced line carries the product's current price, and the product had enough stock. */
  lemma PricedLine(products: seq<Product>, reqs: seq<ItemRequest>, k: nat)
    requires PriceItems(products, reqs).Success?
    requires k < |reqs|
    ensures var line := PriceItems(products, reqs).value[k];
      && line.product == reqs[k].product && line.quantity == reqs[k].quantity
      && FindProduct(products, reqs[k].product).Some?
      && line.price == products[FindProduct(products, reqs[k].product).value].price
      && products[FindProduct(products, reqs[k].product).value].stock >= reqs[k].quantity
  {
  }

  /** The state of the catalogue after the decrements so far, and the first save error if any. */
  datatype StockUpdate = StockUpdate(products: seq<Product>, error: Option<string>)

  const ProductValidationFailed: string := "Product validation failed"

  /** `product.stock -= item.quantity; await product.save()` for one item (skipped if the product is gone). */
  function DecrementOne(products: seq<Product>, req: ItemRequest): StockUpdate {
    match FindProduct(products, req.product)
    case None => StockUpdate(products, None)
    case Some(k) =>
      var updated := products[k].(stock := products[k].stock - req.quantity);
      if ProductValid(updated) then StockUpdate(products[k := updated], None)
      else StockUpdate(products, Some(ProductValidationFailed))
  }

  /** The decrements one item after another, stopping at the first save that fails. */
  function Decrement(products: seq<Product>, reqs: seq<ItemRequest>): StockUpdate
    decreases |reqs|
  {
    if reqs == [] then StockUpdate(products, None)
    else
      var prev := Decrement(products, reqs[..|reqs| - 1]);
      if prev.error.Some? then prev else DecrementOne(prev.products, reqs[|reqs| - 1])
  }

  /** The decrements of the first `i + 1` items: those of the first `i`, then item `i` unless a save failed. */
  lemma DecrementSnoc(products: seq<Product>, reqs: seq<ItemRequest>, i: nat)
    requires i < |reqs|
    ensures var prev := Decrement(products, reqs[..i]);
            Decrement(products, reqs[..i + 1]) == if prev.error.Some? then prev else DecrementOne(prev.products, reqs[i])
  {
    var prefix := reqs[..i + 1];
    assert prefix[..|prefix| - 1] == reqs[..i];
    assert prefix[|prefix| - 1] == reqs[i];
  }

  /** The total quantity the request orders of product `id`. */
  function OrderedQuantity(reqs: seq<ItemRequest>, id: Id): int
    decreases |reqs|
  {
    if reqs == [] then 0
    else OrderedQuantity(reqs[..|reqs| - 1], id) + (if reqs[|reqs| - 1].product == id then reqs[|reqs| - 1].quantity else 0)
  }

  /** The request names each product at most once. */
  predicate DistinctProducts(reqs: seq<ItemRequest>) {
    forall i, j :: 0 <= i < j < |reqs| ==> reqs[i].product != reqs[j].product
  }

  lemma OrderedQuantityAbsent(reqs: seq<ItemRequest>, id: Id)
    requires forall k :: 0 <= k < |reqs| ==> reqs[k].product != id
    ensures OrderedQuantity(reqs, id) == 0
    decreases |reqs|
  {
    if reqs != [] {
      OrderedQuantityAbsent(reqs[..|reqs| - 1], id);
    }
  }

  /** `after` is `before` with each product's stock reduced by the quantity `reqs` orders of it. */
  predicate Decremented(before: seq<Product>, after: seq<Product>, reqs: seq<ItemRequest>) {
    |after| == |before| &&
    forall k :: 0 <= k < |before| ==> after[k] == before[k].(stock := before[k].stock - OrderedQuantity(reqs, before[k].id))
  }

  /** Once a save has failed, the later items change nothing. */
  lemma {:induction false} DecrementStops(products: seq<Product>, reqs: seq<ItemRequest>, i: nat)
    requires i <= |reqs| && Decrement(products, reqs[..i]).error.Some?
    ensures Decrement(products, reqs) == Decrement(products, reqs[..i])
    decreases |reqs|
  {
    if i < |reqs| {
      var init := reqs[..|reqs| - 1];
      assert init[..i] == reqs[..i];
      DecrementStops(products, init, i);
    } else {
      assert reqs[..i] == reqs;
    }
  }

  /** One more decrement of a product not yet touched extends `Decremented`. */
  lemma DecrementedStep(before: seq<Product>, mid: seq<Product>, init: seq<ItemRequest>, last: ItemRequest, k: nat)
    requires Decremented(before, mid, init)
    requires k < |before| && before[k].id == last.product
    requires OrderedQuantity(init, last.product) == 0
    requires forall j :: 0 <= j < |before| && j != k ==> before[j].id != last.product
    ensures Decremented(before, mid[k := before[k].(stock := before[k].stock - last.quantity)], init + [last])
  {
    var reqs := init + [last];
    assert reqs[..|reqs| - 1] == init;
    var after := mid[k := before[k].(stock := before[k].stock - last.quantity)];
    forall j | 0 <= j < |before|
      ensures after[j] == before[j].(stock := before[j].stock - OrderedQuantity(reqs, before[j].id))
    {
      if j != k {
        assert before[j].id != last.product;
      }
    }
  }

  lemma DecrementedKeepsIds(before: seq<Product>, after: seq<Product>, reqs: seq<ItemRequest>)
    requires Decremented(before, after, reqs)
    ensures forall j :: 0 <= j < |after| ==> after[j].id == before[j].id
  {
  }

  /** Lowering the stock of a valid product by at most its stock keeps it valid. */
  lemma StockDropValid(p: Product, q: int)
    requires ProductValid(p) && q <= p.stock
    ensures ProductValid(p.(stock := p.stock - q))
  {
  }

  /** The decrement of a product whose id occurs exactly once, when the result passes the schema. */
  lemma DecrementOneAt(mid: seq<Product>, last: ItemRequest, k: nat)
    requires k < |mid| && mid[k].id == last.product
    requires forall j :: 0 <= j < |mid| && j != k ==> mid[j].id != last.product
    requires ProductValid(mid[k].(stock := mid[k].stock - last.quantity))
    ensures DecrementOne(mid, last) == StockUpdate(mid[k := mid[k].(stock := mid[k].stock - last.quantity)], None)
  {
  }

  /**
   * With distinct products that all had enough stock, every save succeeds:
   * each ordered product's stock drops by its ordered quantity and every
   * other product is unchanged.
   */
  lemma {:induction false} DecrementDistinct(products: seq<Product>, reqs: seq<ItemRequest>)
    requires ProductsValid(products)
    requires DistinctProducts(reqs)
    requires forall k :: 0 <= k < |reqs| ==> PriceItem(products, reqs[k]).Success?
    ensures Decrement(products, reqs).error.None?
    ensures Decremented(products, Decrement(products, reqs).products, reqs)
    decreases |reqs|
  {
    if reqs == [] {
      assert Decremented(products, products, reqs);
    } else {
      var init := reqs[..|reqs| - 1];
      var last := reqs[|reqs| - 1];
      assert reqs == init + [last];
      assert forall k :: 0 <= k < |init| ==> init[k] == reqs[k];
      DecrementDistinct(products, init);
      var mid := Decrement(products, init).products;
      assert PriceItem(products, last).Success?;
      assert forall j :: 0 <= j < |init| ==> init[j].product != last.product;
      DecrementDistinctStep(products, mid, init, last);
    }
  }

  /** One step of `DecrementDistinct`: an item whose product no earlier item names, and which has the stock for it. */
  lemma DecrementDistinctStep(products: seq<Product>, mid: seq<Product>, init: seq<ItemRequest>, last: ItemRequest)
    requires ProductsValid(products)
    requires Decremented(products, mid, init)
    requires forall j :: 0 <= j < |init| ==> init[j].product != last.product
    requires PriceItem(products, last).Success?
    ensures DecrementOne(mid, last).error.None?
    ensures Decremented(products, DecrementOne(mid, last).products, init + [last])
  {
    var k := FindProduct(products, last.product).value;
    assert products[k].stock >= last.quantity;
    OrderedQuantityAbsent(init, last.product);
    assert mid[k] == products[k];
    DecrementedKeepsIds(products, mid, init);
    assert forall j :: 0 <= j < |mid| && j != k ==> mid[j].id != last.product;
    StockDropValid(products[k], last.quantity);
    assert mid[k].(stock := mid[k].stock - last.quantity) == products[k].(stock := products[k].stock - last.quantity);
    DecrementOneAt(mid, last, k);
    DecrementedStep(products, mid, init, last, k);
  }

  /** What placing an order writes and answers. */
  datatype Placement = Placement(reply: Reply<Order>, created: Option<Order>, products: seq<Product>)

  /** The order `Order.create` saves for priced lines. */
  function PlacedOrder(newId: Id, caller: Id, lines: seq<LineItem>, address: Address, paymentMethod: string,
                       now: Time): Result<Order, string> {
    SaveCorrected(NewOrder(newId, caller, lines, address, paymentMethod, [HistoryEntry(Pending, now, None)],
                           now + SevenDays, now), false, Pending, now)
  }

  /** `createOrder` from the request to the reply, the new order and the resulting catalogue. */
  function CreateOrderSpec(products: seq<Product>, caller: Id, items: Option<seq<ItemRequest>>, address: Address,
                           paymentMethod: string, newId: Id, now: Time): Placement {
    if items.None? || items.value == [] then Placement(Err(400, "No order items"), None, products)
    else
      match PriceItems(products, items.value)
      case Failure(e) => Placement(Err(500, e), None, products)
      case Success(lines) =>
        match PlacedOrder(newId, caller, lines, address, paymentMethod, now)
        case Failure(e) => Placement(Err(500, e), None, products)
        case Success(o) =>
          var u := Decrement(products, items.value);
          Placement(if u.error.Some? then Err(500, u.error.value) else Ok(201, o), Some(o), u.products)
  }

  /**
   * `createOrder` as written: the create's save fails validation
   * (`CreateSaveAsWritten`), so the handler's catch answers 500 and the stock
   * loop is never reached.
   */
  function CreateOrderAsWritten(products: seq<Product>, caller: Id, items: Option<seq<ItemRequest>>, address: Address,
                                paymentMethod: string, newId: Id, now: Time): Placement {
    if items.None? || items.value == [] then Placement(Err(400, "No order items"), None, products)
    else
      match PriceItems(products, items.value)
      case Failure(e) => Placement(Err(500, e), None, products)
      case Success(lines) =>
        var saved := CreateSaveAsWritten(NewOrder(newId, caller, lines, address, paymentMethod,
                                                  [HistoryEntry(Pending, now, None)], now + SevenDays, now));
        Placement(Err(500, saved.error), None, products)
  }

  /**
   * As written, `createOrder` never answers 201, never creates an order and
   * never changes stock: wherever the corrected create places an order, the
   * code as written answers 500 with the `required` message for
   * `totalAmount`. Everywhere else the two agree.
   */
  lemma CreateAsWrittenNeverPlaces(products: seq<Product>, caller: Id, items: Option<seq<ItemRequest>>,
                                   address: Address, paymentMethod: string, newId: Id, now: Time)
    ensures var w := CreateOrderAsWritten(products, caller, items, address, paymentMethod, newId, now);
      && w.reply.Err? && w.created.None? && w.products == products
      && (CreateOrderSpec(products, caller, items, address, paymentMethod, newId, now).created.Some? ==>
            w.reply == Err(500, TotalRequired))
    ensures CreateOrderAsWritten(products, caller, items, address, paymentMethod, newId, now)
              == CreateOrderSpec(products, caller, items, address, paymentMethod, newId, now)
            <==> CreateOrderSpec(products, caller, items, address, paymentMethod, newId, now).created.None?
  {
    if items.Some? && items.value != [] && PriceItems(products, items.value).Success? {
      var lines := PriceItems(products, items.value).value;
      var draft := NewOrder(newId, caller, lines, address, paymentMethod, [HistoryEntry(Pending, now, None)],
                            now + SevenDays, now);
      SaveSucceedsIff(draft, false, Pending, now);
    }
  }

  /** Missing or empty items, an unknown product or short stock: nothing is created and no stock changes. */
  lemma CreateOrderRejections(products: seq<Product>, caller: Id, items: Option<seq<ItemRequest>>, address: Address,
                              paymentMethod: string, newId: Id, now: Time)
    ensures var p := CreateOrderSpec(products, caller, items, address, paymentMethod, newId, now);
      && ((items.None? || items.value == []) ==> p == Placement(Err(400, "No order items"), None, products))
      && (items.Some? && items.value != [] &&
          (exists k :: 0 <= k < |items.value| && PriceItem(products, items.value[k]).Failure?) ==>
            p.reply.Err? && p.reply.code == 500 && p.created.None? && p.products == products)
  {
  }

  /**
   * A placed order holds the request's products and quantities at the
   * products' current prices, is pending with payment pending, has a single
   * `pending` history entry, is due seven days from now, and totals its lines.
   */
  lemma CreatedOrderShape(products: seq<Product>, caller: Id, items: Option<seq<ItemRequest>>, address: Address,
                          paymentMethod: string, newId: Id, now: Time)
    requires CreateOrderSpec(products, caller, items, address, paymentMethod, newId, now).created.Some?
    ensures var o := CreateOrderSpec(products, caller, items, address, paymentMethod, newId, now).created.value;
      && items.Some? && |o.items| == |items.value|
      && (forall k :: 0 <= k < |o.items| ==> PriceItem(products, items.value[k]) == Success(o.items[k]))
      && o.id == newId && o.user == caller
      && o.status == Pending && o.paymentStatus == PaymentPending
      && o.statusHistory == [HistoryEntry(Pending, now, None)]
      && o.estimatedDeliveryDate == Some(now + SevenDays)
      && o.totalAmount == LinesTotal(o.items) && o.totalAmount >= 0
      && OrderConsistent(o)
  {
    var lines := PriceItems(products, items.value).value;
    var draft := NewOrder(newId, caller, lines, address, paymentMethod, [HistoryEntry(Pending, now, None)],
                          now + SevenDays, now);
    SaveTotal(draft, false, Pending, now);
    SaveHistory(draft, false, Pending, now);
  }

  /**
   * With distinct products, a placed order reduces each ordered product's
   * stock by its quantity, leaves every other product as it was, and answers 201.
   */
  lemma CreateOrderStock(products: seq<Product>, caller: Id, items: Option<seq<ItemRequest>>, address: Address,
                         paymentMethod: string, newId: Id, now: Time)
    requires ProductsValid(products)
    requires items.Some? && DistinctProducts(items.value)
    requires CreateOrderSpec(products, caller, items, address, paymentMethod, newId, now).created.Some?
    ensures var p := CreateOrderSpec(products, caller, items, address, paymentMethod, newId, now);
      && p.reply == Ok(201, p.created.value)
      && Decremented(products, p.products, items.value)
  {
    DecrementDistinct(products, items.value);
  }

  /** The pricing loop of `createOrder`, item by item in request order. */
  method PriceAll(products: seq<Product>, reqs: seq<ItemRequest>) returns (r: Result<seq<LineItem>, string>)
    ensures r == PriceItems(products, reqs)
  {
    var lines: seq<LineItem> := [];
    var i := 0;
    while i < |reqs|
      invariant 0 <= i <= |reqs|
      invariant PriceItems(products, reqs[..i]) == Success(lines)
    {
      var priced := PriceItem(products, reqs[i]);
      if priced.Failure? {
        PriceFailsAt(products, reqs, i, priced.error);
        return Failure(priced.error);
      }
      PriceItemsSnoc(products, reqs, i, lines, priced.value);
      lines := lines + [priced.value];
      i := i + 1;
    }
    assert reqs[..|reqs|] == reqs;
    r := Success(lines);
  }

  /** After a priced prefix, the first item that cannot be priced decides the result. */
  lemma PriceFailsAt(products: seq<Product>, reqs: seq<ItemRequest>, i: nat, e: string)
    requires i < |reqs| && PriceItems(products, reqs[..i]).Success?
    requires PriceItem(products, reqs[i]) == Failure(e)
    ensures PriceItems(products, reqs) == Failure(e)
  {
    PricedPrefix(products, reqs, i);
    PriceItemsFirstFailure(products, reqs, i, e);
  }

  /** A priced prefix means every item in it can be priced. */
  lemma PricedPrefix(products: seq<Product>, reqs: seq<ItemRequest>, i: nat)
    requires i <= |reqs| && PriceItems(products, reqs[..i]).Success?
    ensures forall j :: 0 <= j < i ==> PriceItem(products, reqs[j]).Success?
  {
    assert forall j :: 0 <= j < i ==> reqs[..i][j] == reqs[j];
  }

  /** Pricing one more item that can be priced appends its line. */
  lemma PriceItemsSnoc(products: seq<Product>, reqs: seq<ItemRequest>, i: nat, lines: seq<LineItem>, line: LineItem)
    requires i < |reqs|
    requires PriceItems(products, reqs[..i]) == Success(lines)
    requires PriceItem(products, reqs[i]) == Success(line)
    ensures PriceItems(products, reqs[..i + 1]) == Success(lines + [line])
  {
    var prefix := reqs[..i + 1];
    assert prefix[..|prefix| - 1] == reqs[..i];
    assert prefix[|prefix| - 1] == reqs[i];
  }

  /** The body of the stock loop: find the product, lower its stock and validate it before the save. */
  method DecrementItem(stock: seq<Product>, req: ItemRequest) returns (u: StockUpdate)
    requires ProductsValid(stock)
    ensures u == DecrementOne(stock, req)
    ensures ProductsValid(u.products)
  {
    var k := FindProduct(stock, req.product);
    if k.None? {
      return StockUpdate(stock, None);
    }
    var p := stock[k.value];
    var updated := p.(stock := p.stock - req.quantity);
    if !ProductValid(updated) {
      return StockUpdate(stock, Some(ProductValidationFailed));
    }
    ProductsValidUpdate(stock, k.value, updated);
    u := StockUpdate(stock[k.value := updated], None);
  }

  /** The stock loop of `createOrder` on the product collection, stopping at the first save that fails. */
  method DecrementStock(products: seq<Product>, reqs: seq<ItemRequest>) returns (u: StockUpdate)
    requires ProductsValid(products)
    ensures u == Decrement(products, reqs)
    ensures ProductsValid(u.products)
  {
    var stock := products;
    var i := 0;
    while i < |reqs|
      invariant 0 <= i <= |reqs|
      invariant Decrement(products, reqs[..i]) == StockUpdate(stock, None)
      invariant ProductsValid(stock)
    {
      DecrementSnoc(products, reqs, i);
      var step := DecrementItem(stock, reqs[i]);
      if step.error.Some? {
        DecrementStops(products, reqs, i + 1);
        return step;
      }
      stock := step.products;
      i := i + 1;
    }
    assert reqs[..|reqs|] == reqs;
    u := StockUpdate(stock, None);
  }

  /** The stock loop of `createOrder`: the saves that succeeded stay in the database. */
  method DecrementAll(db: Db, reqs: seq<ItemRequest>) returns (error: Option<string>)
    requires ProductsValid(db.products)
    modifies db
    ensures Decrement(old(db.products), reqs) == StockUpdate(db.products, error)
    ensures ProductsValid(db.products)
    ensures db.users == old(db.users) && db.stores == old(db.stores) && db.orders == old(db.orders)
            && db.carts == old(db.carts)
  {
    var u := DecrementStock(db.products, reqs);
    db.products := u.products;
    error := u.error;
  }

  /** `Order.create`: a new document for the order, saved through its hooks. */
  method CreateOrderDocument(o: Order, now: Time) returns (saved: Result<Order, string>)
    ensures saved == SaveCorrected(o, false, o.status, now)
  {
    var doc := new OrderDocument.Load(o);
    saved := doc.Save(now);
  }

  /**
   * `createOrder`: price and check every item, create the order through its
   * save, then decrement each product's stock in turn.
   */
  method CreateOrder(db: Db, caller: Id, items: Option<seq<ItemRequest>>, address: Address, paymentMethod: string,
                     newId: Id, now: Time) returns (reply: Reply<Order>)
    requires db.Valid()
    requires forall k :: 0 <= k < |db.orders| ==> db.orders[k].id != newId
    modifies db
    ensures db.Valid()
    ensures var p := CreateOrderSpec(old(db.products), caller, items, address, paymentMethod, newId, now);
      && reply == p.reply
      && db.products == p.products
      && db.orders == old(db.orders) + (if p.created.Some? then [p.created.value] else [])
    ensures db.users == old(db.users) && db.stores == old(db.stores) && db.carts == old(db.carts)
  {
    if items.None? || items.value == [] {
      return Err(400, "No order items");
    }
    var priced := PriceAll(db.products, items.value);
    if priced.Failure? {
      return Err(500, priced.error);
    }
    var saved := CreateOrderDocument(NewOrder(newId, caller, priced.value, address, paymentMethod,
                                              [HistoryEntry(Pending, now, None)], now + SevenDays, now), now);
    if saved.Failure? {
      return Err(500, saved.error);
    }
    var order := saved.value;
    CreatedOrderShape(db.products, caller, items, address, paymentMethod, newId, now);
    OrdersValidAppend(db.orders, order);
    db.orders := db.orders + [order];
    var error := DecrementAll(db, items.value);
    reply := if error.Some? then Err(500, error.value) else Ok(201, order);
  }

  // ---------------------------------------------------------------- reading one order

  /**
   * `getOrderById`: 404 for an unknown order, 500 when its user no longer
   * exists (the populated `user` is null), 403 unless the caller placed it.
   */
  function GetOrderById(orders: seq<Order>, users: seq<User>, caller: Id, id: Id): (r: Reply<Order>)
    ensures r.Ok? <==> (exists k :: 0 <= k < |orders| && orders[k].id == id)
                       && FindUser(users, orders[FindOrder(orders, id).value].user).Some?
                       && orders[FindOrder(orders, id).value].user == caller
    ensures r.Ok? ==> r.code == 200 && r.data.id == id && r.data.user == caller && r.data in orders
    ensures r.Err? && r.code == 404 <==> forall k :: 0 <= k < |orders| ==> orders[k].id != id
  {
    match FindOrder(orders, id)
    case None => Err(404, "Order not found")
    case Some(k) =>
      if FindUser(users, orders[k].user).None? then Err(500, "Server error")
      else if orders[k].user != caller then Err(403, "Not authorized to view this order")
      else Ok(200, orders[k])
  }

  // ---------------------------------------------------------------- status updates

  /** The assignments `updateOrderStatus` makes before `save()`. */
  function EditForStatus(o: Order, s: Status, note: Option<string>, trackingNumber: Option<string>, now: Time): Order {
    o.(status := s,
       trackingNumber := if Truthy(trackingNumber) then trackingNumber else o.trackingNumber,
       actualDeliveryDate := if s == Delivered then Some(now) else o.actualDeliveryDate,
       cancellationReason := if s == Cancelled then note else o.cancellationReason,
       returnReason := if s == Returned then note else o.returnReason,
       statusHistory := if Truthy(note) then o.statusHistory + [HistoryEntry(s, now, note)] else o.statusHistory)
  }

  /** The saved result of a status update of a loaded order. */
  function StatusUpdate(o: Order, s: Status, note: Option<string>, trackingNumber: Option<string>, now: Time)
    : Result<Order, string>
  {
    SaveCorrected(EditForStatus(o, s, note, trackingNumber, now), s != o.status, o.status, now)
  }

  /**
   * A status update of a saved order succeeds exactly when the status is
   * unchanged or the table allows the step; otherwise it fails with the
   * transition error, which the handler answers with 400.
   */
  lemma StatusUpdateSucceedsIff(o: Order, s: Status, note: Option<string>, trackingNumber: Option<string>, now: Time)
    requires OrderConsistent(o)
    ensures StatusUpdate(o, s, note, trackingNumber, now).Success? <==> s == o.status || ValidTransition(o.status, s)
    ensures StatusUpdate(o, s, note, trackingNumber, now).Failure? ==>
              StatusUpdate(o, s, note, trackingNumber, now).error == TransitionError(o.status, s)
              && Includes(TransitionError(o.status, s), "Invalid status transition")
  {
    var edited := EditForStatus(o, s, note, trackingNumber, now);
    assert PassesSchema(edited);
    assert edited.status == s;
    TransitionErrorMentions(o.status, s);
  }

  /** The transition error starts with "Invalid status transition". */
  lemma TransitionErrorMentions(from: Status, to: Status)
    ensures Includes(TransitionError(from, to), "Invalid status transition")
  {
    var e := TransitionError(from, to);
    assert OccursAt(e, "Invalid status transition", 0) by {
      assert e[0..|"Invalid status transition"|] == "Invalid status transition";
    }
  }

  /**
   * After a successful update: a note adds its own entry, the status change
   * adds the hook's entry after it, `delivered` stamps the delivery date,
   * `cancelled`/`returned` copy the note into their reason, the tracking
   * number is replaced only by a non-empty one, and the order stays consistent.
   */
  lemma StatusUpdateEffects(o: Order, s: Status, note: Option<string>, trackingNumber: Option<string>, now: Time)
    requires OrderConsistent(o)
    requires StatusUpdate(o, s, note, trackingNumber, now).Success?
    ensures var r := StatusUpdate(o, s, note, trackingNumber, now).value;
      && r.status == s
      && r.statusHistory == o.statusHistory
                            + (if Truthy(note) then [HistoryEntry(s, now, note)] else [])
                            + (if s != o.status then [HistoryEntry(s, now, None)] else [])
      && r.trackingNumber == (if Truthy(trackingNumber) then trackingNumber else o.trackingNumber)
      && r.actualDeliveryDate == (if s == Delivered then Some(now) else o.actualDeliveryDate)
      && r.cancellationReason == (if s == Cancelled then note else o.cancellationReason)
      && r.returnReason == (if s == Returned then note else o.returnReason)
      && r.items == o.items && r.totalAmount == o.totalAmount && r.paymentStatus == o.paymentStatus
      && OrderConsistent(r)
  {
    var e := EditForStatus(o, s, note, trackingNumber, now);
    SaveHistory(e, s != o.status, o.status, now);
    SaveTotal(e, s != o.status, o.status, now);
  }

  /** The saved result of a status update as written, whose validator reads the entry the first hook pushed. */
  function StatusUpdateAsWritten(o: Order, s: Status, note: Option<string>, trackingNumber: Option<string>,
                                 now: Time): Result<Order, string>
  {
    SaveAsWritten(EditForStatus(o, s, note, trackingNumber, now), s != o.status, now)
  }

  /**
   * As written, a status update of a saved order succeeds exactly when the
   * status is unchanged, and then it saves what the corrected update saves.
   * Every change, allowed by the table or not, fails as a transition from the
   * new status to itself, which the handler answers with 400.
   */
  lemma StatusUpdateAsWrittenRejectsChanges(o: Order, s: Status, note: Option<string>,
                                            trackingNumber: Option<string>, now: Time)
    requires OrderConsistent(o)
    ensures StatusUpdateAsWritten(o, s, note, trackingNumber, now).Success? <==> s == o.status
    ensures s == o.status ==>
              StatusUpdateAsWritten(o, s, note, trackingNumber, now) == StatusUpdate(o, s, note, trackingNumber, now)
    ensures s != o.status ==>
              && StatusUpdateAsWritten(o, s, note, trackingNumber, now) == Failure(TransitionError(s, s))
              && StatusErrorReply(TransitionError(s, s)) == Err(400, TransitionError(s, s))
  {
    var edited := EditForStatus(o, s, note, trackingNumber, now);
    assert PassesSchema(edited);
    if s != o.status {
      AsWrittenRejectsEveryStatusChange(edited, now);
      TransitionErrorMentions(s, s);
    } else {
      AsWrittenAgreesWhenUnmodified(edited, o.status, now);
    }
  }

  /** Reply of `updateOrderStatus` for a save error. */
  function StatusErrorReply(e: string): (r: Reply<Order>)
    ensures r.Err? && (r.code == 400 <==> Includes(e, "Invalid status transition"))
  {
    if Includes(e, "Invalid status transition") then Err(400, e) else Err(500, "Server error")
  }

  /** The assignments of `updateOrderStatus` on a loaded document, before its save. */
  method ApplyStatusEdits(doc: OrderDocument, s: Status, note: Option<string>, trackingNumber: Option<string>,
                          now: Time)
    modifies doc
    ensures doc.Contents() == EditForStatus(old(doc.Contents()), s, note, trackingNumber, now)
    ensures doc.statusModified == (old(doc.statusModified) || s != old(doc.status))
    ensures doc.persisted == old(doc.persisted)
  {
    ghost var o := doc.Contents();
    doc.SetStatus(s);
    if Truthy(trackingNumber) {
      doc.trackingNumber := trackingNumber;
    }
    match s {
      case Delivered => doc.actualDeliveryDate := Some(now);
      case Cancelled => doc.cancellationReason := note;
      case Returned => doc.returnReason := note;
      case _ =>
    }
    if Truthy(note) {
      doc.PushHistory(HistoryEntry(s, now, note));
    }
    assert doc.status == s && doc.totalAmount == o.totalAmount && doc.paymentStatus == o.paymentStatus;
    assert doc.trackingNumber == if Truthy(trackingNumber) then trackingNumber else o.trackingNumber;
    assert doc.actualDeliveryDate == if s == Delivered then Some(now) else o.actualDeliveryDate;
    assert doc.cancellationReason == if s == Cancelled then note else o.cancellationReason;
    assert doc.returnReason == if s == Returned then note else o.returnReason;
    assert doc.statusHistory == if Truthy(note) then o.statusHistory + [HistoryEntry(s, now, note)] else o.statusHistory;
  }

  /** The document steps of `updateOrderStatus` on a loaded order: the edits, then the save. */
  method EditStatus(o: Order, s: Status, note: Option<string>, trackingNumber: Option<string>, now: Time)
    returns (saved: Result<Order, string>)
    ensures saved == StatusUpdate(o, s, note, trackingNumber, now)
  {
    var doc := new OrderDocument.Load(o);
    ApplyStatusEdits(doc, s, note, trackingNumber, now);
    saved := doc.Save(now);
  }

  /**
   * `updateOrderStatus`: assign the status and side fields on the loaded
   * document, push the note's entry, and save. A status outside the enum
   * fails validation, which the handler answers with 500.
   */
  method UpdateOrderStatus(db: Db, id: Id, status: string, note: Option<string>, trackingNumber: Option<string>,
                           now: Time) returns (reply: Reply<Order>)
    requires db.Valid()
    modifies db
    ensures db.Valid()
    ensures FindOrder(old(db.orders), id).None? ==> reply == Err(404, "Order not found") && db.orders == old(db.orders)
    ensures FindOrder(old(db.orders), id).Some? && ParseStatus(status).None? ==>
              reply == Err(500, "Server error") && db.orders == old(db.orders)
    ensures FindOrder(old(db.orders), id).Some? && ParseStatus(status).Some? ==>
              var k := FindOrder(old(db.orders), id).value;
              match StatusUpdate(old(db.orders)[k], ParseStatus(status).value, note, trackingNumber, now)
              case Success(o) => reply == Ok(200, o) && db.orders == old(db.orders)[k := o]
              case Failure(e) => reply == StatusErrorReply(e) && db.orders == old(db.orders)
    ensures db.users == old(db.users) && db.stores == old(db.stores) && db.products == old(db.products)
            && db.carts == old(db.carts)
  {
    var k := FindOrder(db.orders, id);
    if k.None? {
      return Err(404, "Order not found");
    }
    var parsed := ParseStatus(status);
    if parsed.None? {
      return Err(500, "Server error");
    }
    var s := parsed.value;
    var o := db.orders[k.value];
    var saved := EditStatus(o, s, note, trackingNumber, now);
    if saved.Failure? {
      return StatusErrorReply(saved.error);
    }
    StatusUpdateEffects(o, s, note, trackingNumber, now);
    OrdersValidUpdate(db.orders, k.value, saved.value);
    db.orders := db.orders[k.value := saved.value];
    reply := Ok(200, saved.value);
  }

  /** Completing the payment of a pending order confirms it. */
  predicate ConfirmsOnPayment(o: Order, p: PaymentStatus) {
    p == Completed && o.status == Pending
  }

  /** The assignments `updatePaymentStatus` makes before `save()`. */
  function EditForPayment(o: Order, p: PaymentStatus, now: Time): Order {
    if ConfirmsOnPayment(o, p) then
      o.(paymentStatus := p, status := Confirmed,
         statusHistory := o.statusHistory + [HistoryEntry(Confirmed, now, Some("Payment completed"))])
    else o.(paymentStatus := p)
  }

  /** The saved result of a payment update of a loaded order. */
  function PaymentUpdate(o: Order, p: PaymentStatus, now: Time): Result<Order, string> {
    SaveCorrected(EditForPayment(o, p, now), ConfirmsOnPayment(o, p), o.status, now)
  }

  /** The saved result of a payment update as written. */
  function PaymentUpdateAsWritten(o: Order, p: PaymentStatus, now: Time): Result<Order, string> {
    SaveAsWritten(EditForPayment(o, p, now), ConfirmsOnPayment(o, p), now)
  }

  /**
   * As written, completing the payment of a pending order fails to save, as a
   * transition from `confirmed` to itself, and the handler answers 500; every
   * other payment update saves what the corrected update saves.
   */
  lemma PaymentUpdateAsWrittenFailsOnConfirm(o: Order, p: PaymentStatus, now: Time)
    requires OrderConsistent(o)
    ensures PaymentUpdateAsWritten(o, p, now).Success? <==> !ConfirmsOnPayment(o, p)
    ensures ConfirmsOnPayment(o, p) ==> PaymentUpdateAsWritten(o, p, now) == Failure(TransitionError(Confirmed, Confirmed))
    ensures !ConfirmsOnPayment(o, p) ==> PaymentUpdateAsWritten(o, p, now) == PaymentUpdate(o, p, now)
  {
    var edited := EditForPayment(o, p, now);
    assert PassesSchema(edited);
    if ConfirmsOnPayment(o, p) {
      AsWrittenRejectsEveryStatusChange(edited, now);
    } else {
      AsWrittenAgreesWhenUnmodified(edited, o.status, now);
    }
  }

  /**
   * A payment update of a saved order always succeeds. Completing the payment
   * of a pending order confirms it, with the handler's "Payment completed"
   * entry followed by the hook's entry; any other combination changes only
   * `paymentStatus`.
   */
  lemma PaymentUpdateEffects(o: Order, p: PaymentStatus, now: Time)
    requires OrderConsistent(o)
    ensures PaymentUpdate(o, p, now).Success?
    ensures OrderConsistent(PaymentUpdate(o, p, now).value)
    ensures ConfirmsOnPayment(o, p) ==>
              PaymentUpdate(o, p, now).value ==
                o.(paymentStatus := p, status := Confirmed,
                   statusHistory := o.statusHistory + [HistoryEntry(Confirmed, now, Some("Payment completed")),
                                                       HistoryEntry(Confirmed, now, None)])
    ensures !ConfirmsOnPayment(o, p) ==> PaymentUpdate(o, p, now).value == o.(paymentStatus := p)
  {
    var pushed := o.statusHistory + [HistoryEntry(Confirmed, now, Some("Payment completed"))];
    assert pushed + [HistoryEntry(Confirmed, now, None)] ==
           o.statusHistory + [HistoryEntry(Confirmed, now, Some("Payment completed")), HistoryEntry(Confirmed, now, None)];
  }

  /** The document steps of `updatePaymentStatus` on a loaded order: set the payment, confirm a pending order on completion, save. */
  method EditPayment(o: Order, p: PaymentStatus, now: Time) returns (saved: Result<Order, string>)
    ensures saved == PaymentUpdate(o, p, now)
  {
    var doc := new OrderDocument.Load(o);
    doc.paymentStatus := p;
    assert doc.Contents() == o.(paymentStatus := p) && !doc.statusModified && doc.persisted == o.status;
    if p == Completed && doc.status == Pending {
      doc.SetStatus(Confirmed);
      doc.PushHistory(HistoryEntry(Confirmed, now, Some("Payment completed")));
      assert doc.Contents() == o.(paymentStatus := p, status := Confirmed,
                                  statusHistory := o.statusHistory + [HistoryEntry(Confirmed, now, Some("Payment completed"))]);
      assert doc.statusModified && doc.persisted == Pending;
    }
    saved := doc.Save(now);
  }

  /** `updatePaymentStatus`; a value outside the enum fails validation and is answered with 500. */
  method UpdatePaymentStatus(db: Db, id: Id, paymentStatus: string, now: Time) returns (reply: Reply<Order>)
    requires db.Valid()
    modifies db
    ensures db.Valid()
    ensures FindOrder(old(db.orders), id).None? ==> reply == Err(404, "Order not found") && db.orders == old(db.orders)
    ensures FindOrder(old(db.orders), id).Some? && ParsePayment(paymentStatus).None? ==>
              reply == Err(500, "Server error") && db.orders == old(db.orders)
    ensures FindOrder(old(db.orders), id).Some? && ParsePayment(paymentStatus).Some? ==>
              var k := FindOrder(old(db.orders), id).value;
              var o := PaymentUpdate(old(db.orders)[k], ParsePayment(paymentStatus).value, now).value;
              reply == Ok(200, o) && db.orders == old(db.orders)[k := o]
    ensures db.users == old(db.users) && db.stores == old(db.stores) && db.products == old(db.products)
            && db.carts == old(db.carts)
  {
    var k := FindOrder(db.orders, id);
    if k.None? {
      return Err(404, "Order not found");
    }
    var parsed := ParsePayment(paymentStatus);
    if parsed.None? {
      return Err(500, "Server error");
    }
    var o := db.orders[k.value];
    var saved := EditPayment(o, parsed.value, now);
    if saved.Failure? {
      return Err(500, "Server error");
    }
    PaymentUpdateEffects(o, parsed.value, now);
    OrdersValidUpdate(db.orders, k.value, saved.value);
    db.orders := db.orders[k.value := saved.value];
    reply := Ok(200, saved.value);
  }

  // ---------------------------------------------------------------- the seller's view

  /** `products.map((product) => product._id)` for `Product.find({ store })`. */
  function StoreProductIds(products: seq<Product>, store: Id): (ids: seq<Id>)
    ensures forall id :: id in ids <==> exists k :: 0 <= k < |products| && products[k].store == store && products[k].id == id
  {
    if products == [] then []
    else
      var rest := StoreProductIds(products[1..], store);
      assert forall k :: 1 <= k < |products| ==> products[k] == products[1..][k - 1];
      if products[0].store == store then [products[0].id] + rest else rest
  }

  /** The query `{ "items.product": { $in: productIds }, status? }`; an empty status string adds nothing. */
  predicate QueryMatches(o: Order, ids: seq<Id>, status: string) {
    (exists k :: 0 <= k < |o.items| && o.items[k].product in ids)
    && (status == [] || StatusName(o.status) == status)
  }

  /** `order.items.filter(...)`: the lines of the store's products. */
  function StoreItems(items: seq<LineItem>, ids: seq<Id>): seq<LineItem> {
    Filter(items, (item: LineItem) => item.product in ids)
  }

  /** Each order with its lines restricted to the store's products. */
  function Restrict(orders: seq<Order>, ids: seq<Id>): (r: seq<Order>)
    ensures |r| == |orders|
    ensures forall k :: 0 <= k < |orders| ==> r[k] == orders[k].(items := StoreItems(orders[k].items, ids))
  {
    if orders == [] then []
    else [orders[0].(items := StoreItems(orders[0].items, ids))] + Restrict(orders[1..], ids)
  }

  /** `ordersByStatus`: for each status that occurs, how many orders have it. */
  function Tally(orders: seq<Order>): (m: map<Status, nat>)
    ensures forall s :: s in m <==> exists k :: 0 <= k < |orders| && orders[k].status == s
    decreases |orders|
  {
    if orders == [] then map[]
    else
      var init := orders[..|orders| - 1];
      var acc := Tally(init);
      var s := orders[|orders| - 1].status;
      assert forall k :: 0 <= k < |init| ==> init[k] == orders[k];
      acc[s := (if s in acc then acc[s] else 0) + 1]
  }

  /** The number of orders with status `s`. */
  function StatusCount(orders: seq<Order>, s: Status): nat
    decreases |orders|
  {
    if orders == [] then 0
    else StatusCount(orders[..|orders| - 1], s) + (if orders[|orders| - 1].status == s then 1 else 0)
  }

  function CountOf(m: map<Status, nat>, s: Status): nat {
    if s in m then m[s] else 0
  }

  /** Each histogram entry is the number of orders with that status. */
  lemma {:induction false} TallyCounts(orders: seq<Order>, s: Status)
    ensures CountOf(Tally(orders), s) == StatusCount(orders, s)
    decreases |orders|
  {
    if orders != [] {
      TallyCounts(orders[..|orders| - 1], s);
    }
  }

  /** The histogram's counts added up over all ten statuses. */
  function TotalCount(m: map<Status, nat>): nat {
    CountOf(m, Pending) + CountOf(m, Confirmed) + CountOf(m, Processing) + CountOf(m, Packed)
    + CountOf(m, Shipped) + CountOf(m, OutForDelivery) + CountOf(m, Delivered) + CountOf(m, Cancelled)
    + CountOf(m, Returned) + CountOf(m, Refunded)
  }

  /** The number of orders of each status added up over all ten statuses. */
  function StatusTotal(orders: seq<Order>): nat {
    StatusCount(orders, Pending) + StatusCount(orders, Confirmed) + StatusCount(orders, Processing)
    + StatusCount(orders, Packed) + StatusCount(orders, Shipped) + StatusCount(orders, OutForDelivery)
    + StatusCount(orders, Delivered) + StatusCount(orders, Cancelled) + StatusCount(orders, Returned)
    + StatusCount(orders, Refunded)
  }

  /** Every order has exactly one of the ten statuses. */
  lemma {:induction false} StatusTotalIsLength(orders: seq<Order>)
    ensures StatusTotal(orders) == |orders|
    decreases |orders|
  {
    if orders != [] {
      StatusTotalIsLength(orders[..|orders| - 1]);
    }
  }

  /** The per-status counts of the histogram add up to the number of orders. */
  lemma StatusCountsSum(orders: seq<Order>)
    ensures TotalCount(Tally(orders)) == |orders|
  {
    TallyCounts(orders, Pending);
    TallyCounts(orders, Confirmed);
    TallyCounts(orders, Processing);
    TallyCounts(orders, Packed);
    TallyCounts(orders, Shipped);
    TallyCounts(orders, OutForDelivery);
    TallyCounts(orders, Delivered);
    TallyCounts(orders, Cancelled);
    TallyCounts(orders, Returned);
    TallyCounts(orders, Refunded);
    StatusTotalIsLength(orders);
  }

  /** What `getSellerOrders` sends on success. */
  datatype SellerOrders = SellerOrders(count: nat, ordersByStatus: map<Status, nat>, data: seq<Order>)

  /** Every line of the order refers to a product that still exists (otherwise `item.product._id` throws). */
  predicate ItemsResolve(o: Order, products: seq<Product>) {
    forall k :: 0 <= k < |o.items| ==> FindProduct(products, o.items[k].product).Some?
  }

  /** The orders the query finds. */
  function Matched(orders: seq<Order>, ids: seq<Id>, status: string): seq<Order> {
    Filter(orders, (o: Order) => QueryMatches(o, ids, status))
  }

  /** The matched orders newest first, each restricted to the store's lines. */
  function SellerView(orders: seq<Order>, ids: seq<Id>, status: string): seq<Order> {
    Restrict(SortNewestFirst(Matched(orders, ids, status), (o: Order) => o.createdAt), ids)
  }

  /** `getSellerOrders` for the caller, with the optional `status` query string. */
  function GetSellerOrders(stores: seq<Store>, products: seq<Product>, orders: seq<Order>, caller: Id, status: string)
    : Reply<SellerOrders>
  {
    match FindStoreOf(stores, caller)
    case None => Err(404, "Store not found")
    case Some(si) =>
      var ids := StoreProductIds(products, stores[si].id);
      var matched := Matched(orders, ids, status);
      if exists k :: 0 <= k < |matched| && !ItemsResolve(matched[k], products) then
        Err(500, "Error fetching seller orders")
      else
        var data := SellerView(orders, ids, status);
        Ok(200, SellerOrders(|data|, Tally(data), data))
  }

  /** Without a store the caller gets 404, and with one never 404. */
  lemma SellerOrdersNeedStore(stores: seq<Store>, products: seq<Product>, orders: seq<Order>, caller: Id, status: string)
    ensures GetSellerOrders(stores, products, orders, caller, status) == Err(404, "Store not found") <==>
            forall k :: 0 <= k < |stores| ==> stores[k].owner != caller
  {
  }

  /** The view is newest first. */
  lemma SellerViewNewestFirst(orders: seq<Order>, ids: seq<Id>, status: string)
    ensures var v := SellerView(orders, ids, status);
      forall i, j :: 0 <= i < j < |v| ==> v[i].createdAt >= v[j].createdAt
  {
    var sorted := SortNewestFirst(Matched(orders, ids, status), (o: Order) => o.createdAt);
    assert NewestFirst(sorted, (o: Order) => o.createdAt);
  }

  /** An order of the sorted list is one the query matched. */
  lemma SortedMatched(orders: seq<Order>, ids: seq<Id>, status: string, o: Order)
    requires o in SortNewestFirst(Matched(orders, ids, status), (o: Order) => o.createdAt)
    ensures o in orders && QueryMatches(o, ids, status)
  {
    var matched := Matched(orders, ids, status);
    assert o in multiset(SortNewestFirst(matched, (o: Order) => o.createdAt));
    assert o in matched;
    FilterMembership(orders, (o: Order) => QueryMatches(o, ids, status), o);
  }

  /** Keeping the store's lines of an order with one of them leaves at least one line. */
  lemma StoreItemsNonEmpty(o: Order, ids: seq<Id>, status: string)
    requires QueryMatches(o, ids, status)
    ensures StoreItems(o.items, ids) != []
  {
    var i :| 0 <= i < |o.items| && o.items[i].product in ids;
    FilterMembership(o.items, (item: LineItem) => item.product in ids, o.items[i]);
  }

  /** Every entry of the view is a matched order restricted to the store's lines, and has a line left. */
  lemma SellerViewSound(orders: seq<Order>, ids: seq<Id>, status: string)
    ensures var v := SellerView(orders, ids, status);
      forall k :: 0 <= k < |v| ==>
        && (exists o :: o in orders && QueryMatches(o, ids, status) && v[k] == o.(items := StoreItems(o.items, ids)))
        && v[k].items != []
        && (forall i :: 0 <= i < |v[k].items| ==> v[k].items[i].product in ids)
  {
    var sorted := SortNewestFirst(Matched(orders, ids, status), (o: Order) => o.createdAt);
    var v := SellerView(orders, ids, status);
    forall k | 0 <= k < |v|
      ensures exists o :: o in orders && QueryMatches(o, ids, status) && v[k] == o.(items := StoreItems(o.items, ids))
      ensures v[k].items != []
    {
      var o := sorted[k];
      SortedMatched(orders, ids, status, o);
      StoreItemsNonEmpty(o, ids, status);
      assert v[k] == o.(items := StoreItems(o.items, ids));
    }
  }

  /** Every matched order appears in the view, restricted to the store's lines. */
  lemma SellerViewComplete(orders: seq<Order>, ids: seq<Id>, status: string)
    ensures forall o :: o in orders && QueryMatches(o, ids, status) ==>
              o.(items := StoreItems(o.items, ids)) in SellerView(orders, ids, status)
  {
    var matched := Matched(orders, ids, status);
    var sorted := SortNewestFirst(matched, (o: Order) => o.createdAt);
    var v := SellerView(orders, ids, status);
    forall o | o in orders && QueryMatches(o, ids, status)
      ensures o.(items := StoreItems(o.items, ids)) in v
    {
      FilterMembership(orders, (o: Order) => QueryMatches(o, ids, status), o);
      assert o in multiset(sorted);
      var k :| 0 <= k < |sorted| && sorted[k] == o;
      assert v[k] == o.(items := StoreItems(o.items, ids));
    }
  }

  /**
   * The seller's view: exactly the orders with a line of one of the store's
   * products (and the requested status), each restricted to the store's
   * lines (never empty), newest first, with per-status counts summing to `count`.
   */
  lemma SellerOrdersView(stores: seq<Store>, products: seq<Product>, orders: seq<Order>, caller: Id, status: string)
    requires GetSellerOrders(stores, products, orders, caller, status).Ok?
    ensures var r := GetSellerOrders(stores, products, orders, caller, status).data;
      var ids := StoreProductIds(products, stores[FindStoreOf(stores, caller).value].id);
      && r.count == |r.data|
      && TotalCount(r.ordersByStatus) == r.count
      && r.data == SellerView(orders, ids, status)
      && (forall o :: o in orders && QueryMatches(o, ids, status) ==> o.(items := StoreItems(o.items, ids)) in r.data)
      && (forall k :: 0 <= k < |r.data| ==>
            && (exists o :: o in orders && QueryMatches(o, ids, status) && r.data[k] == o.(items := StoreItems(o.items, ids)))
            && r.data[k].items != [])
      && (forall i, j :: 0 <= i < j < |r.data| ==> r.data[i].createdAt >= r.data[j].createdAt)
  {
    var ids := StoreProductIds(products, stores[FindStoreOf(stores, caller).value].id);
    var v := SellerView(orders, ids, status);
    assert GetSellerOrders(stores, products, orders, caller, status).data == SellerOrders(|v|, Tally(v), v);
    StatusCountsSum(v);
    SellerViewNewestFirst(orders, ids, status);
    SellerViewSound(orders, ids, status);
    SellerViewComplete(orders, ids, status);
  }
}
