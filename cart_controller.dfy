/**
 * The cart routes: add a product (merging into its line when there is one),
 * set one line's quantity, and remove all lines of a product, each through
 * the cart document's save.
 */
module CartController {
  import opened Wrappers
  import opened Common
  import opened Seqs
  import opened ProductModel
  import opened CartModel
  import opened Database

  /** What a cart route answers and the carts it leaves. */
  datatype Outcome<T> = Outcome(reply: Reply<T>, carts: seq<Cart>)

  /** The index of the first line of `product` (`cart.items.find(...)`). */
  function LineOf(items: seq<LineItem>, product: Id): (r: Option<nat>)
    ensures r.Some? ==> r.value < |items| && items[r.value].product == product
    ensures r.None? ==> forall k :: 0 <= k < |items| ==> items[k].product != product
  {
    FirstIndex(items, (item: LineItem) => item.product == product)
  }

  /**
   * The line edit of `addToCart` on an existing cart: the product's line gets
   * the quantity added and the current price, or a new line is appended (an
   * absent quantity takes the default 1 there, but makes the sum NaN, which
   * fails the save, on an existing line).
   */
  function AddLine(items: seq<LineItem>, product: Id, quantity: Option<int>, price: int): Option<seq<LineItem>> {
    match LineOf(items, product)
    case Some(i) =>
      if quantity.None? then None
      else Some(items[i := items[i].(quantity := items[i].quantity + quantity.value, price := price)])
    case None => Some(items + [LineItem(product, quantity.GetOr(1), price)])
  }

  /**
   * Merging adds the quantity to the product's line and refreshes its price,
   * leaving every other line and the number of lines as they were; otherwise
   * exactly one line is appended; in both cases one line per product is kept.
   */
  lemma AddLineEffects(items: seq<LineItem>, product: Id, quantity: Option<int>, price: int)
    ensures LineOf(items, product).Some? ==>
              var i := LineOf(items, product).value;
              && (AddLine(items, product, quantity, price).Some? <==> quantity.Some?)
              && (quantity.Some? ==>
                    var r := AddLine(items, product, quantity, price).value;
                    && |r| == |items|
                    && r[i] == LineItem(product, items[i].quantity + quantity.value, price)
                    && (forall k :: 0 <= k < |items| && k != i ==> r[k] == items[k]))
    ensures LineOf(items, product).None? ==>
              AddLine(items, product, quantity, price) == Some(items + [LineItem(product, quantity.GetOr(1), price)])
    ensures OneLinePerProduct(items) && AddLine(items, product, quantity, price).Some? ==>
              OneLinePerProduct(AddLine(items, product, quantity, price).value)
  {
  }

  const AddFailed: string := "Error adding to cart"

  /** `addToCart` from the request to the reply and the carts. */
  function AddToCartSpec(products: seq<Product>, carts: seq<Cart>, caller: Id, product: Id, quantity: Option<int>,
                         newId: Id): Outcome<Cart>
  {
    match FindProduct(products, product)
    case None => Outcome(Err(404, "Product not found"), carts)
    case Some(pk) =>
      var price := products[pk].price;
      match FindCartOf(carts, caller)
      case None =>
        (match SaveCart(Cart(newId, caller, [LineItem(product, quantity.GetOr(1), price)], 0), true)
         case Failure(_) => Outcome(Err(500, AddFailed), carts)
         case Success(c) => Outcome(Ok(200, c), carts + [c]))
      case Some(ck) =>
        match AddLine(carts[ck].items, product, quantity, price)
        case None => Outcome(Err(500, AddFailed), carts)
        case Some(lines) =>
          match SaveCart(carts[ck].(items := lines), lines != carts[ck].items)
          case Failure(_) => Outcome(Err(500, AddFailed), carts)
          case Success(c) => Outcome(Ok(200, c), carts[ck := c])
  }

  /** A save of a consistent cart's edited lines is consistent when the lines keep one line per product. */
  lemma SavedCartConsistent(c: Cart, lines: seq<LineItem>, modified: bool)
    requires CartConsistent(c) && OneLinePerProduct(lines)
    requires modified || lines == c.items
    requires SaveCart(c.(items := lines), modified).Success?
    ensures CartConsistent(SaveCart(c.(items := lines), modified).value)
    ensures SaveCart(c.(items := lines), modified).value == c.(items := lines, total := LinesTotal(lines))
  {
  }

  /**
   * An unknown product answers 404 and changes no cart. Without a cart the
   * caller gets a new one holding exactly the one line, at the product's
   * current price, and totalling it.
   */
  lemma AddToCartNewCart(products: seq<Product>, carts: seq<Cart>, caller: Id, product: Id, quantity: Option<int>,
                         newId: Id)
    ensures FindProduct(products, product).None? ==>
              AddToCartSpec(products, carts, caller, product, quantity, newId) == Outcome(Err(404, "Product not found"), carts)
    ensures FindProduct(products, product).Some? && FindCartOf(carts, caller).None? &&
            AddToCartSpec(products, carts, caller, product, quantity, newId).reply.Ok? ==>
              var price := products[FindProduct(products, product).value].price;
              var line := LineItem(product, quantity.GetOr(1), price);
              AddToCartSpec(products, carts, caller, product, quantity, newId).reply.data ==
                Cart(newId, caller, [line], price * quantity.GetOr(1))
  {
    if FindProduct(products, product).Some? && FindCartOf(carts, caller).None? {
      var price := products[FindProduct(products, product).value].price;
      var line := LineItem(product, quantity.GetOr(1), price);
      assert LinesTotal([line]) == price * quantity.GetOr(1) + LinesTotal([]) by {
        assert [line][1..] == [];
      }
    }
  }

  /** Adding to a cart keeps the carts consistent: one cart per user, unique ids, totals that match the lines. */
  lemma AddToCartKeepsValid(products: seq<Product>, carts: seq<Cart>, caller: Id, product: Id, quantity: Option<int>,
                            newId: Id)
    requires CartsValid(carts)
    requires forall k :: 0 <= k < |carts| ==> carts[k].id != newId
    ensures CartsValid(AddToCartSpec(products, carts, caller, product, quantity, newId).carts)
  {
    var out := AddToCartSpec(products, carts, caller, product, quantity, newId);
    if out.reply.Ok? {
      var price := products[FindProduct(products, product).value].price;
      match FindCartOf(carts, caller)
      case None =>
        var c := SaveCart(Cart(newId, caller, [LineItem(product, quantity.GetOr(1), price)], 0), true).value;
        assert OneLinePerProduct(c.items);
        CartsValidAppend(carts, c);
      case Some(ck) =>
        var lines := AddLine(carts[ck].items, product, quantity, price).value;
        assert CartConsistent(carts[ck]);
        AddLineEffects(carts[ck].items, product, quantity, price);
        SavedCartConsistent(carts[ck], lines, lines != carts[ck].items);
        CartsValidUpdate(carts, ck, SaveCart(carts[ck].(items := lines), lines != carts[ck].items).value);
    }
  }

  /**
   * The edit of `addToCart` on a loaded cart: `existingItem.quantity += quantity`
   * and `existingItem.price = price`, or `cart.items.push(...)`. `false` stands
   * for the NaN quantity an absent `quantity` produces on an existing line.
   */
  method MergeLine(doc: CartDocument, product: Id, quantity: Option<int>, price: int) returns (edited: bool)
    requires !doc.itemsModified
    modifies doc
    ensures edited <==> AddLine(old(doc.items), product, quantity, price).Some?
    ensures edited ==> doc.Contents() == old(doc.Contents()).(items := AddLine(old(doc.items), product, quantity, price).value)
    ensures edited ==> doc.itemsModified == (doc.items != old(doc.items))
  {
    var i := LineOf(doc.items, product);
    if i.Some? {
      if quantity.None? {
        return false;
      }
      var line := doc.items[i.value];
      doc.SetLine(i.value, line.(quantity := line.quantity + quantity.value));
      doc.SetLine(i.value, doc.items[i.value].(price := price));
    } else {
      doc.PushLine(LineItem(product, quantity.GetOr(1), price));
    }
    edited := true;
  }

  /** The document steps of `addToCart` on a loaded cart: merge the line, then save (a failed merge answers like a failed save). */
  method MergeAndSave(loaded: Cart, product: Id, quantity: Option<int>, price: int) returns (saved: Result<Cart, string>)
    ensures match AddLine(loaded.items, product, quantity, price)
            case None => saved.Failure?
            case Some(lines) => saved == SaveCart(loaded.(items := lines), lines != loaded.items)
  {
    var doc := new CartDocument.Load(loaded);
    var edited := MergeLine(doc, product, quantity, price);
    if !edited {
      return Failure(AddFailed);
    }
    saved := doc.Save();
  }

  /** `addToCart`: find the product and the caller's cart, create or edit it, save. */
  method AddToCart(db: Db, caller: Id, product: Id, quantity: Option<int>, newId: Id) returns (reply: Reply<Cart>)
    requires db.Valid()
    requires forall k :: 0 <= k < |db.carts| ==> db.carts[k].id != newId
    modifies db
    ensures db.Valid()
    ensures var out := AddToCartSpec(old(db.products), old(db.carts), caller, product, quantity, newId);
      reply == out.reply && db.carts == out.carts
    ensures db.users == old(db.users) && db.stores == old(db.stores) && db.products == old(db.products)
            && db.orders == old(db.orders)
  {
    var pk := FindProduct(db.products, product);
    if pk.None? {
      return Err(404, "Product not found");
    }
    var price := db.products[pk.value].price;
    var ck := FindCartOf(db.carts, caller);
    if ck.None? {
      var newDoc := new CartDocument.Create(newId, caller, [LineItem(product, quantity.GetOr(1), price)]);
      var created := newDoc.Save();
      if created.Failure? {
        return Err(500, AddFailed);
      }
      AddToCartKeepsValid(db.products, db.carts, caller, product, quantity, newId);
      db.carts := db.carts + [created.value];
      return Ok(200, created.value);
    }
    var saved := MergeAndSave(db.carts[ck.value], product, quantity, price);
    if saved.Failure? {
      return Err(500, AddFailed);
    }
    AddToCartKeepsValid(db.products, db.carts, caller, product, quantity, newId);
    db.carts := db.carts[ck.value := saved.value];
    reply := Ok(200, saved.value);
  }

  const UpdateFailed: string := "Error updating cart"

  /** `updateCart`: set the quantity of the product's line; an absent quantity fails the `required` validator. */
  function UpdateCartSpec(carts: seq<Cart>, caller: Id, product: Id, quantity: Option<int>)
    : Outcome<seq<LineItem>>
  {
    match FindCartOf(carts, caller)
    case None => Outcome(Err(404, "Cart not found"), carts)
    case Some(ck) =>
      match LineOf(carts[ck].items, product)
      case None => Outcome(Err(404, "Item not found in cart"), carts)
      case Some(i) =>
        if quantity.None? then Outcome(Err(500, UpdateFailed), carts)
        else
          var items := carts[ck].items;
          var lines := items[i := items[i].(quantity := quantity.value)];
          match SaveCart(carts[ck].(items := lines), lines != items)
          case Failure(_) => Outcome(Err(500, UpdateFailed), carts)
          case Success(c) => Outcome(Ok(200, c.items), carts[ck := c])
  }

  /**
   * No cart or no line of the product answers 404 and changes nothing; a
   * quantity below 1 is rejected by the validator; otherwise only that
   * line's quantity changes, and the total follows.
   */
  lemma UpdateCartEffects(carts: seq<Cart>, caller: Id, product: Id, quantity: Option<int>)
    requires CartsValid(carts)
    ensures FindCartOf(carts, caller).None? ==> UpdateCartSpec(carts, caller, product, quantity) == Outcome(Err(404, "Cart not found"), carts)
    ensures FindCartOf(carts, caller).Some? && LineOf(carts[FindCartOf(carts, caller).value].items, product).None? ==>
              UpdateCartSpec(carts, caller, product, quantity) == Outcome(Err(404, "Item not found in cart"), carts)
    ensures UpdateCartSpec(carts, caller, product, quantity).reply.Ok? <==>
              FindCartOf(carts, caller).Some? && LineOf(carts[FindCartOf(carts, caller).value].items, product).Some?
              && quantity.Some? && quantity.value >= 1
    ensures UpdateCartSpec(carts, caller, product, quantity).reply.Ok? ==>
              var ck := FindCartOf(carts, caller).value;
              var items := carts[ck].items;
              var i := LineOf(items, product).value;
              var r := UpdateCartSpec(carts, caller, product, quantity).reply.data;
              && |r| == |items|
              && r[i] == items[i].(quantity := quantity.value)
              && (forall k :: 0 <= k < |items| && k != i ==> r[k] == items[k])
              && UpdateCartSpec(carts, caller, product, quantity).carts ==
                   carts[ck := carts[ck].(items := r, total := LinesTotal(r))]
    ensures CartsValid(UpdateCartSpec(carts, caller, product, quantity).carts)
  {
    var out := UpdateCartSpec(carts, caller, product, quantity);
    if out.reply.Ok? {
      var ck := FindCartOf(carts, caller).value;
      var items := carts[ck].items;
      var i := LineOf(items, product).value;
      var lines := items[i := items[i].(quantity := quantity.value)];
      assert CartConsistent(carts[ck]);
      assert OneLinePerProduct(lines) by {
        assert forall k :: 0 <= k < |lines| ==> lines[k].product == items[k].product;
      }
      SavedCartConsistent(carts[ck], lines, lines != items);
      CartsValidUpdate(carts, ck, SaveCart(carts[ck].(items := lines), lines != items).value);
    }
  }

  /** Writing a line changes the lines exactly when the new line differs from the old one. */
  lemma SetLineModifies(items: seq<LineItem>, i: nat, line: LineItem)
    requires i < |items|
    ensures (items[i := line] != items) == (line != items[i])
  {
    if line == items[i] {
      assert items[i := line] == items;
    } else {
      assert items[i := line][i] != items[i];
    }
  }

  /** `updateCart` through the cart document. */
  method UpdateCart(db: Db, caller: Id, product: Id, quantity: Option<int>) returns (reply: Reply<seq<LineItem>>)
    requires db.Valid()
    modifies db
    ensures db.Valid()
    ensures var out := UpdateCartSpec(old(db.carts), caller, product, quantity);
      reply == out.reply && db.carts == out.carts
    ensures db.users == old(db.users) && db.stores == old(db.stores) && db.products == old(db.products)
            && db.orders == old(db.orders)
  {
    var ck := FindCartOf(db.carts, caller);
    if ck.None? {
      return Err(404, "Cart not found");
    }
    var loaded := db.carts[ck.value];
    var doc := new CartDocument.Load(loaded);
    var i := LineOf(doc.items, product);
    if i.None? {
      return Err(404, "Item not found in cart");
    }
    if quantity.None? {
      return Err(500, UpdateFailed);
    }
    var line := loaded.items[i.value].(quantity := quantity.value);
    var lines := loaded.items[i.value := line];
    SetLineModifies(loaded.items, i.value, line);
    doc.SetLine(i.value, line);
    assert doc.Contents() == loaded.(items := lines) && doc.itemsModified == (lines != loaded.items);
    var saved := doc.Save();
    if saved.Failure? {
      return Err(500, UpdateFailed);
    }
    UpdateCartEffects(db.carts, caller, product, quantity);
    db.carts := db.carts[ck.value := saved.value];
    reply := Ok(200, saved.value.items);
  }

  /** The lines `removeFromCart` keeps. */
  function WithoutProduct(items: seq<LineItem>, product: Id): seq<LineItem> {
    Filter(items, (item: LineItem) => item.product != product)
  }

  /** Dropping lines keeps one line per product. */
  lemma {:induction false} WithoutProductOneLine(items: seq<LineItem>, product: Id)
    requires OneLinePerProduct(items)
    ensures OneLinePerProduct(WithoutProduct(items, product))
  {
    if items != [] {
      var t := items[1..];
      assert OneLinePerProduct(t) by {
        forall i, j | 0 <= i < |t| && 0 <= j < |t| && t[i].product == t[j].product ensures i == j {
          assert items[i + 1].product == items[j + 1].product;
        }
      }
      WithoutProductOneLine(t, product);
      var rest := WithoutProduct(t, product);
      if items[0].product != product {
        assert WithoutProduct(items, product) == [items[0]] + rest;
        forall k | 0 <= k < |rest| ensures rest[k].product != items[0].product {
          assert rest[k] in t;
          var m :| 0 <= m < |t| && t[m] == rest[k];
          assert items[m + 1] == rest[k];
        }
      } else {
        assert WithoutProduct(items, product) == rest;
      }
    }
  }

  /** `removeFromCart`: drop every line of the product. */
  function RemoveFromCartSpec(carts: seq<Cart>, caller: Id, product: Id): Outcome<seq<LineItem>> {
    match FindCartOf(carts, caller)
    case None => Outcome(Err(404, "Cart not found"), carts)
    case Some(ck) =>
      var items := carts[ck].items;
      var lines := WithoutProduct(items, product);
      match SaveCart(carts[ck].(items := lines), lines != items)
      case Failure(_) => Outcome(Err(500, "Error removing from cart"), carts)
      case Success(c) => Outcome(Ok(200, c.items), carts[ck := c])
  }

  /**
   * Removing from a consistent cart always succeeds: no line of the product
   * is left, every other line is kept in order, and the total follows.
   */
  lemma RemoveFromCartEffects(carts: seq<Cart>, caller: Id, product: Id)
    requires CartsValid(carts)
    requires FindCartOf(carts, caller).Some?
    ensures var ck := FindCartOf(carts, caller).value;
      var items := carts[ck].items;
      var out := RemoveFromCartSpec(carts, caller, product);
      && out.reply.Ok?
      && out.reply.data == WithoutProduct(items, product)
      && (forall k :: 0 <= k < |out.reply.data| ==> out.reply.data[k].product != product)
      && (forall line :: line in items && line.product != product ==> line in out.reply.data)
      && out.carts == carts[ck := carts[ck].(items := out.reply.data, total := LinesTotal(out.reply.data))]
      && CartsValid(out.carts)
  {
    var ck := FindCartOf(carts, caller).value;
    var items := carts[ck].items;
    var lines := WithoutProduct(items, product);
    assert CartConsistent(carts[ck]);
    forall line | line in items && line.product != product ensures line in lines {
      FilterMembership(items, (item: LineItem) => item.product != product, line);
    }
    assert LinesValid(lines);
    WithoutProductOneLine(items, product);
    SavedCartConsistent(carts[ck], lines, lines != items);
    CartsValidUpdate(carts, ck, SaveCart(carts[ck].(items := lines), lines != items).value);
  }

  /** `removeFromCart` through the cart document. */
  method RemoveFromCart(db: Db, caller: Id, product: Id) returns (reply: Reply<seq<LineItem>>)
    requires db.Valid()
    modifies db
    ensures db.Valid()
    ensures var out := RemoveFromCartSpec(old(db.carts), caller, product);
      reply == out.reply && db.carts == out.carts
    ensures db.users == old(db.users) && db.stores == old(db.stores) && db.products == old(db.products)
            && db.orders == old(db.orders)
  {
    var ck := FindCartOf(db.carts, caller);
    if ck.None? {
      return Err(404, "Cart not found");
    }
    var loaded := db.carts[ck.value];
    var doc := new CartDocument.Load(loaded);
    doc.SetItems(WithoutProduct(doc.items, product));
    var saved := doc.Save();
    if saved.Failure? {
      return Err(500, "Error removing from cart");
    }
    RemoveFromCartEffects(db.carts, caller, product);
    db.carts := db.carts[ck.value := saved.value];
    reply := Ok(200, saved.value.items);
  }
}
