/**
 * The Cart document: one per user, a list of `{ product, quantity, price }`
 * lines and a `total` that the `pre("save")` hook recomputes when, and only
 * when, the lines were modified.
 */
module CartModel {
  import opened Wrappers
  import opened Common

  datatype Cart = Cart(id: Id, user: Id, items: seq<LineItem>, total: int)

  const CartValidationFailed: string := "Cart validation failed"

  /** `cart.save()`: the line validators, then the total hook. */
  function SaveCart(c: Cart, itemsModified: bool): Result<Cart, string> {
    if !LinesValid(c.items) then Failure(CartValidationFailed)
    else if itemsModified then Success(c.(total := LinesTotal(c.items)))
    else Success(c)
  }

  /**
   * A save with modified lines leaves `total` equal to their sum (0 for no
   * lines, never negative); without modified lines it leaves the cart as it was.
   */
  lemma SaveCartTotal(c: Cart, itemsModified: bool)
    requires SaveCart(c, itemsModified).Success?
    ensures itemsModified ==> SaveCart(c, itemsModified).value == c.(total := LinesTotal(c.items))
    ensures itemsModified ==> SaveCart(c, itemsModified).value.total >= 0
    ensures itemsModified && c.items == [] ==> SaveCart(c, itemsModified).value.total == 0
    ensures !itemsModified ==> SaveCart(c, itemsModified).value == c
  {
    LinesTotalNonNegative(c.items);
  }

  /** Save fails exactly when some line breaks the `min` bounds. */
  lemma SaveCartFailsIff(c: Cart, itemsModified: bool)
    ensures SaveCart(c, itemsModified).Failure? <==>
            exists k :: 0 <= k < |c.items| && (c.items[k].quantity < 1 || c.items[k].price < 0)
  {
  }

  /** A loaded or newly built cart document; `itemsModified` is the dirty flag of `items`. */
  class CartDocument {
    const id: Id
    const user: Id
    var items: seq<LineItem>
    var total: int
    var itemsModified: bool

    function Contents(): Cart
      reads this
    {
      Cart(id, user, items, total)
    }

    /** `Cart.findOne`: a clean document. */
    constructor Load(c: Cart)
      ensures Contents() == c && !itemsModified
    {
      id, user, items, total := c.id, c.user, c.items, c.total;
      itemsModified := false;
    }

    /** `new Cart({ user, items })`: `total` takes its default 0 and `items` counts as modified. */
    constructor Create(id: Id, user: Id, items: seq<LineItem>)
      ensures Contents() == Cart(id, user, items, 0) && itemsModified
    {
      this.id, this.user, this.items, total := id, user, items, 0;
      itemsModified := true;
    }

    /** An assignment to a path of line `i` (`existingItem.quantity += …`, `item.quantity = …`). */
    method SetLine(i: nat, line: LineItem)
      requires i < |items|
      modifies this
      ensures Contents() == old(Contents()).(items := old(items)[i := line])
      ensures itemsModified == (old(itemsModified) || line != old(items)[i])
    {
      if line != items[i] {
        itemsModified := true;
      }
      items := items[i := line];
    }

    /** `cart.items.push(line)`. */
    method PushLine(line: LineItem)
      modifies this
      ensures Contents() == old(Contents()).(items := old(items) + [line])
      ensures itemsModified
    {
      items := items + [line];
      itemsModified := true;
    }

    /** `cart.items = lines`. */
    method SetItems(lines: seq<LineItem>)
      modifies this
      ensures Contents() == old(Contents()).(items := lines)
      ensures itemsModified == (old(itemsModified) || lines != old(items))
    {
      if lines != items {
        itemsModified := true;
      }
      items := lines;
    }

    /** `cart.save()`; on success the document holds the saved cart and is clean. */
    method Save() returns (r: Result<Cart, string>)
      modifies this
      ensures r == SaveCart(old(Contents()), old(itemsModified))
      ensures r.Success? ==> Contents() == r.value && !itemsModified
      ensures r.Failure? ==> Contents() == old(Contents()) && itemsModified == old(itemsModified)
    {
      if !LinesValid(items) {
        return Failure(CartValidationFailed);
      }
      if itemsModified {
        total := LinesTotal(items);
      }
      itemsModified := false;
      r := Success(Contents());
    }
  }
}
