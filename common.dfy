/**
 * Vocabulary shared by the backend models and controllers: document ids,
 * timestamps, HTTP replies, and the `{ product, quantity, price }` line that
 * both an order and a cart hold.
 */
module Common {

  /** A document id (`ObjectId`); its string form is its decimal rendering. */
  type Id = nat

  /** A timestamp in milliseconds, as `Date.now()` gives it. */
  type Time = int

  /** `estimatedDeliveryDate.setDate(getDate() + 7)`, taken as a fixed offset. */
  const SevenDays: int := 7 * 24 * 60 * 60 * 1000

  /**
   * What a route handler sends: a status code with the document it returns,
   * or a status code with the `message` field of its JSON error body.
   */
  datatype Reply<T> = Ok(code: int, data: T) | Err(code: int, message: string)

  /** An order line or a cart line: `{ product, quantity, price }`. */
  datatype LineItem = LineItem(product: Id, quantity: int, price: int)

  /** The schema bounds on a line: `quantity` has `min: 1`, `price` has `min: 0`. */
  predicate LineValid(item: LineItem) {
    item.quantity >= 1 && item.price >= 0
  }

  predicate LinesValid(items: seq<LineItem>) {
    forall i :: 0 <= i < |items| ==> LineValid(items[i])
  }

  /** `items.reduce((total, item) => total + item.price * item.quantity, 0)`. */
  function LinesTotal(items: seq<LineItem>): int {
    if items == [] then 0 else items[0].price * items[0].quantity + LinesTotal(items[1..])
  }

  lemma {:induction false} LinesTotalAppend(a: seq<LineItem>, b: seq<LineItem>)
    ensures LinesTotal(a + b) == LinesTotal(a) + LinesTotal(b)
  {
    if a == [] {
      assert a + b == b;
    } else {
      assert (a + b)[1..] == a[1..] + b;
      LinesTotalAppend(a[1..], b);
    }
  }

  /** Lines within the schema bounds never sum to a negative total (`totalAmount` has `min: 0`). */
  lemma {:induction false} LinesTotalNonNegative(items: seq<LineItem>)
    requires LinesValid(items)
    ensures LinesTotal(items) >= 0
  {
    if items != [] {
      assert LineValid(items[0]);
      LinesTotalNonNegative(items[1..]);
    }
  }

  /** Changing one line changes the total by the difference of that line's amounts. */
  lemma {:induction false} LinesTotalUpdate(items: seq<LineItem>, i: nat, x: LineItem)
    requires i < |items|
    ensures LinesTotal(items[i := x]) ==
            LinesTotal(items) - items[i].price * items[i].quantity + x.price * x.quantity
  {
    if i != 0 {
      assert items[i := x][1..] == items[1..][i - 1 := x];
      LinesTotalUpdate(items[1..], i - 1, x);
    }
  }
}
