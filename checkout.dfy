/**
 * The input formatters of the checkout page (card number in groups of
 * four, expiry date as `MM/YY`, a three-digit CVV) and its subtotal.
 */
module Checkout {
  import opened Common
  import opened Strings

  function Min(a: int, b: int): int {
    if a <= b then a else b
  }

  // ---------------------------------------------------------------- card number

  /** The string from position `i` on, or nothing once `i` is past its end. */
  function Drop(s: string, i: nat): string {
    if i <= |s| then s[i..] else []
  }

  /** `text.substring(i, i + 4)` for every `i` in steps of 4: the groups of four, the last one shorter. */
  function Groups(m: string): seq<string>
    decreases |m|
  {
    if m == [] then [] else if |m| <= 4 then [m] else [m[..4]] + Groups(m[4..])
  }

  /**
   * The first match of `/\d{4,16}/g` on the digits of the input: its first
   * 16 digits when it has at least 4, or nothing.
   */
  function CardDigits(value: string): (m: string)
    ensures AllDigits(m)
  {
    var v := Digits(value);
    if |v| >= 4 then v[..Min(16, |v|)] else []
  }

  /** What `formatCardNumber` returns: the groups joined by single spaces, or the input when there are none. */
  function FormatCard(value: string): string {
    var parts := Groups(CardDigits(value));
    if |parts| > 0 then Join(parts, " ") else value
  }

  /** One step of the loop: the group at `i`, then the groups of what follows it. */
  lemma GroupsStep(m: string, i: nat)
    requires i < |m|
    ensures Groups(Drop(m, i)) == [m[i..Min(i + 4, |m|)]] + Groups(Drop(m, i + 4))
  {
    assert Drop(m, i) == m[i..];
    if |m| - i > 4 {
      assert m[i..][..4] == m[i..i + 4];
      assert m[i..][4..] == m[i + 4..] == Drop(m, i + 4);
    } else {
      assert Drop(m, i + 4) == [];
      assert m[i..Min(i + 4, |m|)] == m[i..];
    }
  }

  /** The `for` loop of `formatCardNumber`, pushing `match.substring(i, i + 4)` for `i` in steps of 4. */
  method PushGroups(m: string) returns (parts: seq<string>)
    ensures parts == Groups(m)
  {
    parts := [];
    var i := 0;
    assert Drop(m, 0) == m;
    while i < |m|
      invariant parts + Groups(Drop(m, i)) == Groups(m)
      decreases |m| - i
    {
      GroupsStep(m, i);
      parts := parts + [m[i..Min(i + 4, |m|)]];
      i := i + 4;
    }
    assert Drop(m, i) == [];
  }

  /** `formatCardNumber`. */
  method FormatCardNumber(value: string) returns (r: string)
    ensures r == FormatCard(value)
  {
    var m := CardDigits(value);
    var parts := PushGroups(m);
    if |parts| > 0 {
      r := Join(parts, " ");
    } else {
      r := value;
    }
  }

  /**
   * Grouped digits joined by spaces: a space at every fifth position and the
   * digits in order everywhere else, so `k` digits take `k + (k - 1) / 4` characters.
   */
  lemma GroupedLayout(m: string)
    requires m != []
    ensures |Groups(m)| > 0
    ensures var r := Join(Groups(m), " ");
            && |r| == |m| + (|m| - 1) / 4
            && forall k :: 0 <= k < |r| ==> if k % 5 == 4 then r[k] == ' ' else r[k] == m[k - k / 5]
  {
    GroupedLength(m);
    forall k | 0 <= k < |Join(Groups(m), " ")|
      ensures var r := Join(Groups(m), " ");
              if k % 5 == 4 then r[k] == ' ' else r[k] == m[k - k / 5]
    {
      GroupedAt(m, k);
    }
  }

  /** `k` digits take `k + (k - 1) / 4` characters once grouped. */
  lemma {:induction false} GroupedLength(m: string)
    requires m != []
    ensures |Groups(m)| > 0 && |Join(Groups(m), " ")| == |m| + (|m| - 1) / 4
    decreases |m|
  {
    if |m| > 4 {
      GroupedLength(m[4..]);
      assert Groups(m) == [m[..4]] + Groups(m[4..]);
      assert Join(Groups(m), " ") == m[..4] + " " + Join(Groups(m[4..]), " ");
      GroupLengthStep(|m|);
    }
  }

  /** The character at position `k` of the grouped form: a space at every fifth position, else digit `k - k / 5`. */
  lemma {:induction false} GroupedAt(m: string, k: int)
    requires m != []
    requires 0 <= k < |m| + (|m| - 1) / 4
    ensures |Groups(m)| > 0 && |Join(Groups(m), " ")| == |m| + (|m| - 1) / 4
    ensures var r := Join(Groups(m), " ");
            if k % 5 == 4 then r[k] == ' ' else 0 <= k - k / 5 < |m| && r[k] == m[k - k / 5]
    decreases |m|
  {
    GroupedLength(m);
    var r := Join(Groups(m), " ");
    if |m| <= 4 {
      assert k < 4 && k / 5 == 0 && k % 5 == k;
    } else {
      var tail := m[4..];
      GroupedLength(tail);
      assert Groups(m) == [m[..4]] + Groups(tail);
      assert r == m[..4] + " " + Join(Groups(tail), " ");
      if k < 5 {
        assert k / 5 == 0 && k % 5 == k;
      } else {
        GroupLengthStep(|m|);
        ShiftByFive(k);
        GroupedAt(tail, k - 5);
      }
    }
  }

  /** Five positions further on, the position within a group is the same and the group is the next one. */
  lemma ShiftByFive(k: int)
    requires k >= 5
    ensures (k - 5) % 5 == k % 5 && (k - 5) / 5 == k / 5 - 1
  {
  }

  /** Four more digits take five more characters. */
  lemma GroupLengthStep(n: int)
    requires n > 4
    ensures 5 + (n - 4) + (n - 5) / 4 == n + (n - 1) / 4
  {
    assert (n - 1) / 4 == (n - 5) / 4 + 1;
  }

  /** The digits of grouped digits are those digits. */
  lemma {:induction false} GroupedDigits(m: string)
    requires m != [] && AllDigits(m)
    ensures |Groups(m)| > 0 && Digits(Join(Groups(m), " ")) == m
    decreases |m|
  {
    if |m| > 4 {
      GroupedDigits(m[4..]);
      var rest := Join(Groups(m[4..]), " ");
      assert Groups(m)[1..] == Groups(m[4..]);
      assert Join(Groups(m), " ") == m[..4] + " " + rest;
      DigitsAppend(m[..4] + " ", rest);
      DigitsAppend(m[..4], " ");
      assert m[..4] + m[4..] == m;
    }
  }

  /**
   * With at least four digits, the result is the first (up to) sixteen of
   * them, in input order, in groups of four separated by single spaces, and
   * never longer than the field's `maxLength` of 19.
   */
  lemma CardFormatGrouped(value: string)
    requires |Digits(value)| >= 4
    ensures var m := Digits(value)[..Min(16, |Digits(value)|)];
            var r := FormatCard(value);
            && |r| == |m| + (|m| - 1) / 4 && |r| <= 19
            && (forall k :: 0 <= k < |r| ==> if k % 5 == 4 then r[k] == ' ' else r[k] == m[k - k / 5])
            && Digits(r) == m
  {
    var m := CardDigits(value);
    GroupedLayout(m);
    GroupedDigits(m);
  }

  /** With fewer than four digits the input is returned as typed. */
  lemma CardFormatFewDigits(value: string)
    requires |Digits(value)| < 4
    ensures FormatCard(value) == value
  {
  }

  /** Formatting an already formatted card number changes nothing. */
  lemma CardFormatIdempotent(value: string)
    ensures FormatCard(FormatCard(value)) == FormatCard(value)
  {
    var m := CardDigits(value);
    if m != [] {
      GroupedDigits(m);
      var r := FormatCard(value);
      assert Digits(r) == m;
      assert Digits(r)[..Min(16, |m|)] == m;
      assert CardDigits(r) == m;
    }
  }

  // ---------------------------------------------------------------- expiry and CVV

  /** `formatExpiryDate`: the digits, with a `/` after the first two and at most four of them kept. */
  function FormatExpiry(value: string): string {
    var v := Digits(value);
    if |v| >= 2 then v[..2] + "/" + v[2..Min(4, |v|)] else v
  }

  /**
   * With two digits or more the result is the first two digits, a slash and
   * the third and fourth digits if present (at most five characters, whose
   * digits are the first four of the input); otherwise the digits alone.
   */
  lemma ExpiryShape(value: string)
    ensures var v := Digits(value);
            var r := FormatExpiry(value);
            && |r| <= 5
            && (|v| >= 2 ==> r[..2] == v[..2] && r[2] == '/' && r[3..] == v[2..Min(4, |v|)]
                             && Digits(r) == v[..Min(4, |v|)])
            && (|v| < 2 ==> r == v)
  {
    var v := Digits(value);
    if |v| >= 2 {
      var head, tail := v[..2], v[2..Min(4, |v|)];
      var r := head + "/" + tail;
      assert r == FormatExpiry(value);
      assert r[..2] == head && r[2] == '/' && r[3..] == tail;
      SlashedDigits(head, tail);
      assert head + tail == v[..Min(4, |v|)];
    }
  }

  /** The digits of two digit strings joined by a slash are those digits. */
  lemma SlashedDigits(head: string, tail: string)
    requires AllDigits(head) && AllDigits(tail)
    ensures Digits(head + "/" + tail) == head + tail
  {
    assert Digits("/") == [] by {
      assert "/"[1..] == [];
    }
    DigitsAppend(head + "/", tail);
    DigitsAppend(head, "/");
  }

  /** Formatting an already formatted expiry date changes nothing. */
  lemma ExpiryIdempotent(value: string)
    ensures FormatExpiry(FormatExpiry(value)) == FormatExpiry(value)
  {
    ExpiryShape(value);
    var v := Digits(value);
    if |v| >= 2 {
      var w := v[..Min(4, |v|)];
      assert w[..2] == v[..2] && w[2..Min(4, |w|)] == v[2..Min(4, |v|)];
    }
  }

  /** The CVV field's `replace(/\D/g, "").slice(0, 3)`: the first three digits at most. */
  function SanitizeCvv(value: string): (r: string)
    ensures AllDigits(r)
    ensures |r| == Min(3, |Digits(value)|)
    ensures r == Digits(value)[..|r|]
  {
    Digits(value)[..Min(3, |Digits(value)|)]
  }

  /** Sanitising a sanitised CVV changes nothing. */
  lemma CvvIdempotent(value: string)
    ensures SanitizeCvv(SanitizeCvv(value)) == SanitizeCvv(value)
  {
  }

  // ---------------------------------------------------------------- subtotal

  /** A cart line as the page reads it. */
  datatype CheckoutItem = CheckoutItem(price: int, quantity: int)

  /** `cartItems.reduce((sum, item) => sum + item.price * item.quantity, 0)`, folding from the left. */
  function Subtotal(items: seq<CheckoutItem>): int {
    if items == [] then 0
    else Subtotal(items[..|items| - 1]) + items[|items| - 1].price * items[|items| - 1].quantity
  }

  /** The page's view of server cart lines. */
  function ItemsOf(lines: seq<LineItem>): (r: seq<CheckoutItem>)
    ensures |r| == |lines|
    ensures forall k :: 0 <= k < |lines| ==> r[k] == CheckoutItem(lines[k].price, lines[k].quantity)
  {
    if lines == [] then [] else [CheckoutItem(lines[0].price, lines[0].quantity)] + ItemsOf(lines[1..])
  }

  /** The subtotal of the page is the total the cart's save hook stores for the same lines. */
  lemma {:induction false} SubtotalIsCartTotal(lines: seq<LineItem>)
    ensures Subtotal(ItemsOf(lines)) == LinesTotal(lines)
    decreases |lines|
  {
    if lines != [] {
      var init := lines[..|lines| - 1];
      SubtotalIsCartTotal(init);
      var items := ItemsOf(lines);
      assert items[..|items| - 1] == ItemsOf(init);
      LinesTotalSnoc(lines);
    }
  }

  /** The cart total of the lines is that of all but the last plus the last line's amount. */
  lemma LinesTotalSnoc(lines: seq<LineItem>)
    requires lines != []
    ensures LinesTotal(lines) == LinesTotal(lines[..|lines| - 1]) + lines[|lines| - 1].price * lines[|lines| - 1].quantity
  {
    var init, last := lines[..|lines| - 1], lines[|lines| - 1];
    assert lines == init + [last];
    LinesTotalAppend(init, [last]);
    assert LinesTotal([last]) == last.price * last.quantity + LinesTotal([]);
  }
}
