/** Bill arithmetic: line amounts, the subtotal as `items.reduce`, and the
    fixed 10% tax. */
module Money {
  import opened Domain

  const TaxRate: real := 0.1

  function LineAmount(item: OrderItem): real
  {
    item.price * item.quantity as real
  }

  /** `items.reduce((total, item) => total + item.price * item.quantity, 0)`:
      a left fold, so the last line is added last. */
  function Subtotal(items: seq<OrderItem>): real
  {
    if |items| == 0 then 0.0 else Subtotal(items[..|items| - 1]) + LineAmount(items[|items| - 1])
  }

  function Tax(subtotal: real): real
  {
    subtotal * TaxRate
  }

  function Total(subtotal: real): real
  {
    subtotal + Tax(subtotal)
  }

  /** The reduce loop itself, computing the same sum as `Subtotal`. */
  method ComputeSubtotal(items: seq<OrderItem>) returns (total: real)
    ensures total == Subtotal(items)
  {
    total := 0.0;
    var i := 0;
    while i < |items|
      invariant 0 <= i <= |items|
      invariant total == Subtotal(items[..i])
    {
      assert items[..i + 1][..i] == items[..i];
      total := total + LineAmount(items[i]);
      i := i + 1;
    }
    assert items[..|items|] == items;
  }

  /** The subtotal of a concatenation is the sum of the subtotals. */
  lemma {:induction false} SubtotalAppend(a: seq<OrderItem>, b: seq<OrderItem>)
    ensures Subtotal(a + b) == Subtotal(a) + Subtotal(b)
  {
    if |b| > 0 {
      var ab := a + b;
      assert ab[..|ab| - 1] == a + b[..|b| - 1];
      SubtotalAppend(a, b[..|b| - 1]);
    } else {
      assert a + b == a;
    }
  }

  /** Adding one line in front adds its amount: the fold order does not matter. */
  lemma SubtotalCons(x: OrderItem, rest: seq<OrderItem>)
    ensures Subtotal([x] + rest) == LineAmount(x) + Subtotal(rest)
  {
    SubtotalAppend([x], rest);
    assert [x][..0] == [];
  }

  /** Appending a line adds its amount last, as the fold does. */
  lemma SubtotalSnoc(items: seq<OrderItem>, x: OrderItem)
    ensures Subtotal(items + [x]) == Subtotal(items) + LineAmount(x)
  {
    assert (items + [x])[..|items|] == items;
  }

  /** One more unit on a line adds the line's price to its amount. */
  lemma LineAmountIncrement(x: OrderItem)
    ensures LineAmount(x.(quantity := x.quantity + 1)) == LineAmount(x) + x.price
  {
    assert (x.quantity + 1) as real == x.quantity as real + 1.0;
  }

  /** The subtotal around one line is the subtotals on either side plus that line. */
  lemma SubtotalSplit(before: seq<OrderItem>, x: OrderItem, after: seq<OrderItem>)
    ensures Subtotal(before + [x] + after) == Subtotal(before) + LineAmount(x) + Subtotal(after)
  {
    SubtotalAppend(before + [x], after);
    SubtotalAppend(before, [x]);
    SubtotalCons(x, []);
    assert [x] + [] == [x];
  }

  /** The subtotal depends only on each line's price and quantity, not on its
      id, name or kitchen status. */
  lemma {:induction false} SubtotalOnlyPriceQuantity(a: seq<OrderItem>, b: seq<OrderItem>)
    requires |a| == |b|
    requires forall i :: 0 <= i < |a| ==> a[i].price == b[i].price && a[i].quantity == b[i].quantity
    ensures Subtotal(a) == Subtotal(b)
  {
    if |a| > 0 {
      SubtotalOnlyPriceQuantity(a[..|a| - 1], b[..|b| - 1]);
    }
  }

  /** With non-negative prices and positive quantities no subtotal is negative. */
  lemma {:induction false} SubtotalNonNegative(items: seq<OrderItem>)
    requires forall i :: 0 <= i < |items| ==> items[i].price >= 0.0 && items[i].quantity >= 1
    ensures Subtotal(items) >= 0.0
  {
    if |items| > 0 {
      SubtotalNonNegative(items[..|items| - 1]);
    }
  }
}
