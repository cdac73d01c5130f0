/** What the bill list offers: the two payment buttons while a bill is
    pending, per-line amounts, and the stored totals. */
module BillListView {
  import opened Wrappers
  import opened Domain
  import Money
  import Billing
  import Restaurant

  /** "Mark as Paid" requests completed and "Mark as Failed" requests failed;
      both are shown only while the bill is pending. */
  function OfferedPaymentActions(b: Bill): seq<PaymentStatus>
  {
    if b.paymentStatus == PaymentPending then [PaymentCompleted, PaymentFailed] else []
  }

  /** Pressing payment button `a` on bill `k`: a button that is not shown does nothing. */
  function ClickPayment(st: Restaurant.RestaurantState, k: nat, a: nat, now: Instant): (r: Restaurant.RestaurantState)
    requires k < |st.bills|
    ensures a >= |OfferedPaymentActions(st.bills[k])| ==> r == st
  {
    var offered := OfferedPaymentActions(st.bills[k]);
    if a < |offered| then Restaurant.UpdateBillPaymentStatus(st, st.bills[k].id, offered[a], now) else st
  }

  predicate UniqueBillIds(bills: seq<Bill>)
  {
    forall i, j :: 0 <= i < j < |bills| ==> bills[i].id != bills[j].id
  }

  /** Completed and failed are terminal through the list: any click leaves the
      bill settled, after which no button is shown and a further click on it is
      a no-op. Other bills keep their status. */
  lemma PaymentClickSettles(st: Restaurant.RestaurantState, k: nat, a: nat, now: Instant, k2: nat, a2: nat, later: Instant)
    requires k < |st.bills| && UniqueBillIds(st.bills)
    requires a < |OfferedPaymentActions(st.bills[k])|
    ensures var r := ClickPayment(st, k, a, now);
            && |r.bills| == |st.bills|
            && r.bills[k].paymentStatus in {PaymentCompleted, PaymentFailed}
            && OfferedPaymentActions(r.bills[k]) == []
            && ClickPayment(r, k, a2, later) == r
            && (forall i :: 0 <= i < |st.bills| && i != k ==> r.bills[i] == st.bills[i])
  {
    var r := ClickPayment(st, k, a, now);
    forall i | 0 <= i < |st.bills| && i != k
      ensures r.bills[i] == st.bills[i]
    {
      assert st.bills[i].id != st.bills[k].id;
    }
  }

  /** On a pending bill with a unique id, "Mark as Paid" is the completed
      payment with its cascade to table and order, and "Mark as Failed" marks
      the bill failed and touches nothing else. A settled bill shows no button,
      so every click on it is a no-op. */
  lemma PaymentButtonsRequest(st: Restaurant.RestaurantState, k: nat, a: nat, now: Instant)
    requires k < |st.bills| && UniqueBillIds(st.bills)
    ensures st.bills[k].paymentStatus == PaymentPending ==>
      ClickPayment(st, k, 0, now) == Restaurant.UpdateBillPaymentStatus(st, st.bills[k].id, PaymentCompleted, now)
      && ClickPayment(st, k, 0, now).bills[k].paymentStatus == PaymentCompleted
    ensures st.bills[k].paymentStatus == PaymentPending ==>
      var r := ClickPayment(st, k, 1, now);
      r.bills[k].paymentStatus == PaymentFailed && r.tables == st.tables && r.orders == st.orders
    ensures st.bills[k].paymentStatus != PaymentPending ==> ClickPayment(st, k, a, now) == st
  {
  }

  /** The amount shown on each line of a bill. */
  function LineAmounts(items: seq<OrderItem>): seq<real>
  {
    seq(|items|, i requires 0 <= i < |items| => Money.LineAmount(items[i]))
  }

  /** Left-to-right sum of a list of amounts. */
  function Sum(xs: seq<real>): real
  {
    if |xs| == 0 then 0.0 else Sum(xs[..|xs| - 1]) + xs[|xs| - 1]
  }

  /** The shown line amounts add up to the subtotal formula. */
  lemma {:induction false} LineAmountsSumToSubtotal(items: seq<OrderItem>)
    ensures Sum(LineAmounts(items)) == Money.Subtotal(items)
  {
    if |items| > 0 {
      var init := items[..|items| - 1];
      assert LineAmounts(items)[..|items| - 1] == LineAmounts(init);
      LineAmountsSumToSubtotal(init);
    }
  }

  /** The total shown is the stored one, not recomputed from the lines. */
  function DisplayedTotal(b: Bill): real
  {
    b.total
  }

  /** For a balanced bill the shown lines sum to the shown subtotal, and the
      shown total is that subtotal plus the stored tax. */
  lemma DisplayAgreesWithLines(bills: seq<Bill>, k: nat)
    requires k < |bills| && Restaurant.BillsBalanced(bills)
    ensures Sum(LineAmounts(bills[k].items)) == bills[k].subtotal
    ensures DisplayedTotal(bills[k]) == bills[k].subtotal + bills[k].tax
  {
    LineAmountsSumToSubtotal(bills[k].items);
  }
}
