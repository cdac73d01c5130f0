/** The billing engine over the bill list: `generateBill` and the bill half
    of `updateBillPaymentStatus`. The cascade onto tables and orders lives in
    module Restaurant, which owns all collections. */
module Billing {
  import opened Wrappers
  import opened Domain
  import Ids
  import Money
  import OrderLifecycle

  datatype BillingError = OrderNotFound

  function BillIds(bills: seq<Bill>): (ids: seq<string>)
    ensures |ids| == |bills| && forall i :: 0 <= i < |bills| ==> ids[i] == bills[i].id
  {
    seq(|bills|, i requires 0 <= i < |bills| => bills[i].id)
  }

  /** `orders.find(o => o.id === orderId)`: the first order with that id. */
  function FindOrder(orders: seq<Order>, orderId: string): (r: Option<Order>)
    ensures r.None? <==> orderId !in OrderLifecycle.OrderIds(orders)
    ensures r.Some? ==> exists i :: 0 <= i < |orders| && orders[i] == r.value && r.value.id == orderId
                                    && forall j :: 0 <= j < i ==> orders[j].id != orderId
  {
    match FirstIndex(orders, (o: Order) => o.id == orderId)
    case None =>
      assert forall j :: 0 <= j < |orders| ==> OrderLifecycle.OrderIds(orders)[j] != orderId;
      None
    case Some(i) => Some(orders[i])
  }

  /** The order at position k is the one found for its id when no earlier
      order shares that id. */
  lemma FindOrderAt(orders: seq<Order>, k: nat)
    requires k < |orders|
    requires forall j :: 0 <= j < k ==> orders[j].id != orders[k].id
    ensures FindOrder(orders, orders[k].id) == Some(orders[k])
  {
  }

  /** `bills.find(b => b.id === billId)`: the first bill with that id. */
  function FindBill(bills: seq<Bill>, billId: string): (r: Option<Bill>)
    ensures r.None? <==> billId !in BillIds(bills)
    ensures r.Some? ==> exists i :: 0 <= i < |bills| && bills[i] == r.value && r.value.id == billId
                                    && forall j :: 0 <= j < i ==> bills[j].id != billId
  {
    match FirstIndex(bills, (b: Bill) => b.id == billId)
    case None =>
      assert forall j :: 0 <= j < |bills| ==> BillIds(bills)[j] != billId;
      None
    case Some(i) => Some(bills[i])
  }

  /** A bill drawn from an order: the order's lines, their subtotal, 10% tax,
      and a total of subtotal plus tax; pending, with the given method or cash. */
  function MakeBill(id: string, order: Order, paymentMethod: Option<string>, now: Instant): Bill
  {
    var subtotal := Money.Subtotal(order.items);
    var tax := Money.Tax(subtotal);
    Bill(id, order.id, order.tableId, order.customerId, None, order.items, subtotal, tax, None,
         subtotal + tax, Some(if paymentMethod.Some? then paymentMethod.value else "cash"),
         PaymentPending, now)
  }

  /** Fails when no order has the id; otherwise appends a new pending bill for
      the first such order, numbered after the current bill count. It does not
      look for an earlier bill of the same order. */
  function GenerateBill(orders: seq<Order>, bills: seq<Bill>, orderId: string,
                        paymentMethod: Option<string>, now: Instant): (r: Result<(seq<Bill>, Bill), BillingError>)
    ensures r.Failure? <==> orderId !in OrderLifecycle.OrderIds(orders)
    ensures r.Success? ==> r.value.0 == bills + [r.value.1]
    ensures r.Success? ==>
      FindOrder(orders, orderId).Some? &&
      var o := FindOrder(orders, orderId).value;
      var b := r.value.1;
      b.tableId == o.tableId && b.customerId == o.customerId && b.items == o.items
    ensures r.Success? ==>
      var b := r.value.1;
      && b.id == Ids.NextId("bill", |bills|)
      && b.orderId == orderId
      && b.subtotal == Money.Subtotal(b.items)
      && b.tax == b.subtotal * 0.1
      && b.total == b.subtotal + b.tax
      && b.paymentStatus == PaymentPending
      && b.paymentMethod == Some(if paymentMethod.Some? then paymentMethod.value else "cash")
      && b.createdAt == now && b.discount.None? && b.waiterId.None?
  {
    match FindOrder(orders, orderId)
    case None => Failure(OrderNotFound)
    case Some(order) =>
      var b := MakeBill(Ids.NextId("bill", |bills|), order, paymentMethod, now);
      Success((bills + [b], b))
  }

  /** Sets the payment status of every bill whose id matches. */
  function SetPaymentStatus(bills: seq<Bill>, billId: string, status: PaymentStatus): (r: seq<Bill>)
    ensures |r| == |bills|
    ensures forall i :: 0 <= i < |r| && bills[i].id != billId ==> r[i] == bills[i]
    ensures forall i :: 0 <= i < |r| && bills[i].id == billId ==>
      r[i].paymentStatus == status && r[i] == bills[i].(paymentStatus := r[i].paymentStatus)
  {
    seq(|bills|, i requires 0 <= i < |bills| =>
      if bills[i].id == billId then bills[i].(paymentStatus := status) else bills[i])
  }

  /** An unknown bill id leaves the bill list unchanged. */
  lemma UnknownBillIsNoOp(bills: seq<Bill>, billId: string, status: PaymentStatus)
    requires billId !in BillIds(bills)
    ensures SetPaymentStatus(bills, billId, status) == bills
  {
    var r := SetPaymentStatus(bills, billId, status);
    forall i | 0 <= i < |bills|
      ensures r[i] == bills[i]
    {
      assert BillIds(bills)[i] == bills[i].id;
    }
  }

  /** Setting the payment status keeps every bill's id, order, table and amounts,
      so the bill found for an id is the same bill apart from its status. */
  lemma SetPaymentStatusKeepsFind(bills: seq<Bill>, billId: string, status: PaymentStatus, lookup: string)
    ensures var r := SetPaymentStatus(bills, billId, status);
            BillIds(r) == BillIds(bills) &&
            (FindBill(r, lookup).Some? ==>
              FindBill(r, lookup).value.orderId == FindBill(bills, lookup).value.orderId &&
              FindBill(r, lookup).value.tableId == FindBill(bills, lookup).value.tableId)
  {
    var r := SetPaymentStatus(bills, billId, status);
    assert BillIds(r) == BillIds(bills);
    if FindBill(r, lookup).Some? {
      var i :| 0 <= i < |r| && r[i] == FindBill(r, lookup).value && r[i].id == lookup
               && forall j :: 0 <= j < i ==> r[j].id != lookup;
      var k :| 0 <= k < |bills| && bills[k] == FindBill(bills, lookup).value && bills[k].id == lookup
               && forall j :: 0 <= j < k ==> bills[j].id != lookup;
      assert i == k;
    }
  }

  /** Generating twice for one order yields two bills with different ids and
      the same order id. */
  lemma GenerateTwiceTwoBills(orders: seq<Order>, bills: seq<Bill>, orderId: string,
                              m1: Option<string>, t1: Instant, m2: Option<string>, t2: Instant)
    requires orderId in OrderLifecycle.OrderIds(orders)
    ensures var r1 := GenerateBill(orders, bills, orderId, m1, t1);
            r1.Success? &&
            var r2 := GenerateBill(orders, r1.value.0, orderId, m2, t2);
            r2.Success? && r2.value.0 == bills + [r1.value.1, r2.value.1] &&
            r1.value.1.id != r2.value.1.id && r1.value.1.orderId == r2.value.1.orderId == orderId
  {
    var r1 := GenerateBill(orders, bills, orderId, m1, t1);
    assert r1.Success?;
    var r2 := GenerateBill(orders, r1.value.0, orderId, m2, t2);
    assert r2.Success?;
    assert |r1.value.0| == |bills| + 1;
    Ids.MakeIdInjective("bill", |bills| + 1, |bills| + 2);
    assert r1.value.1.id == Ids.MakeId("bill", |bills| + 1);
    assert r2.value.1.id == Ids.MakeId("bill", |bills| + 2);
  }

  /** Generating into a sequentially numbered bill list uses a fresh id and
      keeps the numbering sequential. */
  lemma GenerateBillFresh(orders: seq<Order>, bills: seq<Bill>, orderId: string,
                          paymentMethod: Option<string>, now: Instant)
    requires Ids.SequentialIds("bill", BillIds(bills))
    requires GenerateBill(orders, bills, orderId, paymentMethod, now).Success?
    ensures var r := GenerateBill(orders, bills, orderId, paymentMethod, now).value;
            r.1.id !in BillIds(bills) && Ids.SequentialIds("bill", BillIds(r.0))
  {
    var r := GenerateBill(orders, bills, orderId, paymentMethod, now).value;
    Ids.NextIdFresh("bill", BillIds(bills));
    assert BillIds(r.0) == BillIds(bills) + [r.1.id];
  }
}
