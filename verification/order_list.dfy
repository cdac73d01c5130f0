/** What the order list offers: one kitchen step per line while the order is
    active, a bill button for active orders, and the order's running total. */
module OrderListView {
  import opened Wrappers
  import opened Domain
  import Money
  import OrderLifecycle
  import Billing
  import Restaurant

  /** Position of a line status in the kitchen flow; cancelled sits past the end. */
  function Rank(s: ItemStatus): nat
  {
    match s
    case Pending => 0
    case Preparing => 1
    case Ready => 2
    case Served => 3
    case ItemCancelled => 4
  }

  /** The single item button shown for a line: pending to preparing,
      preparing to ready, ready to served, and only while the order is active. */
  function OfferedItemAction(order: Order, item: OrderItem): (r: Option<ItemStatus>)
    ensures r.None? <==> order.status != Active || item.status == Served || item.status == ItemCancelled
    ensures r.Some? ==> Rank(r.value) == Rank(item.status) + 1 && r.value != ItemCancelled
  {
    if order.status != Active then None
    else
      match item.status
      case Pending => Some(Preparing)
      case Preparing => Some(Ready)
      case Ready => Some(Served)
      case Served => None
      case ItemCancelled => None
  }

  /** Pressing the button on line `m` of order `k`. With nothing offered the
      order list is unchanged. */
  function ClickItemAction(orders: seq<Order>, k: nat, m: nat, now: Instant): (r: seq<Order>)
    requires k < |orders| && m < |orders[k].items|
    ensures OfferedItemAction(orders[k], orders[k].items[m]).None? ==> r == orders
    ensures |r| == |orders|
  {
    match OfferedItemAction(orders[k], orders[k].items[m])
    case None => orders
    case Some(next) => OrderLifecycle.UpdateOrderItemStatus(orders, orders[k].id, orders[k].items[m].id, next, now)
  }

  predicate UniqueOrderIds(orders: seq<Order>)
  {
    forall i, j :: 0 <= i < j < |orders| ==> orders[i].id != orders[j].id
  }

  predicate UniqueLineIds(items: seq<OrderItem>)
  {
    forall i, j :: 0 <= i < j < |items| ==> items[i].id != items[j].id
  }

  /** No line of any order moves back in the kitchen flow. */
  predicate NoLineRegresses(orders: seq<Order>, orders': seq<Order>)
  {
    && |orders'| == |orders|
    && forall i :: 0 <= i < |orders| ==>
         |orders'[i].items| == |orders[i].items| &&
         forall j :: 0 <= j < |orders[i].items| ==> Rank(orders[i].items[j].status) <= Rank(orders'[i].items[j].status)
  }

  /** With unique order ids and unique line ids in the clicked order, a click
      moves exactly the clicked line one step forward and nothing backward. */
  lemma ClickAdvancesOneLine(orders: seq<Order>, k: nat, m: nat, now: Instant)
    requires k < |orders| && m < |orders[k].items|
    requires UniqueOrderIds(orders) && UniqueLineIds(orders[k].items)
    requires OfferedItemAction(orders[k], orders[k].items[m]).Some?
    ensures var r := ClickItemAction(orders, k, m, now);
            && Rank(r[k].items[m].status) == Rank(orders[k].items[m].status) + 1
            && (forall j :: 0 <= j < |orders[k].items| && j != m ==> r[k].items[j] == orders[k].items[j])
            && (forall i :: 0 <= i < |orders| && i != k ==> r[i] == orders[i])
            && NoLineRegresses(orders, r)
  {
    var r := ClickItemAction(orders, k, m, now);
    forall i | 0 <= i < |orders| && i != k
      ensures r[i] == orders[i]
    {
      assert orders[i].id != orders[k].id;
    }
    forall j | 0 <= j < |orders[k].items| && j != m
      ensures r[k].items[j] == orders[k].items[j]
    {
      assert orders[k].items[j].id != orders[k].items[m].id;
    }
  }

  /** "Generate Bill" is shown exactly for active orders. */
  function CanGenerateBill(order: Order): bool
  {
    order.status == Active
  }

  /** Generating a bill does not touch the orders, so the button stays: the
      list lets the same order be billed again. */
  lemma BillButtonSurvivesBilling(orders: seq<Order>, bills: seq<Bill>, k: nat, m: Option<string>, now: Instant)
    requires k < |orders| && CanGenerateBill(orders[k])
    ensures Billing.GenerateBill(orders, bills, orders[k].id, m, now).Success?
    ensures var (bills', b) := Billing.GenerateBill(orders, bills, orders[k].id, m, now).value;
            CanGenerateBill(orders[k]) &&
            Billing.GenerateBill(orders, bills', orders[k].id, m, now).Success?
  {
    assert OrderLifecycle.OrderIds(orders)[k] == orders[k].id;
  }

  /** Completing the payment of a bill completes its order, so the order no
      longer offers a bill or any kitchen step; setting any order to a
      non-active status does the same. */
  lemma PaymentHidesOrderButtons(st: Restaurant.RestaurantState, billId: string, now: Instant)
    requires billId in Billing.BillIds(st.bills)
    ensures var r := Restaurant.UpdateBillPaymentStatus(st, billId, PaymentCompleted, now);
            var b := Billing.FindBill(st.bills, billId).value;
            forall i :: 0 <= i < |r.orders| && r.orders[i].id == b.orderId ==>
              !CanGenerateBill(r.orders[i]) &&
              forall m :: 0 <= m < |r.orders[i].items| ==> OfferedItemAction(r.orders[i], r.orders[i].items[m]).None?
  {
  }

  /** The total shown under an order: the running sum of price times quantity. */
  function DisplayedTotal(order: Order): real
  {
    Money.Subtotal(order.items)
  }

  /** The total the list shows is the subtotal the bill for that order will
      carry, when order ids are unique. */
  lemma DisplayedTotalIsBillSubtotal(orders: seq<Order>, bills: seq<Bill>, k: nat, m: Option<string>, now: Instant)
    requires k < |orders| && UniqueOrderIds(orders)
    ensures var g := Billing.GenerateBill(orders, bills, orders[k].id, m, now);
            g.Success? && g.value.1.subtotal == DisplayedTotal(orders[k])
            && g.value.1.total == DisplayedTotal(orders[k]) + Money.Tax(DisplayedTotal(orders[k]))
  {
    Billing.FindOrderAt(orders, k);
  }
}
