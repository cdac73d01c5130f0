/** The order lifecycle: `createOrder`, `updateOrderStatus` and
    `updateOrderItemStatus`. No transition table is enforced. */
module OrderLifecycle {
  import opened Wrappers
  import opened Domain
  import Ids
  import Money

  function OrderIds(orders: seq<Order>): (ids: seq<string>)
    ensures |ids| == |orders| && forall i :: 0 <= i < |orders| ==> ids[i] == orders[i].id
  {
    seq(|orders|, i requires 0 <= i < |orders| => orders[i].id)
  }

  /** The fields a caller supplies (everything but id and the two instants). */
  datatype OrderDraft = OrderDraft(
    tableId: string,
    customerId: Option<string>,
    waiterId: string,
    items: seq<OrderItem>,
    status: OrderStatus)

  /** Appends one order numbered after the current length, stamped with one
      instant for both creation and update. The table is not looked at. */
  function CreateOrder(orders: seq<Order>, draft: OrderDraft, now: Instant): (r: (seq<Order>, Order))
    ensures r.0 == orders + [r.1]
    ensures r.1.id == Ids.NextId("order", |orders|)
    ensures r.1.tableId == draft.tableId && r.1.customerId == draft.customerId
    ensures r.1.waiterId == draft.waiterId && r.1.items == draft.items && r.1.status == draft.status
    ensures r.1.createdAt == r.1.updatedAt == now
  {
    var o := Order(Ids.NextId("order", |orders|), draft.tableId, draft.customerId, draft.waiterId,
                   draft.items, draft.status, now, now);
    (orders + [o], o)
  }

  /** Sets status and update instant of every order whose id matches. Any
      status may follow any other. */
  function UpdateOrderStatus(orders: seq<Order>, orderId: string, status: OrderStatus, now: Instant): (r: seq<Order>)
    ensures |r| == |orders|
    ensures forall i :: 0 <= i < |r| && orders[i].id != orderId ==> r[i] == orders[i]
    ensures forall i :: 0 <= i < |r| && orders[i].id == orderId ==>
      r[i].status == status && r[i].updatedAt == now &&
      r[i] == orders[i].(status := r[i].status, updatedAt := r[i].updatedAt)
  {
    seq(|orders|, i requires 0 <= i < |orders| =>
      if orders[i].id == orderId then orders[i].(status := status, updatedAt := now) else orders[i])
  }

  /** Sets the kitchen status of every line whose id matches, building a new
      item sequence. */
  function SetItemStatus(items: seq<OrderItem>, orderItemId: string, status: ItemStatus): (r: seq<OrderItem>)
    ensures |r| == |items|
    ensures forall j :: 0 <= j < |r| && items[j].id != orderItemId ==> r[j] == items[j]
    ensures forall j :: 0 <= j < |r| && items[j].id == orderItemId ==>
      r[j].status == status && r[j] == items[j].(status := r[j].status)
  {
    seq(|items|, j requires 0 <= j < |items| =>
      if items[j].id == orderItemId then items[j].(status := status) else items[j])
  }

  /** Updates one line of every order whose id matches and refreshes that
      order's update instant, even when no line matches. */
  function UpdateOrderItemStatus(orders: seq<Order>, orderId: string, orderItemId: string,
                                 status: ItemStatus, now: Instant): (r: seq<Order>)
    ensures |r| == |orders|
    ensures forall i :: 0 <= i < |r| && orders[i].id != orderId ==> r[i] == orders[i]
    ensures forall i :: 0 <= i < |r| && orders[i].id == orderId ==>
      r[i].updatedAt == now && |r[i].items| == |orders[i].items| &&
      r[i] == orders[i].(items := r[i].items, updatedAt := r[i].updatedAt)
    ensures forall i, j :: 0 <= i < |r| && orders[i].id == orderId && 0 <= j < |orders[i].items| ==>
      if orders[i].items[j].id == orderItemId
      then r[i].items[j] == orders[i].items[j].(status := status)
      else r[i].items[j] == orders[i].items[j]
  {
    seq(|orders|, i requires 0 <= i < |orders| =>
      if orders[i].id == orderId
      then orders[i].(items := SetItemStatus(orders[i].items, orderItemId, status), updatedAt := now)
      else orders[i])
  }

  /** An unknown order id leaves the list unchanged for both update operations. */
  lemma UnknownOrderIsNoOp(orders: seq<Order>, orderId: string, orderItemId: string,
                           status: OrderStatus, itemStatus: ItemStatus, now: Instant)
    requires orderId !in OrderIds(orders)
    ensures UpdateOrderStatus(orders, orderId, status, now) == orders
    ensures UpdateOrderItemStatus(orders, orderId, orderItemId, itemStatus, now) == orders
  {
    var r1 := UpdateOrderStatus(orders, orderId, status, now);
    var r2 := UpdateOrderItemStatus(orders, orderId, orderItemId, itemStatus, now);
    forall i | 0 <= i < |orders|
      ensures r1[i] == orders[i] && r2[i] == orders[i]
    {
      assert OrderIds(orders)[i] == orders[i].id;
    }
  }

  /** When no line of the order matches, only the update instant changes. */
  lemma UnknownItemTouchesOnlyInstant(orders: seq<Order>, orderId: string, orderItemId: string,
                                      status: ItemStatus, now: Instant)
    requires forall i, j :: 0 <= i < |orders| && orders[i].id == orderId && 0 <= j < |orders[i].items|
               ==> orders[i].items[j].id != orderItemId
    ensures UpdateOrderItemStatus(orders, orderId, orderItemId, status, now)
         == seq(|orders|, i requires 0 <= i < |orders| =>
              if orders[i].id == orderId then orders[i].(updatedAt := now) else orders[i])
  {
    var r := UpdateOrderItemStatus(orders, orderId, orderItemId, status, now);
    forall i | 0 <= i < |orders| && orders[i].id == orderId
      ensures r[i].items == orders[i].items
    {
    }
  }

  /** Changing kitchen status never changes what an order costs. */
  lemma ItemStatusKeepsSubtotal(orders: seq<Order>, orderId: string, orderItemId: string,
                                status: ItemStatus, now: Instant)
    ensures var r := UpdateOrderItemStatus(orders, orderId, orderItemId, status, now);
            forall i :: 0 <= i < |orders| ==> Money.Subtotal(r[i].items) == Money.Subtotal(orders[i].items)
  {
    var r := UpdateOrderItemStatus(orders, orderId, orderItemId, status, now);
    forall i | 0 <= i < |orders|
      ensures Money.Subtotal(r[i].items) == Money.Subtotal(orders[i].items)
    {
      Money.SubtotalOnlyPriceQuantity(r[i].items, orders[i].items);
    }
  }

  /** The last status written to an order wins, whatever it was before. */
  lemma LastOrderStatusWins(orders: seq<Order>, orderId: string,
                            s1: OrderStatus, t1: Instant, s2: OrderStatus, t2: Instant)
    ensures UpdateOrderStatus(UpdateOrderStatus(orders, orderId, s1, t1), orderId, s2, t2)
         == UpdateOrderStatus(orders, orderId, s2, t2)
  {
  }

  /** Creating an order in a sequentially numbered list uses a fresh id and
      keeps the numbering sequential. */
  lemma CreateOrderFresh(orders: seq<Order>, draft: OrderDraft, now: Instant)
    requires Ids.SequentialIds("order", OrderIds(orders))
    ensures CreateOrder(orders, draft, now).1.id !in OrderIds(orders)
    ensures Ids.SequentialIds("order", OrderIds(CreateOrder(orders, draft, now).0))
  {
    var r := CreateOrder(orders, draft, now);
    Ids.NextIdFresh("order", OrderIds(orders));
    assert OrderIds(r.0) == OrderIds(orders) + [r.1.id];
  }
}
