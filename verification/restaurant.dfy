/** The restaurant state as one value and every provider operation as a step
    on it, composed as the wired provider composes them: paying a bill frees
    its table and completes its order. */
module Restaurant {
  import opened Wrappers
  import opened Domain
  import Ids
  import Money
  import TableRegistry
  import MenuRegistry
  import CustomerRegistry
  import OrderLifecycle
  import Billing

  datatype RestaurantState = RestaurantState(
    tables: seq<Table>,
    menuItems: seq<MenuItem>,
    customers: seq<Customer>,
    orders: seq<Order>,
    bills: seq<Bill>)

  /** `generateBill` on the whole state: only the bill list changes, and an
      unknown order is an error that leaves everything as it was. */
  function GenerateBill(st: RestaurantState, orderId: string, paymentMethod: Option<string>, now: Instant)
    : (r: Result<(RestaurantState, Bill), Billing.BillingError>)
    ensures r.Failure? <==> orderId !in OrderLifecycle.OrderIds(st.orders)
    ensures r.Success? ==> r.value.0 == st.(bills := st.bills + [r.value.1])
    ensures r.Success? ==> r.value.1.orderId == orderId && r.value.1.paymentStatus == PaymentPending
  {
    match Billing.GenerateBill(st.orders, st.bills, orderId, paymentMethod, now)
    case Failure(e) => Failure(e)
    case Success((bills, b)) => Success((st.(bills := bills), b))
  }

  /** `updateBillPaymentStatus`: sets the status of the matching bill; when the
      status is completed and the bill exists, its table becomes available with
      occupant and waiter cleared and its order becomes completed. */
  function UpdateBillPaymentStatus(st: RestaurantState, billId: string, status: PaymentStatus, now: Instant)
    : (r: RestaurantState)
    ensures r.bills == Billing.SetPaymentStatus(st.bills, billId, status)
    ensures r.menuItems == st.menuItems && r.customers == st.customers
    ensures status != PaymentCompleted || billId !in Billing.BillIds(st.bills) ==>
      r.tables == st.tables && r.orders == st.orders
    ensures status == PaymentCompleted && billId in Billing.BillIds(st.bills) ==>
      var b := Billing.FindBill(st.bills, billId).value;
      && r.tables == TableRegistry.UpdateTableStatus(st.tables, b.tableId, Available, None, None)
      && r.orders == OrderLifecycle.UpdateOrderStatus(st.orders, b.orderId, Completed, now)
  {
    var st1 := st.(bills := Billing.SetPaymentStatus(st.bills, billId, status));
    if status == PaymentCompleted then
      match Billing.FindBill(st.bills, billId)
      case None => st1
      case Some(b) =>
        st1.(tables := TableRegistry.UpdateTableStatus(st.tables, b.tableId, Available, None, None),
             orders := OrderLifecycle.UpdateOrderStatus(st.orders, b.orderId, Completed, now))
    else st1
  }

  /** After a completed payment the bill's table is available and empty, and
      its order is completed. */
  lemma PaymentCompletedCascade(st: RestaurantState, billId: string, now: Instant)
    requires billId in Billing.BillIds(st.bills)
    ensures var r := UpdateBillPaymentStatus(st, billId, PaymentCompleted, now);
            var b := Billing.FindBill(st.bills, billId).value;
            && (forall i :: 0 <= i < |r.bills| && r.bills[i].id == billId ==> r.bills[i].paymentStatus == PaymentCompleted)
            && (forall i :: 0 <= i < |r.tables| && r.tables[i].id == b.tableId ==>
                  r.tables[i].status == Available && r.tables[i].currentCustomerId.None? && r.tables[i].waiter.None?)
            && (forall i :: 0 <= i < |r.tables| && r.tables[i].id != b.tableId ==> r.tables[i] == st.tables[i])
            && (forall i :: 0 <= i < |r.orders| && r.orders[i].id == b.orderId ==>
                  r.orders[i].status == Completed && r.orders[i].updatedAt == now)
            && (forall i :: 0 <= i < |r.orders| && r.orders[i].id != b.orderId ==> r.orders[i] == st.orders[i])
  {
  }

  /** Paying a bill a second time lands in the same state as paying it once at
      the later instant: completion is idempotent up to the order's update
      instant. */
  lemma PayTwiceSameAsOnce(st: RestaurantState, billId: string, t1: Instant, t2: Instant)
    ensures UpdateBillPaymentStatus(UpdateBillPaymentStatus(st, billId, PaymentCompleted, t1), billId, PaymentCompleted, t2)
         == UpdateBillPaymentStatus(st, billId, PaymentCompleted, t2)
  {
    var st1 := UpdateBillPaymentStatus(st, billId, PaymentCompleted, t1);
    Billing.SetPaymentStatusKeepsFind(st.bills, billId, PaymentCompleted, billId);
    var once := Billing.SetPaymentStatus(st.bills, billId, PaymentCompleted);
    var twice := Billing.SetPaymentStatus(once, billId, PaymentCompleted);
    assert twice == once;
    if billId in Billing.BillIds(st.bills) {
      var b := Billing.FindBill(st.bills, billId).value;
      TableRegistry.UpdateTableIdempotent(st.tables, b.tableId, Available, None, None);
      OrderLifecycle.LastOrderStatusWins(st.orders, b.orderId, Completed, t1, Completed, t2);
    }
  }

  /** Every operation of the providers, with the caller-supplied instants.
      `AddMenuItem` exists only in the split menu provider, which the app
      does not mount; the other actions are in both providers. */
  datatype Action =
    | SetTableStatus(tableId: string, tableStatus: TableStatus, customerId: Option<string>, waiterId: Option<string>)
    | SetMenuAvailability(menuItemId: string, isAvailable: bool)
    | AddMenuItem(menuDraft: MenuRegistry.MenuItemDraft)
    | AddCustomer(customerDraft: CustomerRegistry.CustomerDraft)
    | CreateOrder(orderDraft: OrderLifecycle.OrderDraft, at: Instant)
    | SetOrderStatus(orderId: string, orderStatus: OrderStatus, at: Instant)
    | SetOrderItemStatus(orderId: string, orderItemId: string, itemStatus: ItemStatus, at: Instant)
    | GenerateBillFor(orderId: string, paymentMethod: Option<string>, at: Instant)
    | SetPaymentStatus(billId: string, paymentStatus: PaymentStatus, at: Instant)

  /** `b` starts with `a`: nothing was removed or renumbered, only appended. */
  predicate Extends<T(==)>(a: seq<T>, b: seq<T>)
  {
    |a| <= |b| && forall i :: 0 <= i < |a| ==> b[i] == a[i]
  }

  /** One atomic step. A bill request for an unknown order throws, which leaves
      the state as it was. No step removes a record or changes a record's id:
      the tables stay the same tables, customers are only appended, and each
      other collection only grows by its own creation step. */
  function Apply(st: RestaurantState, a: Action): (r: RestaurantState)
    ensures TableRegistry.TableIds(r.tables) == TableRegistry.TableIds(st.tables)
    ensures Extends(MenuRegistry.MenuIds(st.menuItems), MenuRegistry.MenuIds(r.menuItems))
    ensures Extends(OrderLifecycle.OrderIds(st.orders), OrderLifecycle.OrderIds(r.orders))
    ensures Extends(Billing.BillIds(st.bills), Billing.BillIds(r.bills))
    ensures Extends(st.customers, r.customers)
    ensures |r.menuItems| == |st.menuItems| + (if a.AddMenuItem? then 1 else 0)
    ensures |r.customers| == |st.customers| + (if a.AddCustomer? then 1 else 0)
    ensures |r.orders| == |st.orders| + (if a.CreateOrder? then 1 else 0)
    ensures |r.bills| == |st.bills|
      + (if a.GenerateBillFor? && a.orderId in OrderLifecycle.OrderIds(st.orders) then 1 else 0)
    ensures !a.SetTableStatus? && !a.SetPaymentStatus? ==> r.tables == st.tables
    ensures !a.SetMenuAvailability? && !a.AddMenuItem? ==> r.menuItems == st.menuItems
    ensures !a.CreateOrder? && !a.SetOrderStatus? && !a.SetOrderItemStatus? && !a.SetPaymentStatus? ==>
      r.orders == st.orders
    ensures !a.GenerateBillFor? && !a.SetPaymentStatus? ==> r.bills == st.bills
  {
    match a
    case SetTableStatus(id, s, c, w) =>
      st.(tables := TableRegistry.UpdateTableStatus(st.tables, id, s, c, w))
    case SetMenuAvailability(id, v) =>
      st.(menuItems := MenuRegistry.UpdateMenuItemAvailability(st.menuItems, id, v))
    case AddMenuItem(d) =>
      st.(menuItems := MenuRegistry.AddMenuItem(st.menuItems, d).0)
    case AddCustomer(d) =>
      st.(customers := CustomerRegistry.AddCustomer(st.customers, d).0)
    case CreateOrder(d, t) =>
      st.(orders := OrderLifecycle.CreateOrder(st.orders, d, t).0)
    case SetOrderStatus(id, s, t) =>
      st.(orders := OrderLifecycle.UpdateOrderStatus(st.orders, id, s, t))
    case SetOrderItemStatus(id, itemId, s, t) =>
      st.(orders := OrderLifecycle.UpdateOrderItemStatus(st.orders, id, itemId, s, t))
    case GenerateBillFor(id, m, t) =>
      (match GenerateBill(st, id, m, t)
       case Failure(_) => st
       case Success((st1, _)) => st1)
    case SetPaymentStatus(id, s, t) =>
      UpdateBillPaymentStatus(st, id, s, t)
  }

  /** Every stored bill obeys the bill arithmetic: the subtotal is the sum of
      its lines and the total is subtotal plus tax. */
  predicate BillsBalanced(bills: seq<Bill>)
  {
    forall i :: 0 <= i < |bills| ==>
      bills[i].subtotal == Money.Subtotal(bills[i].items) && bills[i].total == bills[i].subtotal + bills[i].tax
  }

  /** The bill points at an existing order with the same table and customer. */
  predicate RefersToOrder(orders: seq<Order>, b: Bill)
  {
    exists j :: 0 <= j < |orders| && orders[j].id == b.orderId
                && orders[j].tableId == b.tableId && orders[j].customerId == b.customerId
  }

  predicate BillsReferToOrders(orders: seq<Order>, bills: seq<Bill>)
  {
    forall i :: 0 <= i < |bills| ==> RefersToOrder(orders, bills[i])
  }

  /** Ids numbered in list order in every collection, balanced bills, and bills
      tied to their orders. */
  predicate WellFormed(st: RestaurantState)
  {
    && Ids.SequentialIds("table", TableRegistry.TableIds(st.tables))
    && Ids.SequentialIds("item", MenuRegistry.MenuIds(st.menuItems))
    && Ids.SequentialIds("cust", CustomerRegistry.CustomerIds(st.customers))
    && Ids.SequentialIds("order", OrderLifecycle.OrderIds(st.orders))
    && Ids.SequentialIds("bill", Billing.BillIds(st.bills))
    && BillsBalanced(st.bills)
    && BillsReferToOrders(st.orders, st.bills)
  }

  /** Order updates keep every order's id, table and customer in place. */
  lemma OrderUpdatesKeepReferences(orders: seq<Order>, orders': seq<Order>, bills: seq<Bill>)
    requires |orders'| == |orders|
    requires forall j :: 0 <= j < |orders| ==>
      orders'[j].id == orders[j].id && orders'[j].tableId == orders[j].tableId
      && orders'[j].customerId == orders[j].customerId
    requires BillsReferToOrders(orders, bills)
    ensures BillsReferToOrders(orders', bills)
  {
    forall i | 0 <= i < |bills|
      ensures RefersToOrder(orders', bills[i])
    {
      assert RefersToOrder(orders, bills[i]);
      var j :| 0 <= j < |orders| && orders[j].id == bills[i].orderId
        && orders[j].tableId == bills[i].tableId && orders[j].customerId == bills[i].customerId;
      assert orders'[j].id == bills[i].orderId;
    }
  }

  lemma CreateOrderKeepsWellFormed(st: RestaurantState, d: OrderLifecycle.OrderDraft, t: Instant)
    requires WellFormed(st)
    ensures WellFormed(Apply(st, CreateOrder(d, t)))
  {
    var (orders', o) := OrderLifecycle.CreateOrder(st.orders, d, t);
    OrderLifecycle.CreateOrderFresh(st.orders, d, t);
    AppendOrderKeepsReferences(st.orders, o, st.bills);
    WithOrdersWellFormed(st, orders');
  }

  /** Appending an order keeps every bill tied to its order. */
  lemma AppendOrderKeepsReferences(orders: seq<Order>, o: Order, bills: seq<Bill>)
    requires BillsReferToOrders(orders, bills)
    ensures BillsReferToOrders(orders + [o], bills)
  {
    var orders' := orders + [o];
    forall i | 0 <= i < |bills|
      ensures RefersToOrder(orders', bills[i])
    {
      assert RefersToOrder(orders, bills[i]);
      var j :| 0 <= j < |orders| && orders[j].id == bills[i].orderId
        && orders[j].tableId == bills[i].tableId && orders[j].customerId == bills[i].customerId;
      assert orders'[j] == orders[j];
    }
  }

  /** Replacing the order list by a sequentially numbered one that every bill
      still refers to keeps the state well formed. */
  lemma WithOrdersWellFormed(st: RestaurantState, orders': seq<Order>)
    requires WellFormed(st)
    requires Ids.SequentialIds("order", OrderLifecycle.OrderIds(orders'))
    requires BillsReferToOrders(orders', st.bills)
    ensures WellFormed(st.(orders := orders'))
  {
  }

  lemma OrderUpdateKeepsWellFormed(st: RestaurantState, a: Action)
    requires WellFormed(st)
    requires a.SetOrderStatus? || a.SetOrderItemStatus?
    ensures WellFormed(Apply(st, a))
  {
    var r := Apply(st, a);
    assert OrderLifecycle.OrderIds(r.orders) == OrderLifecycle.OrderIds(st.orders);
    OrderUpdatesKeepReferences(st.orders, r.orders, st.bills);
  }

  lemma GenerateBillKeepsWellFormed(st: RestaurantState, id: string, m: Option<string>, t: Instant)
    requires WellFormed(st)
    ensures WellFormed(Apply(st, GenerateBillFor(id, m, t)))
  {
    var g := GenerateBill(st, id, m, t);
    if g.Success? {
      var b := g.value.1;
      var bills' := st.bills + [b];
      assert g.value.0 == st.(bills := bills');
      NewBillKeepsBills(st.orders, st.bills, id, m, t);
      WithBillsWellFormed(st, bills');
    }
  }

  /** A generated bill extends the bill list without breaking its invariants. */
  lemma NewBillKeepsBills(orders: seq<Order>, bills: seq<Bill>, id: string, m: Option<string>, t: Instant)
    requires Ids.SequentialIds("bill", Billing.BillIds(bills))
    requires BillsBalanced(bills) && BillsReferToOrders(orders, bills)
    requires Billing.GenerateBill(orders, bills, id, m, t).Success?
    ensures var bills' := Billing.GenerateBill(orders, bills, id, m, t).value.0;
            Ids.SequentialIds("bill", Billing.BillIds(bills')) && BillsBalanced(bills')
            && BillsReferToOrders(orders, bills')
  {
    Billing.GenerateBillFresh(orders, bills, id, m, t);
    var b := Billing.GenerateBill(orders, bills, id, m, t).value.1;
    assert RefersToOrder(orders, b);
    AppendBillKeepsBills(orders, bills, b);
  }

  /** Replacing the bill list by one that keeps the bill invariants keeps the
      state well formed. */
  lemma WithBillsWellFormed(st: RestaurantState, bills': seq<Bill>)
    requires WellFormed(st)
    requires Ids.SequentialIds("bill", Billing.BillIds(bills')) && BillsBalanced(bills')
    requires BillsReferToOrders(st.orders, bills')
    ensures WellFormed(st.(bills := bills'))
  {
  }

  /** Appending a balanced bill that refers to an order keeps the bill list
      balanced and tied to the orders. */
  lemma AppendBillKeepsBills(orders: seq<Order>, bills: seq<Bill>, b: Bill)
    requires BillsBalanced(bills) && BillsReferToOrders(orders, bills)
    requires b.subtotal == Money.Subtotal(b.items) && b.total == b.subtotal + b.tax
    requires RefersToOrder(orders, b)
    ensures BillsBalanced(bills + [b]) && BillsReferToOrders(orders, bills + [b])
  {
    var r := bills + [b];
    forall i | 0 <= i < |r|
      ensures RefersToOrder(orders, r[i])
      ensures r[i].subtotal == Money.Subtotal(r[i].items) && r[i].total == r[i].subtotal + r[i].tax
    {
      if i < |bills| {
        assert r[i] == bills[i];
      }
    }
  }

  /** Setting a payment status keeps every bill's identity, references and amounts. */
  lemma SetPaymentStatusKeepsBills(orders: seq<Order>, bills: seq<Bill>, id: string, s: PaymentStatus)
    requires Ids.SequentialIds("bill", Billing.BillIds(bills))
    requires BillsBalanced(bills) && BillsReferToOrders(orders, bills)
    ensures var bills' := Billing.SetPaymentStatus(bills, id, s);
            Ids.SequentialIds("bill", Billing.BillIds(bills')) && BillsBalanced(bills')
            && BillsReferToOrders(orders, bills')
  {
    var bills' := Billing.SetPaymentStatus(bills, id, s);
    assert Billing.BillIds(bills') == Billing.BillIds(bills);
    forall i | 0 <= i < |bills'|
      ensures RefersToOrder(orders, bills'[i])
    {
      assert RefersToOrder(orders, bills[i]);
    }
  }

  /** Completing an order keeps every order's id and every bill's reference. */
  lemma CompleteOrderKeepsReferences(orders: seq<Order>, bills: seq<Bill>, orderId: string, t: Instant)
    requires BillsReferToOrders(orders, bills)
    ensures var orders' := OrderLifecycle.UpdateOrderStatus(orders, orderId, Completed, t);
            OrderLifecycle.OrderIds(orders') == OrderLifecycle.OrderIds(orders)
            && BillsReferToOrders(orders', bills)
  {
    var orders' := OrderLifecycle.UpdateOrderStatus(orders, orderId, Completed, t);
    forall j | 0 <= j < |orders|
      ensures orders'[j].id == orders[j].id && orders'[j].tableId == orders[j].tableId
           && orders'[j].customerId == orders[j].customerId
    {
      if orders[j].id == orderId {
        assert orders'[j] == orders[j].(status := Completed, updatedAt := t);
      }
    }
    OrderUpdatesKeepReferences(orders, orders', bills);
  }

  lemma PaymentCascadeKeepsWellFormed(st: RestaurantState, id: string, s: PaymentStatus, t: Instant)
    requires WellFormed(st)
    ensures WellFormed(UpdateBillPaymentStatus(st, id, s, t))
  {
    var bills' := Billing.SetPaymentStatus(st.bills, id, s);
    SetPaymentStatusKeepsBills(st.orders, st.bills, id, s);
    if s == PaymentCompleted && id in Billing.BillIds(st.bills) {
      var b := Billing.FindBill(st.bills, id).value;
      var tables' := TableRegistry.UpdateTableStatus(st.tables, b.tableId, Available, None, None);
      var orders' := OrderLifecycle.UpdateOrderStatus(st.orders, b.orderId, Completed, t);
      assert TableRegistry.TableIds(tables') == TableRegistry.TableIds(st.tables);
      CompleteOrderKeepsReferences(st.orders, bills', b.orderId, t);
      assert UpdateBillPaymentStatus(st, id, s, t) == RestaurantState(tables', st.menuItems, st.customers, orders', bills');
    } else {
      assert UpdateBillPaymentStatus(st, id, s, t) == st.(bills := bills');
    }
  }

  lemma PaymentKeepsWellFormed(st: RestaurantState, id: string, s: PaymentStatus, t: Instant)
    requires WellFormed(st)
    ensures WellFormed(Apply(st, SetPaymentStatus(id, s, t)))
  {
    PaymentCascadeKeepsWellFormed(st, id, s, t);
    assert Apply(st, SetPaymentStatus(id, s, t)) == UpdateBillPaymentStatus(st, id, s, t);
  }

  /** Every step keeps the state well formed: ids stay sequential, hence
      unique and the next one fresh, and bills stay balanced and tied to
      existing orders. */
  lemma ApplyPreservesWellFormed(st: RestaurantState, a: Action)
    requires WellFormed(st)
    ensures WellFormed(Apply(st, a))
  {
    var r := Apply(st, a);
    match a
    case SetTableStatus(id, s, c, w) =>
      assert TableRegistry.TableIds(r.tables) == TableRegistry.TableIds(st.tables);
    case SetMenuAvailability(id, v) =>
      assert MenuRegistry.MenuIds(r.menuItems) == MenuRegistry.MenuIds(st.menuItems);
    case AddMenuItem(d) =>
      MenuRegistry.AddMenuItemFresh(st.menuItems, d);
    case AddCustomer(d) =>
      CustomerRegistry.AddCustomerFresh(st.customers, d);
    case CreateOrder(d, t) =>
      CreateOrderKeepsWellFormed(st, d, t);
    case SetOrderStatus(_, _, _) =>
      OrderUpdateKeepsWellFormed(st, a);
    case SetOrderItemStatus(_, _, _, _) =>
      OrderUpdateKeepsWellFormed(st, a);
    case GenerateBillFor(id, m, t) =>
      GenerateBillKeepsWellFormed(st, id, m, t);
    case SetPaymentStatus(id, s, t) =>
      PaymentKeepsWellFormed(st, id, s, t);
  }

  /** A run of steps, each on the state the previous one left. Over any run
      the tables stay the same tables and every other record survives with
      its id, customers unchanged. */
  function Run(st: RestaurantState, actions: seq<Action>): (r: RestaurantState)
    ensures TableRegistry.TableIds(r.tables) == TableRegistry.TableIds(st.tables)
    ensures Extends(MenuRegistry.MenuIds(st.menuItems), MenuRegistry.MenuIds(r.menuItems))
    ensures Extends(OrderLifecycle.OrderIds(st.orders), OrderLifecycle.OrderIds(r.orders))
    ensures Extends(Billing.BillIds(st.bills), Billing.BillIds(r.bills))
    ensures Extends(st.customers, r.customers)
    decreases |actions|
  {
    if |actions| == 0 then st
    else Run(Apply(st, actions[0]), actions[1..])
  }

  /** Well-formedness survives any finite run of steps. */

  lemma {:induction false} RunPreservesWellFormed(st: RestaurantState, actions: seq<Action>)
    requires WellFormed(st)
    ensures WellFormed(Run(st, actions))
    decreases |actions|
  {
    if |actions| > 0 {
      ApplyPreservesWellFormed(st, actions[0]);
      RunPreservesWellFormed(Apply(st, actions[0]), actions[1..]);
    }
  }

  /** In a well-formed state every record id is unique. */
  lemma WellFormedIdsUnique(st: RestaurantState)
    requires WellFormed(st)
    ensures forall i, j :: 0 <= i < j < |st.customers| ==> st.customers[i].id != st.customers[j].id
    ensures forall i, j :: 0 <= i < j < |st.orders| ==> st.orders[i].id != st.orders[j].id
    ensures forall i, j :: 0 <= i < j < |st.bills| ==> st.bills[i].id != st.bills[j].id
    ensures forall i, j :: 0 <= i < j < |st.menuItems| ==> st.menuItems[i].id != st.menuItems[j].id
    ensures forall i, j :: 0 <= i < j < |st.tables| ==> st.tables[i].id != st.tables[j].id
  {
    Ids.SequentialIdsDistinct("cust", CustomerRegistry.CustomerIds(st.customers));
    Ids.SequentialIdsDistinct("order", OrderLifecycle.OrderIds(st.orders));
    Ids.SequentialIdsDistinct("bill", Billing.BillIds(st.bills));
    Ids.SequentialIdsDistinct("item", MenuRegistry.MenuIds(st.menuItems));
    Ids.SequentialIdsDistinct("table", TableRegistry.TableIds(st.tables));
  }

  /** A generated bill is a snapshot: a later kitchen-status change builds new
      order lines, leaves the bill list alone, and the order still costs what
      the bill says. */
  lemma BillSnapshotSurvivesItemUpdate(st: RestaurantState, orderId: string, m: Option<string>, t: Instant,
                                       orderItemId: string, s: ItemStatus, t2: Instant)
    requires GenerateBill(st, orderId, m, t).Success?
    ensures var (st1, b) := GenerateBill(st, orderId, m, t).value;
            var st2 := Apply(st1, SetOrderItemStatus(orderId, orderItemId, s, t2));
            && st2.bills == st1.bills
            && st2.bills[|st2.bills| - 1] == b
            && forall i :: 0 <= i < |st2.orders| && st2.orders[i].id == orderId ==>
                 Money.Subtotal(st2.orders[i].items) == Money.Subtotal(st.orders[i].items)
  {
    var (st1, b) := GenerateBill(st, orderId, m, t).value;
    var orders2 := OrderLifecycle.UpdateOrderItemStatus(st1.orders, orderId, orderItemId, s, t2);
    assert st1.orders == st.orders;
    assert Apply(st1, SetOrderItemStatus(orderId, orderItemId, s, t2)) == st1.(orders := orders2);
    OrderLifecycle.ItemStatusKeepsSubtotal(st1.orders, orderId, orderItemId, s, t2);
  }
}
