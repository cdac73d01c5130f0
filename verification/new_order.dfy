/** The new-order page: the cart, its totals, the customer shortcut, and
    placing the order (create it, then mark the table occupied). */
module NewOrderPage {
  import opened Wrappers
  import opened Domain
  import Ids
  import Money
  import Billing
  import Restaurant
  import TableRegistry
  import OrderLifecycle
  import CustomerRegistry

  type Cart = seq<OrderItem>

  predicate HasLine(cart: Cart, menuItemId: string)
  {
    exists i :: 0 <= i < |cart| && cart[i].menuItemId == menuItemId
  }

  /** Every line has quantity at least one, and no menu item has two lines. */
  predicate CartValid(cart: Cart)
  {
    && (forall i :: 0 <= i < |cart| ==> cart[i].quantity >= 1)
    && (forall i, j :: 0 <= i < j < |cart| ==> cart[i].menuItemId != cart[j].menuItemId)
  }

  /** A fresh cart line for a menu item: quantity one, pending, with the item's
      current name and price as a snapshot. */
  function NewLine(item: MenuItem, tempId: string): OrderItem
  {
    OrderItem(tempId, item.id, item.name, item.price, 1, Pending, None)
  }

  /** `handleAddToCart`: a menu item already in the cart gets one more on its
      line (keeping the line's name and price); otherwise a new line is
      appended. `tempId` stands for `temp-${Date.now()}`. */
  function AddToCart(cart: Cart, item: MenuItem, tempId: string): (r: Cart)
    ensures HasLine(cart, item.id) ==> |r| == |cart|
    ensures !HasLine(cart, item.id) ==> |r| == |cart| + 1 && r[|cart|] == NewLine(item, tempId)
    ensures forall i :: 0 <= i < |cart| ==>
      r[i] == cart[i].(quantity := r[i].quantity) &&
      r[i].quantity == cart[i].quantity + (if cart[i].menuItemId == item.id then 1 else 0)
  {
    if HasLine(cart, item.id) then
      seq(|cart|, i requires 0 <= i < |cart| =>
        if cart[i].menuItemId == item.id then cart[i].(quantity := cart[i].quantity + 1) else cart[i])
    else cart + [NewLine(item, tempId)]
  }

  /** `handleRemoveFromCart`: drops the lines with that id, keeping the rest in order. */
  function RemoveFromCart(cart: Cart, itemId: string): (r: Cart)
    ensures |r| <= |cart|
    ensures forall i :: 0 <= i < |r| ==> r[i].id != itemId && r[i] in cart
  {
    if |cart| == 0 then []
    else if cart[|cart| - 1].id == itemId then RemoveFromCart(cart[..|cart| - 1], itemId)
    else RemoveFromCart(cart[..|cart| - 1], itemId) + [cart[|cart| - 1]]
  }

  /** `handleUpdateQuantity`: quantities below one are ignored. */
  function UpdateQuantity(cart: Cart, itemId: string, newQuantity: int): (r: Cart)
    ensures newQuantity < 1 ==> r == cart
    ensures |r| == |cart|
    ensures forall i :: 0 <= i < |r| ==>
      r[i] == cart[i].(quantity := r[i].quantity) &&
      r[i].quantity == (if cart[i].id == itemId && newQuantity >= 1 then newQuantity else cart[i].quantity)
  {
    if newQuantity < 1 then cart
    else
      seq(|cart|, i requires 0 <= i < |cart| =>
        if cart[i].id == itemId then cart[i].(quantity := newQuantity) else cart[i])
  }

  /** Adding keeps the cart valid: at most one line per menu item, all
      quantities positive. */
  lemma AddToCartKeepsValid(cart: Cart, item: MenuItem, tempId: string)
    requires CartValid(cart)
    ensures CartValid(AddToCart(cart, item, tempId))
  {
  }

  /** Removing keeps the cart valid. */
  lemma {:induction false} RemoveFromCartKeepsValid(cart: Cart, itemId: string)
    requires CartValid(cart)
    ensures CartValid(RemoveFromCart(cart, itemId))
  {
    if |cart| > 0 {
      var init := cart[..|cart| - 1];
      var last := cart[|cart| - 1];
      assert CartValid(init);
      RemoveFromCartKeepsValid(init, itemId);
      if last.id != itemId {
        var kept := RemoveFromCart(init, itemId);
        forall i | 0 <= i < |kept|
          ensures kept[i].menuItemId != last.menuItemId
        {
          var j :| 0 <= j < |init| && init[j] == kept[i];
        }
      }
    }
  }

  /** Every line with another id stays in the cart. */
  lemma {:induction false} RemoveFromCartKeepsOthers(cart: Cart, itemId: string, x: OrderItem)
    requires x in cart && x.id != itemId
    ensures x in RemoveFromCart(cart, itemId)
  {
    var last := cart[|cart| - 1];
    if x != last {
      assert x in cart[..|cart| - 1];
      RemoveFromCartKeepsOthers(cart[..|cart| - 1], itemId, x);
    }
  }

  /** Removing from a concatenation removes from each part: the lines that
      stay keep their relative order. */
  lemma {:induction false} RemoveFromCartAppend(a: Cart, b: Cart, itemId: string)
    ensures RemoveFromCart(a + b, itemId) == RemoveFromCart(a, itemId) + RemoveFromCart(b, itemId)
  {
    if |b| == 0 {
      assert a + b == a;
    } else {
      var ab := a + b;
      assert ab[..|ab| - 1] == a + b[..|b| - 1];
      RemoveFromCartAppend(a, b[..|b| - 1], itemId);
    }
  }

  /** A single line is dropped exactly when it carries the id. */
  lemma RemoveFromCartSingle(x: OrderItem, itemId: string)
    ensures RemoveFromCart([x], itemId) == if x.id == itemId then [] else [x]
  {
    assert [x][..0] == [];
  }

  /** Updating a quantity keeps the cart valid. */
  lemma UpdateQuantityKeepsValid(cart: Cart, itemId: string, newQuantity: int)
    requires CartValid(cart)
    ensures CartValid(UpdateQuantity(cart, itemId, newQuantity))
  {
  }

  /** Raising one line's quantity by one adds that line's price to the subtotal. */
  lemma SubtotalIncrement(cart: Cart, k: nat)
    requires k < |cart|
    ensures Money.Subtotal(cart[k := cart[k].(quantity := cart[k].quantity + 1)])
         == Money.Subtotal(cart) + cart[k].price
  {
    var c2 := cart[k := cart[k].(quantity := cart[k].quantity + 1)];
    var before, after := cart[..k], cart[k + 1..];
    assert cart == before + [cart[k]] + after;
    assert c2 == before + [c2[k]] + after;
    Money.SubtotalSplit(before, cart[k], after);
    Money.SubtotalSplit(before, c2[k], after);
    Money.LineAmountIncrement(cart[k]);
  }

  /** Adding an item that already has line k raises exactly that line's quantity. */
  lemma AddToExistingLine(cart: Cart, item: MenuItem, tempId: string, k: nat)
    requires CartValid(cart) && k < |cart| && cart[k].menuItemId == item.id
    ensures Money.Subtotal(AddToCart(cart, item, tempId)) == Money.Subtotal(cart) + cart[k].price
  {
    var r := AddToCart(cart, item, tempId);
    var c2 := cart[k := cart[k].(quantity := cart[k].quantity + 1)];
    forall i | 0 <= i < |r|
      ensures r[i] == c2[i]
    {
      if i < k {
        assert cart[i].menuItemId != cart[k].menuItemId;
      } else if k < i {
        assert cart[k].menuItemId != cart[i].menuItemId;
      }
    }
    assert r == c2;
    SubtotalIncrement(cart, k);
  }

  /** In a valid cart, adding a menu item raises the subtotal by the price on
      its existing line, or by the menu price when it gets a new line. */
  lemma AddToCartSubtotal(cart: Cart, item: MenuItem, tempId: string)
    requires CartValid(cart)
    ensures HasLine(cart, item.id) ==>
      exists k :: 0 <= k < |cart| && cart[k].menuItemId == item.id &&
        Money.Subtotal(AddToCart(cart, item, tempId)) == Money.Subtotal(cart) + cart[k].price
    ensures !HasLine(cart, item.id) ==>
      Money.Subtotal(AddToCart(cart, item, tempId)) == Money.Subtotal(cart) + item.price
  {
    if HasLine(cart, item.id) {
      var k :| 0 <= k < |cart| && cart[k].menuItemId == item.id;
      AddToExistingLine(cart, item, tempId, k);
    } else {
      var l := NewLine(item, tempId);
      assert AddToCart(cart, item, tempId) == cart + [l];
      Money.SubtotalSnoc(cart, l);
      assert Money.LineAmount(l) == item.price;
    }
  }

  /** The page's form state. Empty strings stand for "nothing selected". */
  datatype PageState = PageState(
    selectedTableId: string,
    selectedCustomerId: string,
    customerName: string,
    customerPhone: string,
    cart: Cart)

  /** The page opens with the table from the URL, if any, and everything else empty. */
  function OpenPage(tableIdParam: Option<string>): PageState
  {
    PageState(if tableIdParam.Some? then tableIdParam.value else "", "", "", "", [])
  }

  /** Choosing a different table empties the cart and the customer fields;
      re-choosing the same table changes nothing. */
  function ChangeTable(page: PageState, tableId: string): PageState
  {
    if tableId == page.selectedTableId then page else PageState(tableId, "", "", "", [])
  }

  /** The subtotal, tax and total the summary shows for the cart. */
  function CartTotals(cart: Cart): (real, real, real)
  {
    var s := Money.Subtotal(cart);
    (s, Money.Tax(s), Money.Total(s))
  }

  /** A bill for an order whose id no earlier order has charges that order's lines. */
  lemma BillForNewestOrder(orders: seq<Order>, o: Order, bills: seq<Bill>, m: Option<string>, t: Instant)
    requires o.id !in OrderLifecycle.OrderIds(orders)
    ensures var g := Billing.GenerateBill(orders + [o], bills, o.id, m, t);
            g.Success? && g.value.1.items == o.items
  {
    var all := orders + [o];
    forall j | 0 <= j < |orders|
      ensures all[j].id != o.id
    {
      assert OrderLifecycle.OrderIds(orders)[j] == orders[j].id;
    }
    Billing.FindOrderAt(all, |orders|);
  }

  /** The cart summary of a placed order is what the bill for it will charge,
      as long as order ids were sequential before. */
  lemma CartTotalsMatchBill(st: Restaurant.RestaurantState, page: PageState, user: Option<User>,
                            now: Instant, m: Option<string>, t: Instant)
    requires Ids.SequentialIds("order", OrderLifecycle.OrderIds(st.orders))
    requires PlaceOrder(st, page, user, now).Success?
    ensures var st1 := PlaceOrder(st, page, user, now).value;
            var g := Restaurant.GenerateBill(st1, Ids.NextId("order", |st.orders|), m, t);
            g.Success? && g.value.1.items == page.cart
            && g.value.1.subtotal == CartTotals(page.cart).0
            && g.value.1.tax == CartTotals(page.cart).1
            && g.value.1.total == CartTotals(page.cart).2
  {
    var st1 := PlaceOrder(st, page, user, now).value;
    var o := st1.orders[|st.orders|];
    assert st1.orders == st.orders + [o];
    Ids.NextIdFresh("order", OrderLifecycle.OrderIds(st.orders));
    BillForNewestOrder(st.orders, o, st1.bills, m, t);
  }

  datatype PageError = NoTableSelected | EmptyCart | NotAuthenticated | CustomerNameRequired

  /** `handleCreateCustomer`: requires a name; the phone is passed only when
      non-empty; the new customer becomes the selected one. */
  function CreateCustomer(st: Restaurant.RestaurantState, page: PageState)
    : (r: Result<(Restaurant.RestaurantState, PageState), PageError>)
    ensures r.Failure? <==> page.customerName == ""
    ensures r.Success? ==>
      var (st1, p1) := r.value;
      |st1.customers| == |st.customers| + 1 &&
      var c := st1.customers[|st.customers|];
      && st1 == st.(customers := st.customers + [c])
      && c.name == page.customerName
      && c.phone == (if page.customerPhone == "" then None else Some(page.customerPhone))
      && c.email.None? && c.visits == Some(1)
      && p1 == page.(selectedCustomerId := c.id)
  {
    if page.customerName == "" then Failure(CustomerNameRequired)
    else
      var draft := CustomerRegistry.CustomerDraft(page.customerName,
        if page.customerPhone == "" then None else Some(page.customerPhone), None, None, None);
      var (customers, c) := CustomerRegistry.AddCustomer(st.customers, draft);
      Success((st.(customers := customers), page.(selectedCustomerId := c.id)))
  }

  /** The customer an order or table gets: none when nothing is selected. */
  function SelectedCustomer(page: PageState): Option<string>
  {
    if page.selectedCustomerId == "" then None else Some(page.selectedCustomerId)
  }

  /** `handlePlaceOrder`: refuses without a table, with an empty cart, or
      without a signed-in user, in that order; otherwise creates an active
      order carrying the cart and marks the table occupied by the customer and
      the user. The table's current status is not checked. */
  function PlaceOrder(st: Restaurant.RestaurantState, page: PageState, user: Option<User>, now: Instant)
    : (r: Result<Restaurant.RestaurantState, PageError>)
    ensures page.selectedTableId == "" ==> r == Failure(NoTableSelected)
    ensures page.selectedTableId != "" && page.cart == [] ==> r == Failure(EmptyCart)
    ensures page.selectedTableId != "" && page.cart != [] && user.None? ==> r == Failure(NotAuthenticated)
    ensures r.Success? <==> page.selectedTableId != "" && page.cart != [] && user.Some?
    ensures r.Success? ==>
      var st1 := r.value;
      |st1.orders| == |st.orders| + 1 &&
      var o := st1.orders[|st.orders|];
      && st1.orders == st.orders + [o]
      && o.id == Ids.NextId("order", |st.orders|)
      && o.tableId == page.selectedTableId && o.customerId == SelectedCustomer(page)
      && o.waiterId == user.value.id && o.items == page.cart && o.status == Active
      && o.createdAt == o.updatedAt == now
      && st1.tables == TableRegistry.UpdateTableStatus(st.tables, page.selectedTableId, Occupied,
                                                       SelectedCustomer(page), Some(user.value.id))
      && st1.menuItems == st.menuItems && st1.customers == st.customers && st1.bills == st.bills
  {
    if page.selectedTableId == "" then Failure(NoTableSelected)
    else if |page.cart| == 0 then Failure(EmptyCart)
    else if user.None? then Failure(NotAuthenticated)
    else
      var customer := SelectedCustomer(page);
      var draft := OrderLifecycle.OrderDraft(page.selectedTableId, customer, user.value.id, page.cart, Active);
      var st1 := Restaurant.Apply(st, Restaurant.CreateOrder(draft, now));
      Success(Restaurant.Apply(st1, Restaurant.SetTableStatus(page.selectedTableId, Occupied, customer, Some(user.value.id))))
  }

  /** A placed order leaves its table occupied by the order's customer and
      waiter, whatever the table's status was before. */
  lemma PlacedOrderOccupiesTable(st: Restaurant.RestaurantState, page: PageState, user: Option<User>, now: Instant)
    requires PlaceOrder(st, page, user, now).Success?
    ensures var st1 := PlaceOrder(st, page, user, now).value;
            var o := st1.orders[|st1.orders| - 1];
            forall i :: 0 <= i < |st1.tables| && st1.tables[i].id == page.selectedTableId ==>
              st1.tables[i].status == Occupied && o.status == Active && o.tableId == st1.tables[i].id
              && st1.tables[i].currentCustomerId == o.customerId && st1.tables[i].waiter == Some(o.waiterId)
  {
  }

  /** The tables offered in the picker: exactly the available ones. */
  function OfferedTables(tables: seq<Table>): (r: seq<Table>)
    ensures forall t :: t in r <==> t in tables && t.status == Available
  {
    if |tables| == 0 then []
    else OfferedTables(tables[..|tables| - 1]) +
         (if tables[|tables| - 1].status == Available then [tables[|tables| - 1]] else [])
  }

  /** The menu items offered: exactly the available ones. */
  function OfferedMenuItems(items: seq<MenuItem>): (r: seq<MenuItem>)
    ensures forall m :: m in r <==> m in items && m.isAvailable
  {
    if |items| == 0 then []
    else OfferedMenuItems(items[..|items| - 1]) +
         (if items[|items| - 1].isAvailable then [items[|items| - 1]] else [])
  }

  /** A freshly opened page cannot place an order: it has no table unless the
      URL names one, and its cart is always empty. */
  lemma FreshPageCannotPlace(st: Restaurant.RestaurantState, tableIdParam: Option<string>, user: Option<User>, now: Instant)
    ensures PlaceOrder(st, OpenPage(tableIdParam), user, now)
         == Failure(if tableIdParam.None? || tableIdParam.value == "" then NoTableSelected else EmptyCart)
  {
  }

  /** Switching to another table throws the cart away, so placing straight
      after the switch fails on the empty cart; switching to the table already
      chosen keeps the page, and switching is idempotent. */
  lemma ChangeTableEmptiesCart(st: Restaurant.RestaurantState, page: PageState, tableId: string,
                               user: Option<User>, now: Instant)
    ensures tableId != page.selectedTableId && tableId != "" ==>
      PlaceOrder(st, ChangeTable(page, tableId), user, now) == Failure(EmptyCart)
    ensures tableId != page.selectedTableId ==> SelectedCustomer(ChangeTable(page, tableId)).None?
    ensures ChangeTable(page, page.selectedTableId) == page
    ensures ChangeTable(ChangeTable(page, tableId), tableId) == ChangeTable(page, tableId)
  {
  }

  /** A customer created on the page and then an order placed: the order and
      its table carry the new customer's id, which no earlier customer had. */
  lemma CreatedCustomerOnOrder(st: Restaurant.RestaurantState, page: PageState, user: User, now: Instant)
    requires Ids.SequentialIds("cust", CustomerRegistry.CustomerIds(st.customers))
    requires page.customerName != "" && page.selectedTableId != "" && page.cart != []
    ensures var (st1, p1) := CreateCustomer(st, page).value;
            var c := st1.customers[|st.customers|];
            var st2 := PlaceOrder(st1, p1, Some(user), now).value;
            && c.id !in CustomerRegistry.CustomerIds(st.customers)
            && st2.orders[|st2.orders| - 1].customerId == Some(c.id)
            && forall i :: 0 <= i < |st2.tables| && st2.tables[i].id == page.selectedTableId ==>
                 st2.tables[i].currentCustomerId == Some(c.id)
  {
    var (st1, p1) := CreateCustomer(st, page).value;
    var c := st1.customers[|st.customers|];
    CustomerRegistry.AddCustomerFresh(st.customers,
      CustomerRegistry.CustomerDraft(page.customerName,
        if page.customerPhone == "" then None else Some(page.customerPhone), None, None, None));
    assert |c.id| == 4 + |Ids.Pad3(|st.customers| + 1)|;
    assert SelectedCustomer(p1) == Some(c.id);
    PlacedOrderOccupiesTable(st1, p1, Some(user), now);
  }

  /** A table id taken from the URL is not re-checked: an order can be placed
      on a reserved or occupied table, though the picker never offers it. */
  lemma UrlTableNotRechecked(st: Restaurant.RestaurantState, t: Table, cart: Cart, user: User, now: Instant)
    requires t in st.tables && t.status != Available && t.id != "" && cart != []
    ensures t !in OfferedTables(st.tables)
    ensures PlaceOrder(st, ChangeTable(OpenPage(Some(t.id)), t.id).(cart := cart), Some(user), now).Success?
  {
  }
}
