/** What a table card offers: admin-only status buttons that stamp the
    signed-in user as waiter, and a select button. */
module TableCardView {
  import opened Wrappers
  import opened Domain
  import TableRegistry
  import Restaurant
  import NewOrderPage

  /** `handleStatusChange`: without a signed-in user nothing is requested;
      otherwise the table gets the status, no customer, and the user as waiter. */
  function StatusChangeRequest(table: Table, user: Option<User>, status: TableStatus): Option<Restaurant.Action>
  {
    if user.Some? then Some(Restaurant.SetTableStatus(table.id, status, None, Some(user.value.id))) else None
  }

  function IsAdmin(user: Option<User>): bool
  {
    user.Some? && user.value.role == Admin
  }

  /** The status buttons: all three for an admin, whatever the current status;
      none for anyone else. */
  function OfferedStatuses(user: Option<User>): (r: seq<TableStatus>)
    ensures IsAdmin(user) ==> Available in r && Occupied in r && Reserved in r
    ensures !IsAdmin(user) ==> r == []
  {
    if IsAdmin(user) then [Available, Occupied, Reserved] else []
  }

  /** Pressing the status button for `status` on table `k`. */
  function ClickStatus(st: Restaurant.RestaurantState, k: nat, user: Option<User>, status: TableStatus)
    : (r: Restaurant.RestaurantState)
    requires k < |st.tables|
    ensures !IsAdmin(user) ==> r == st
    ensures r.menuItems == st.menuItems && r.customers == st.customers && r.orders == st.orders && r.bills == st.bills
  {
    match StatusChangeRequest(st.tables[k], user, status)
    case Some(a) => if status in OfferedStatuses(user) then Restaurant.Apply(st, a) else st
    case None => st
  }

  /** An admin moves a table to any status from any status; the table keeps
      no customer and gets the admin as waiter, and other tables are
      untouched when table ids are unique. */
  lemma AdminSetsAnyStatus(st: Restaurant.RestaurantState, k: nat, user: Option<User>, status: TableStatus)
    requires k < |st.tables| && IsAdmin(user)
    requires forall i :: 0 <= i < |st.tables| && i != k ==> st.tables[i].id != st.tables[k].id
    ensures var r := ClickStatus(st, k, user, status);
            && r.tables[k] == st.tables[k].(status := status, currentCustomerId := None, waiter := Some(user.value.id))
            && (forall i :: 0 <= i < |st.tables| && i != k ==> r.tables[i] == st.tables[i])
  {
    assert status in OfferedStatuses(user);
  }

  /** The select button is enabled for available and occupied tables, that is,
      for every table that is not reserved. */
  function SelectEnabled(table: Table): (b: bool)
    ensures b <==> table.status != Reserved
  {
    table.status == Available || table.status == Occupied
  }

  /** The select button reads "View Order" exactly for occupied tables. */
  function SelectLabel(table: Table): string
  {
    if table.status == Occupied then "View Order" else "Select Table"
  }

  /** Every table the new-order picker offers shows an enabled "Select Table"
      button on its card. */
  lemma OfferedTablesSelectable(tables: seq<Table>, t: Table)
    requires t in NewOrderPage.OfferedTables(tables)
    ensures SelectEnabled(t) && SelectLabel(t) == "Select Table"
  {
  }

  /** Once an order is placed its table's card reads "View Order", stays
      selectable, and drops out of the picker. */
  lemma PlacedTableShowsViewOrder(st: Restaurant.RestaurantState, page: NewOrderPage.PageState,
                                  user: Option<User>, now: Instant)
    requires NewOrderPage.PlaceOrder(st, page, user, now).Success?
    ensures var st1 := NewOrderPage.PlaceOrder(st, page, user, now).value;
            forall i :: 0 <= i < |st1.tables| && st1.tables[i].id == page.selectedTableId ==>
              SelectLabel(st1.tables[i]) == "View Order" && SelectEnabled(st1.tables[i])
              && st1.tables[i] !in NewOrderPage.OfferedTables(st1.tables)
  {
    NewOrderPage.PlacedOrderOccupiesTable(st, page, user, now);
  }
}
