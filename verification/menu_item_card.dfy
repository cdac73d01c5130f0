/** What a menu item card offers: the admin-only availability switch and the
    "Add to Order" button. */
module MenuItemCardView {
  import opened Wrappers
  import opened Domain
  import MenuRegistry
  import Restaurant
  import NewOrderPage

  /** The switch is shown to admins. The source also admits a "chef" role,
      which is not a role value, so only admins qualify. */
  function CanToggle(user: Option<User>): bool
  {
    user.Some? && (user.value.role == Admin)
  }

  /** `handleAvailabilityToggle`: requests the negation of the card's flag. */
  function ToggleRequest(item: MenuItem): Restaurant.Action
  {
    Restaurant.SetMenuAvailability(item.id, !item.isAvailable)
  }

  /** Flipping the switch of card `k`. */
  function ClickToggle(st: Restaurant.RestaurantState, k: nat, user: Option<User>): (r: Restaurant.RestaurantState)
    requires k < |st.menuItems|
    ensures !CanToggle(user) ==> r == st
    ensures |r.menuItems| == |st.menuItems|
  {
    if CanToggle(user) then Restaurant.Apply(st, ToggleRequest(st.menuItems[k])) else st
  }

  /** With unique menu ids a flip negates exactly that card's flag, and
      flipping twice restores the state. */
  lemma ToggleTwiceRestores(st: Restaurant.RestaurantState, k: nat, user: Option<User>)
    requires k < |st.menuItems| && CanToggle(user)
    requires forall i :: 0 <= i < |st.menuItems| && i != k ==> st.menuItems[i].id != st.menuItems[k].id
    ensures ClickToggle(st, k, user).menuItems[k].isAvailable == !st.menuItems[k].isAvailable
    ensures ClickToggle(ClickToggle(st, k, user), k, user) == st
  {
    var r1 := ClickToggle(st, k, user);
    var r2 := ClickToggle(r1, k, user);
    assert r1.menuItems[k].id == st.menuItems[k].id;
    forall i | 0 <= i < |st.menuItems|
      ensures r2.menuItems[i] == st.menuItems[i]
    {
      if i != k {
        assert r1.menuItems[i] == st.menuItems[i];
      }
    }
  }

  /** "Add to Order" hands the card's item to the page, unchanged, when the
      card is selectable, the item is available and a handler is supplied. */
  function AddToOrder(selectable: bool, item: MenuItem, hasOnSelect: bool): Option<MenuItem>
  {
    if selectable && item.isAvailable && hasOnSelect then Some(item) else None
  }

  /** A flip changes the menu exactly when the signed-in user is an admin. */
  lemma OnlyAdminsToggle(st: Restaurant.RestaurantState, k: nat, user: Option<User>)
    requires k < |st.menuItems|
    ensures ClickToggle(st, k, user) != st <==> user.Some? && user.value.role == Admin
  {
  }

  /** On the new-order page, where cards are selectable and have a handler,
      a menu item reaches the cart exactly when the page offers it. */
  lemma AddToOrderOnlyOffered(items: seq<MenuItem>, m: MenuItem)
    requires m in items
    ensures AddToOrder(true, m, true) == Some(m) <==> m in NewOrderPage.OfferedMenuItems(items)
    ensures AddToOrder(false, m, true).None? && AddToOrder(true, m, false).None?
  {
  }
}
