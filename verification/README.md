# Restaurant dashboard: the in-memory state machine, modelled in Dafny

This project models the domain core of a restaurant management dashboard. The
dashboard keeps tables, menu items, customers, orders and bills in memory. Orders
carry a kitchen status for each line, and bills carry a payment status. A separate
grocery inventory tracks stock; its code is written but not wired into the app
(see "Left out"), and it is modelled as written. The model also covers the page and card logic that
decides which of these transitions a user can actually reach.

Every operation is a pure function over immutable records. The records are in
module `Domain`, and the collections are `seq`s.

- **Money** is an exact `real`. Tax is `subtotal * 0.1`, with no rounding.
- **Instants** (`new Date()`) and cart-line ids (`temp-${Date.now()}`) are
  parameters supplied by the caller.
- **`undefined`** is `Option.None`.
- **A throw** is `Result.Failure`.

Ids are `prefix + pad3(n)` (module `Ids`). `Pad3` is JavaScript's
`padStart(3, '0')`, which widens past 999 and never truncates. `SeqOf` parses an
id back to its number. The model proves that `Pad3` round-trips and is
injective. The invariant `SequentialIds` says that the i-th id of a list is
`prefix + pad3(i+1)`. It makes the length-derived next id fresh.

The wired provider (`src/contexts/RestaurantContext.tsx`, the one the app
mounts) and the split providers (`src/contexts/restaurant/*.tsx`) contain the
same logic for every operation they share. Each such operation is modelled once,
and both copies are cited. Two operations exist only in the split providers:
`addMenuItem` and the grocery inventory (see "Left out").

`Restaurant.Apply` dispatches every provider action. `Restaurant.WellFormed`
holds of the seed data and is preserved by every action. It requires:
- sequential ids in all five collections;
- balanced bills;
- every bill tied to an existing order with the same table and customer.

The UI layer is kept apart from the providers, because the providers enforce no
transition tables. Modules `OrderListView`, `BillListView`, `TableCardView`,
`MenuItemCardView`, `GroceryCardView`, `AddGroceryForm`, `CustomerForm`,
`NewOrderPage` and `Layout` state what the buttons offer, and what clicking them
does to the state.

## Model

| member | source | states |
|---|---|---|
| Ids.Decimal | src/contexts/RestaurantContext.tsx:68 | `toString()` of a natural number is all digits, with a leading zero only for 0; it has one digit below 10, at most two below 100, at most three below 1000 |
| Ids.Pad3 | src/contexts/RestaurantContext.tsx:68 | `padStart(3,'0')` gives at least three digits, and exactly three iff n < 1000 |
| Ids.MakeId | src/contexts/RestaurantContext.tsx:68 | an id is the prefix followed by the padded number |
| Ids.SeqOf | src/contexts/restaurant/GroceryContext.tsx:88 | reading a number back from an id: a parsed id starts with the prefix and continues with digits, and the result is the value of those digits |
| Ids.DecimalRoundTrip | src/contexts/RestaurantContext.tsx:68 | reading back the decimal text of n gives n |
| Ids.LeadingZeroValue | src/contexts/RestaurantContext.tsx:68 | a leading '0' does not change a digit string's value |
| Ids.ZerosValue | src/contexts/RestaurantContext.tsx:68 | padding zeros do not change a digit string's value |
| Ids.Pad3RoundTrip | src/contexts/RestaurantContext.tsx:68 | reading back `pad3(n)` gives n, including n >= 1000 |
| Ids.Pad3Injective | src/contexts/RestaurantContext.tsx:68 | `pad3(a) == pad3(b)` iff a == b |
| Ids.Pad3Digits | src/contexts/RestaurantContext.tsx:68 | below 1000, `pad3(n)` is exactly the hundreds, tens and units digits |
| Ids.SeqOfMakeId | src/contexts/RestaurantContext.tsx:68 | parsing `prefix + pad3(n)` yields n |
| Ids.MakeIdInjective | src/contexts/RestaurantContext.tsx:68 | two ids with one prefix are equal iff their numbers are |
| Ids.NextIdFresh | src/contexts/RestaurantContext.tsx:68 | on a sequentially numbered list, `prefix + pad3(len+1)` is not yet used, and appending it keeps the numbering sequential |
| Ids.SequentialIdsDistinct | src/contexts/RestaurantContext.tsx:68 | sequentially numbered ids are pairwise distinct |
| Wrappers.FirstIndex | src/contexts/RestaurantContext.tsx:137 | `Array.find`: returns the first matching position, and None iff nothing matches |
| Money.ComputeSubtotal | src/contexts/RestaurantContext.tsx:143 | the `reduce` loop computes the sum of price × quantity over the lines |
| Money.SubtotalSplit | src/contexts/restaurant/BillingContext.tsx:24 | the subtotal around one line is the subtotal on each side plus that line's amount |
| Money.SubtotalAppend | src/contexts/restaurant/BillingContext.tsx:24 | the subtotal of two line lists joined is the sum of their subtotals |
| Money.SubtotalCons | src/contexts/restaurant/BillingContext.tsx:24 | the subtotal is also the first line's amount plus the rest's subtotal |
| Money.SubtotalOnlyPriceQuantity | src/contexts/restaurant/BillingContext.tsx:24 | the subtotal depends only on each line's price and quantity, not on status, name or id |
| Money.SubtotalNonNegative | src/contexts/restaurant/BillingContext.tsx:24 | lines with non-negative price and positive quantity give a non-negative subtotal |
| TableRegistry.UpdateTableStatus | src/contexts/RestaurantContext.tsx:36-43 | only tables whose id matches change; they get the status, customer and waiter passed in, so an omitted customer or waiter clears the field; count, ids, numbers and capacities are kept; the update has no precondition on the current status |
| TableRegistry.UnknownTableIsNoOp | src/contexts/restaurant/TableContext.tsx:13-20 | an unknown table id leaves the tables unchanged |
| TableRegistry.LastTableUpdateWins | src/contexts/restaurant/TableContext.tsx:14-19 | two updates of one table equal the second alone |
| TableRegistry.UpdateTableIdempotent | src/contexts/restaurant/TableContext.tsx:14-19 | repeating an update changes nothing more |
| TableRegistry.TableUpdatesCommute | src/contexts/restaurant/TableContext.tsx:14-19 | updates of two different tables commute |
| MenuRegistry.UpdateMenuItemAvailability | src/contexts/RestaurantContext.tsx:51-58 | only items with the matching id change, and only in their availability flag |
| MenuRegistry.UnknownMenuItemIsNoOp | src/contexts/restaurant/MenuContext.tsx:14-20 | an unknown id leaves the menu unchanged |
| MenuRegistry.LastAvailabilityWins | src/contexts/restaurant/MenuContext.tsx:13-20 | two settings of one flag equal the second alone, so setting a flag twice equals setting it once |
| MenuRegistry.AvailabilityRoundTrip | src/contexts/restaurant/MenuContext.tsx:14-20 | setting v, then not-v, then v equals setting v |
| MenuRegistry.AddMenuItem | src/contexts/restaurant/MenuContext.tsx:28-38 | appends one item with id "item"+pad3(len+1), copies every field from the argument, has no image, and returns the appended record |
| MenuRegistry.AddMenuItemFresh | src/contexts/restaurant/MenuContext.tsx:28-33 | on a sequential menu the new id is unused, and numbering stays sequential |
| CustomerRegistry.AddCustomer | src/contexts/RestaurantContext.tsx:66-77 | appends exactly one customer with id "cust"+pad3(len+1), one visit and the caller's fields; earlier customers are unchanged and in order; returns that record |
| CustomerRegistry.AddCustomerFresh | src/contexts/restaurant/CustomerContext.tsx:13-19 | on a sequential list the new id is unused, and numbering stays sequential |
| CustomerRegistry.TwoAddsDistinct | src/contexts/restaurant/CustomerContext.tsx:13-28 | two successive additions get different ids, each with one visit |
| OrderLifecycle.CreateOrder | src/contexts/RestaurantContext.tsx:81-93 | appends one order with id "order"+pad3(len+1) and the caller's fields, with createdAt equal to updatedAt |
| OrderLifecycle.UpdateOrderStatus | src/contexts/restaurant/OrderContext.tsx:29-36 | sets status and update instant on matching orders only, from any current status; other fields and other orders are kept |
| OrderLifecycle.SetItemStatus | src/contexts/restaurant/OrderContext.tsx:50-54 | sets the status of lines with the matching id only, keeping line count and order |
| OrderLifecycle.UpdateOrderItemStatus | src/contexts/RestaurantContext.tsx:112-127 | only matching lines of matching orders change, and only in status; line count and order are kept; other orders are unchanged; a matching order always gets the new update instant |
| OrderLifecycle.UnknownOrderIsNoOp | src/contexts/restaurant/OrderContext.tsx:30-35 | both updates leave the orders unchanged for an unknown order id |
| OrderLifecycle.UnknownItemTouchesOnlyInstant | src/contexts/restaurant/OrderContext.tsx:44-59 | if the order exists but no line matches, only updatedAt changes |
| OrderLifecycle.ItemStatusKeepsSubtotal | src/contexts/restaurant/OrderContext.tsx:50-54 | a status update never changes any order's subtotal |
| OrderLifecycle.LastOrderStatusWins | src/contexts/restaurant/OrderContext.tsx:29-36 | two status updates of one order equal the second alone |
| OrderLifecycle.CreateOrderFresh | src/contexts/restaurant/OrderContext.tsx:13-20 | on a sequential list the new order id is unused, and numbering stays sequential |
| Billing.FindOrder | src/contexts/restaurant/BillingContext.tsx:18 | finds the first order with the id, and None iff no order has it |
| Billing.FindOrderAt | src/contexts/restaurant/BillingContext.tsx:18 | when no earlier order shares order k's id, the lookup finds order k |
| Billing.FindBill | src/contexts/restaurant/BillingContext.tsx:68 | finds the first bill with the id, and None iff no bill has it |
| Billing.GenerateBill | src/contexts/restaurant/BillingContext.tsx:17-49 | throws iff the order is absent; otherwise appends one bill with id "bill"+pad3(len+1), the order id, and the table, customer and lines of the first order with that id, subtotal Σ price×quantity, tax subtotal×0.1, total subtotal+tax, status pending, method defaulting to "cash" |
| Billing.SetPaymentStatus | src/contexts/restaurant/BillingContext.tsx:53-59 | only bills with the matching id change, and only in payment status |
| Billing.UnknownBillIsNoOp | src/contexts/restaurant/BillingContext.tsx:53-59 | an unknown bill id leaves the bills unchanged |
| Billing.SetPaymentStatusKeepsFind | src/contexts/restaurant/BillingContext.tsx:68 | a status update keeps the list of bill ids, and the bill found for any id keeps its order and table |
| Billing.GenerateTwiceTwoBills | src/contexts/restaurant/BillingContext.tsx:17-49 | billing one order twice yields two bills with distinct ids for the same order id |
| Billing.GenerateBillFresh | src/contexts/restaurant/BillingContext.tsx:28-42 | on a sequential bill list the new bill id is unused, and numbering stays sequential |
| Restaurant.GenerateBill | src/contexts/RestaurantContext.tsx:136-161 | an unknown order id fails and changes nothing; on success only the bill list changes, by one appended pending bill for that order |
| Restaurant.UpdateBillPaymentStatus | src/contexts/RestaurantContext.tsx:171-195 | the matching bill gets the status; for "completed" on an existing bill, the bill's table becomes available with customer and waiter cleared, and its order becomes completed; otherwise tables and orders are untouched |
| Restaurant.PaymentCompletedCascade | src/contexts/restaurant/BillingContext.tsx:67-75 | after completing a payment, the bill is completed, its table is available and empty, its order is completed, and other tables and orders are unchanged |
| Restaurant.PayTwiceSameAsOnce | src/contexts/RestaurantContext.tsx:186-194 | completing a payment twice equals completing it once at the later instant |
| Restaurant.OrderUpdatesKeepReferences | src/contexts/restaurant/OrderContext.tsx:29-59 | order updates keep ids, tables and customers, so bills still refer to their orders |
| Restaurant.CreateOrderKeepsWellFormed | src/contexts/RestaurantContext.tsx:81-93 | creating an order preserves the invariant |
| Restaurant.OrderUpdateKeepsWellFormed | src/contexts/RestaurantContext.tsx:97-127 | order and line status updates preserve the invariant |
| Restaurant.AppendOrderKeepsReferences | src/contexts/restaurant/OrderContext.tsx:20 | appending an order keeps every bill tied to an existing order |
| Restaurant.NewBillKeepsBills | src/contexts/restaurant/BillingContext.tsx:17-42 | a generated bill keeps bill ids sequential, bills balanced and bills tied to their orders |
| Restaurant.GenerateBillKeepsWellFormed | src/contexts/RestaurantContext.tsx:136-161 | bill generation preserves the invariant, whether or not it fails |
| Restaurant.SetPaymentStatusKeepsBills | src/contexts/RestaurantContext.tsx:172-178 | payment status updates keep bills balanced, tied to their orders and sequentially numbered |
| Restaurant.PaymentKeepsWellFormed | src/contexts/RestaurantContext.tsx:171-195 | a payment update, cascade included, preserves the invariant |
| Restaurant.ApplyPreservesWellFormed | src/contexts/restaurant/RestaurantProvider.tsx:24-32 | every provider action preserves the invariant |
| Restaurant.RunPreservesWellFormed | src/contexts/restaurant/RestaurantProvider.tsx:24-32 | any sequence of actions preserves the invariant |
| Restaurant.WellFormedIdsUnique | src/contexts/RestaurantContext.tsx:68 | in a well-formed state, ids are unique in every collection |
| Restaurant.BillSnapshotSurvivesItemUpdate | src/contexts/restaurant/BillingContext.tsx:33 | a later line status update leaves the bill list, and the new bill itself, unchanged, and the order still costs what it did |
| Restaurant.Apply | src/contexts/restaurant/RestaurantProvider.tsx:46-54 | no provider action removes a record or changes its id: table ids stay the same, the other id lists only grow at the end, customers are only appended, each list grows only by its own creation action (a bill only for a known order), and each list is untouched by the actions that do not concern it; the menu-item addition is reachable only through the split provider (src/contexts/restaurant/MenuContext.tsx:28-38) |
| Restaurant.Run | src/contexts/restaurant/RestaurantProvider.tsx:46-54 | over any sequence of actions the table ids are unchanged, every existing menu, order and bill id stays in place, and the existing customers are untouched |
| GroceryInventory.AddGroceryItem | src/contexts/restaurant/GroceryContext.tsx:87-95 | as written: appends one item with id "groc"+pad3(len+1), the caller's fields and the caller's availability flag |
| GroceryInventory.RemoveId | src/contexts/restaurant/GroceryContext.tsx:115 | the filter keeps only items of other ids, all drawn from the list |
| GroceryInventory.RemoveIdAppend | src/contexts/restaurant/GroceryContext.tsx:115 | filtering distributes over concatenation, so the kept items stay in order |
| GroceryInventory.RemoveIdKeepsOthers | src/contexts/restaurant/GroceryContext.tsx:115 | every item with another id survives the filter |
| GroceryInventory.RemoveAbsentId | src/contexts/restaurant/GroceryContext.tsx:115 | filtering out an absent id changes nothing |
| GroceryInventory.DeleteGroceryItem | src/contexts/restaurant/GroceryContext.tsx:105-122 | reports true iff the id is present; if absent the list is unchanged; if present every item with that id is removed and every other item kept |
| GroceryInventory.UpdateGroceryItemStock | src/contexts/restaurant/GroceryContext.tsx:125-132 | sets the stock of matching items only, without touching their availability flag |
| GroceryInventory.UpdateGroceryItemAvailability | src/contexts/restaurant/GroceryContext.tsx:142-149 | sets the flag of matching items only |
| GroceryInventory.InitialInventoryStocked | src/contexts/restaurant/GroceryContext.tsx:9-55 | the initial inventory has five items, numbered groc001..groc005, each available with stock > 0 |
| GroceryInventory.FirstIdUnique | src/contexts/restaurant/GroceryContext.tsx:9-55 | no later initial item shares the first one's id |
| GroceryInventory.DeleteFirstInitialItem | src/contexts/restaurant/GroceryContext.tsx:105-122 | deleting groc001 from the initial inventory leaves the other four, and reports true |
| GroceryInventory.DeleteThenAddReusesId | src/contexts/restaurant/GroceryContext.tsx:88 | as written, deleting groc001 and adding an item gives the new item id groc005, which is already taken |
| GroceryInventory.MaxSeq | src/contexts/restaurant/GroceryContext.tsx:88 | the largest number among the list's parsable ids: an upper bound that is 0 or attained |
| GroceryInventory.FreshGroceryId | src/contexts/restaurant/GroceryContext.tsx:88 | the corrected id is never in use |
| GroceryInventory.AddGroceryItemFresh | src/contexts/restaurant/GroceryContext.tsx:87-95 | corrected addition: appends one item with the caller's fields and an id not in use |
| GroceryInventory.FreshIdAgreesOnSequentialLists | src/contexts/restaurant/GroceryContext.tsx:88 | on a list nothing was deleted from, the corrected id equals the length-derived one |
| GroceryInventory.DeleteThenAddFreshIsNew | src/contexts/restaurant/GroceryContext.tsx:105-122 | after the delete above, the corrected addition yields an id different from every remaining item's |
| NewOrderPage.AddToCart | src/pages/NewOrder.tsx:52-73 | a menu item already in the cart adds one to its line, keeping the line's name and price; otherwise a quantity-1 pending line with the item's name and price is appended |
| NewOrderPage.RemoveFromCart | src/pages/NewOrder.tsx:79-81 | no line with that id remains, and every remaining line comes from the cart; their order is stated by NewOrderPage.RemoveFromCartAppend |
| NewOrderPage.RemoveFromCartKeepsOthers | src/pages/NewOrder.tsx:80 | every line with another id stays in the cart |
| NewOrderPage.RemoveFromCartAppend | src/pages/NewOrder.tsx:80 | removing from two joined carts removes from each, so the remaining lines keep their order |
| NewOrderPage.RemoveFromCartSingle | src/pages/NewOrder.tsx:80 | a single line is dropped iff it carries the id |
| NewOrderPage.UpdateQuantity | src/pages/NewOrder.tsx:84-92 | quantities below 1 are ignored; otherwise only the matching line's quantity changes |
| NewOrderPage.AddToCartKeepsValid | src/pages/NewOrder.tsx:52-73 | adding keeps at most one line per menu item, with every quantity at least 1 |
| NewOrderPage.RemoveFromCartKeepsValid | src/pages/NewOrder.tsx:79-81 | removing keeps the cart valid |
| NewOrderPage.UpdateQuantityKeepsValid | src/pages/NewOrder.tsx:84-92 | updating a quantity keeps the cart valid |
| NewOrderPage.SubtotalIncrement | src/pages/NewOrder.tsx:47 | adding one to a line's quantity adds that line's price to the subtotal |
| NewOrderPage.AddToCartSubtotal | src/pages/NewOrder.tsx:47-73 | in a valid cart, adding an item raises the subtotal by the price on its line, or by the menu price for a new line |
| NewOrderPage.BillForNewestOrder | src/contexts/restaurant/BillingContext.tsx:18-33 | a bill for the only order with a given id charges that order's lines |
| NewOrderPage.CartTotalsMatchBill | src/pages/NewOrder.tsx:47-49 | the totals shown for the cart are exactly what the bill for the placed order will charge |
| NewOrderPage.CreateCustomer | src/pages/NewOrder.tsx:95-108 | fails iff the name is empty; otherwise adds one customer with that name and the phone only when non-empty, and selects the new customer |
| NewOrderPage.PlaceOrder | src/pages/NewOrder.tsx:111-137 | rejects a missing table, an empty cart and a missing user, in that order, with no state change; otherwise creates an active order with the cart, the user as waiter and the selected customer, then marks the table occupied with that customer and waiter; menu, customers and bills are untouched |
| NewOrderPage.PlacedOrderOccupiesTable | src/pages/NewOrder.tsx:128-137 | after placing, the table is occupied by the new active order's customer and waiter |
| NewOrderPage.OfferedTables | src/pages/NewOrder.tsx:30 | the picker offers exactly the available tables |
| NewOrderPage.OfferedMenuItems | src/pages/NewOrder.tsx:33 | the menu offers exactly the available items |
| NewOrderPage.UrlTableNotRechecked | src/pages/NewOrder.tsx:19-21 | a reserved or occupied table taken from the URL is not offered, yet an order on it is placed |
| NewOrderPage.FreshPageCannotPlace | src/pages/NewOrder.tsx:19-27 | a freshly opened page has an empty cart: placing fails with "no table" unless the URL names one, and with "empty cart" if it does |
| NewOrderPage.ChangeTableEmptiesCart | src/pages/NewOrder.tsx:145-151 | after switching to another table the cart is empty, so placing fails, and no customer is selected; re-choosing the same table keeps the page |
| NewOrderPage.CreatedCustomerOnOrder | src/pages/NewOrder.tsx:95-137 | a customer created on the page gets an id no earlier customer had, and the order placed next, and its table, carry that id |
| OrderListView.OfferedItemAction | src/components/OrderList.tsx:94-126 | for an active order the only item actions are pending→preparing, preparing→ready and ready→served, each one step forward; nothing is offered for an inactive order or a served or cancelled line |
| OrderListView.ClickItemAction | src/components/OrderList.tsx:94-126 | a line with no button offered cannot change through the list |
| OrderListView.ClickAdvancesOneLine | src/components/OrderList.tsx:94-126 | with unique ids, a click moves exactly the clicked line one step forward, and no line of any order moves back |
| OrderListView.BillButtonSurvivesBilling | src/components/OrderList.tsx:39-41 | generating a bill does not change the order, so the button stays and the order can be billed again |
| OrderListView.PaymentHidesOrderButtons | src/components/OrderList.tsx:141-150 | after its bill is paid, the order is completed, so it offers neither "Generate Bill" nor any kitchen step |
| OrderListView.DisplayedTotalIsBillSubtotal | src/components/OrderList.tsx:137 | with unique order ids, the total shown equals the bill's subtotal, and the bill total adds 10% to it |
| BillListView.ClickPayment | src/components/BillList.tsx:107-114 | a button that is not shown does nothing |
| BillListView.PaymentClickSettles | src/components/BillList.tsx:104-121 | a payment click leaves the bill completed or failed, with no buttons, so further clicks do nothing; other bills are unchanged |
| BillListView.PaymentButtonsRequest | src/components/BillList.tsx:104-121 | on a pending bill "Mark as Paid" is the completed payment with its cascade, and "Mark as Failed" marks the bill failed without touching tables or orders; on a settled bill every click is a no-op |
| BillListView.LineAmountsSumToSubtotal | src/components/BillList.tsx:63-81 | the line amounts shown add up to the subtotal formula |
| BillListView.DisplayAgreesWithLines | src/components/BillList.tsx:72-95 | for a balanced bill, the lines sum to the shown subtotal, and the shown total is subtotal plus the stored tax |
| TableCardView.OfferedStatuses | src/components/TableCard.tsx:52-77 | admins get all three statuses, whatever the current one, and everyone else gets none |
| TableCardView.ClickStatus | src/components/TableCard.tsx:52-77 | a non-admin's click changes nothing, and a click never touches menu, customers, orders or bills |
| TableCardView.AdminSetsAnyStatus | src/components/TableCard.tsx:54-77 | an admin moves a table from any status to any status; the table then has no customer and the admin as waiter, and other tables are unchanged |
| TableCardView.SelectEnabled | src/components/TableCard.tsx:85 | the select button is disabled exactly for reserved tables |
| TableCardView.OfferedTablesSelectable | src/components/TableCard.tsx:85-87 | every table the new-order picker offers has an enabled "Select Table" button |
| TableCardView.PlacedTableShowsViewOrder | src/components/TableCard.tsx:85-87 | after an order is placed, its table's button reads "View Order", stays enabled, and the picker no longer offers the table |
| MenuItemCardView.ClickToggle | src/components/MenuItemCard.tsx:54-57 | without the switch nothing changes |
| MenuItemCardView.ToggleTwiceRestores | src/components/MenuItemCard.tsx:22-24 | with unique ids, a flip negates that item's flag, and two flips restore the state |
| MenuItemCardView.OnlyAdminsToggle | src/components/MenuItemCard.tsx:26-28 | a flip of the switch changes the menu iff the user is an admin |
| MenuItemCardView.AddToOrderOnlyOffered | src/components/MenuItemCard.tsx:62-65 | on the new-order page an item can be added iff the page offers it; a card that is not selectable, or has no handler, adds nothing |
| GroceryCardView.RequestedStock | src/components/grocery/GroceryCard.tsx:35-37 | the stock requested is max(0, stock + step), so it is never negative |
| GroceryCardView.OfferedActions | src/components/grocery/GroceryCard.tsx:62-99 | only admins get controls; minus is enabled iff stock > 0; steps are exactly −1 and +1 |
| GroceryCardView.EnabledDecrementIsExact | src/components/grocery/GroceryCard.tsx:67-68 | when minus is enabled it requests exactly one less |
| GroceryCardView.ApplyCardAction | src/components/grocery/GroceryCard.tsx:35-124 | a stock step sets the card item's stock to the clamped request; the flip negates its flag; both leave other items alone; delete removes exactly the items with that id |
| GroceryCardView.Click | src/components/grocery/GroceryCard.tsx:62-94 | a non-admin's click changes nothing, nor does the disabled minus at zero stock or any step other than ±1; what an admin's controls do is stated by GroceryCardView.AdminControlsOnCard |
| GroceryCardView.AdminControlsOnCard | src/components/grocery/GroceryCard.tsx:35-124 | with unique ids, an admin's plus adds one to a non-negative stock, the flip negates the flag, and delete drops the card's item; no other card changes |
| GroceryCardView.FlipTwiceRestores | src/components/grocery/GroceryCard.tsx:99 | with unique ids, flipping a card twice restores the list |
| GroceryCardView.ClickKeepsStock | src/components/grocery/GroceryCard.tsx:35-37 | every card control keeps all stocks non-negative |
| GroceryCardView.RunClicksKeepStock | src/components/grocery/GroceryCard.tsx:62-99 | any sequence of card clicks keeps all stocks non-negative |
| AddGroceryForm.FormErrors | src/components/grocery/AddGroceryDialog.tsx:69-86 | the rejected fields: a name shorter than 2, an empty category or unit, a price that is missing or not positive, a stock that is missing, negative or not whole; expiry is optional |
| AddGroceryForm.Validate | src/components/grocery/AddGroceryDialog.tsx:69-111 | fails iff some field is rejected; otherwise it gives a draft with the fields as entered and isAvailable = stock > 0 |
| AddGroceryForm.Submit | src/components/grocery/AddGroceryDialog.tsx:108-114 | an invalid form changes nothing; a valid one appends one item under an unused id, resets the form and closes the dialog |
| AddGroceryForm.SubmitKeepsStock | src/components/grocery/AddGroceryDialog.tsx:82-84 | submitting keeps every stock non-negative, and the added item is available iff it has stock |
| AddGroceryForm.EmptyFormRejected | src/components/grocery/AddGroceryDialog.tsx:98-105 | the reset form is rejected on every required field |
| AddGroceryForm.ClearedNumberFields | src/components/grocery/AddGroceryDialog.tsx:76-84 | a cleared number field counts as 0: a cleared stock is accepted and makes the item unavailable, while a cleared price is rejected |
| CustomerForm.Submit | src/pages/Customers.tsx:41-52 | an empty name does nothing; otherwise one customer is added with the name unchanged and blank phone and email dropped, then the form is cleared and closed |
| CustomerForm.DisabledExactlyWhenNoOp | src/components/customers/AddCustomerDialog.tsx:20-31 | the button is disabled exactly when pressing it would add nothing |
| CustomerForm.SecondPressAddsNothing | src/components/customers/AddCustomerDialog.tsx:29-30 | since the form clears itself, a second press adds nothing |
| CustomerForm.OnlyAdminsAddCustomers | src/pages/Customers.tsx:58-67 | a customer is added through the page iff an admin submits a named form; anyone else changes nothing |
| Layout.Split | src/components/Layout.tsx:110 | `split('/')` always yields at least one part |
| Layout.UpToSlash | src/components/Layout.tsx:110 | the prefix before the first slash is slash-free and is followed by a slash or the end |
| Layout.SecondPart | src/components/Layout.tsx:110 | the second part is missing iff the path has no slash |
| Layout.SplitNoSlash | src/components/Layout.tsx:110 | a slash-free string splits into itself |
| Layout.SplitSnoc | src/components/Layout.tsx:110 | appending a character either opens a new part (slash) or extends the last one |
| Layout.ExtendLastPart | src/components/Layout.tsx:110 | extending the last part does not disturb a prefix of parts |
| Layout.SplitAtSlash | src/components/Layout.tsx:110 | a slash separates the parts before it from those after it |
| Layout.SplitHead | src/components/Layout.tsx:110 | the first part is everything before the first slash |
| Layout.SecondPartIsSplitIndexOne | src/components/Layout.tsx:110 | `SecondPart(path)` is `path.split('/')[1]`, undefined when there is no second part |
| Layout.Upper | src/components/Layout.tsx:112 | `toUpperCase` maps a–z to A–Z and leaves other characters alone |
| Layout.PageTitle | src/components/Layout.tsx:109-113 | "Dashboard" when the part after the first slash is missing or empty; otherwise that part with its first character upper-cased and the rest unchanged |
| Layout.PageTitleOfFirstSegment | src/components/Layout.tsx:110-112 | for "/" + seg + rest, the title is seg capitalised |
| Layout.UpToSlashPrefix | src/components/Layout.tsx:110 | reading up to the first slash stops where a following part begins |
| Layout.NewOrderTitle | src/components/Layout.tsx:110-112 | "/orders/new" is titled "Orders" |
| Layout.RootTitle | src/components/Layout.tsx:110-111 | "/" and "" are titled "Dashboard" |
| Layout.SidebarItems | src/components/Layout.tsx:17-29 | the six base entries always come first, and "Settings" is present iff the user is an admin |
| Layout.TopLevelTitle | src/components/Layout.tsx:110-112 | a one-segment path is titled by its segment, capitalised |
| Layout.LinkedPageTitles | src/components/Layout.tsx:17-29 | each sidebar path has the expected page title |
| Layout.SidebarTitlesMatchPages | src/components/Layout.tsx:17-29 | every sidebar entry's title is the title of the page it links to |
| Seed.SmallSequentialIds | src/data/mockData.ts:56-97 | ids prefix+"00"+digit, in list order, are sequential |
| Seed.SeedTableIds | src/data/mockData.ts:56-97 | seed tables are numbered table001..table006 in list order |
| Seed.SeedMenuIds | src/data/mockData.ts:100-181 | seed menu items are numbered item001..item008 in list order |
| Seed.SeedOtherIds | src/data/mockData.ts:184-300 | seed customers, orders and bills are numbered from 001 in list order |
| Seed.Bill001Subtotal | src/data/mockData.ts:218-235 | bill001's subtotal 35.97 is 2×12.99 + 9.99, the sum over its lines |
| Seed.SeedWellFormed | src/data/mockData.ts:56-300 | the seed state satisfies the invariant every action preserves |
| Seed.SeedNextIdsFresh | src/data/mockData.ts:56-300 | the next length-derived id of every seed collection is unused |
| Seed.SeedReferencesResolve | src/data/mockData.ts:212-275 | each seed order and bill names an existing table and customer, and each order an existing staff member as waiter |
| Seed.OccupiedTablesHaveOrders | src/data/mockData.ts:63-96 | each occupied seed table has an active seed order with the table's customer and waiter |
| Seed.Bill001MatchesOrder001 | src/data/mockData.ts:272-293 | bill001 carries order001's id, lines, table and customer |
| Seed.StoredTaxIsRounded | src/data/mockData.ts:294-296 | the stored tax 3.60 is the rounded 10%, while generation yields 3.597; the stored total is subtotal plus the stored tax, so a regenerated bill would differ |

## Left out

- Persistence (`src/services/*`, the grocery `localStorage` effects, `useRestaurantDB`): browser I/O. The state is an in-memory value.
- Authentication and the settings forms (`AuthContext`, `src/components/settings/*`): their callbacks are not in the modelled code. The signed-in user is a parameter.
- `deleteCustomer`: it is called by the customers page but defined by no provider in the source, so its semantics are unknown.
- The restaurant-information record and its update: not part of the state machine.
- IEEE-754 arithmetic and `toFixed` display: money is an exact `real`.
- Wall-clock time and `Date.now()` cart ids: they are parameters. Cart ids are not assumed to be unique. Each operation reads the clock once, so a new order has createdAt == updatedAt, although the source calls `new Date()` twice (src/contexts/RestaurantContext.tsx:85-86, src/contexts/restaurant/OrderContext.tsx:17-18) and the two stamps can differ by a millisecond.
- Read-only list, search and count views (menu, orders, billing, tables, dashboard and grocery pages, search bars, badges): they only derive what is shown. Their search uses Unicode case folding.
- Toasts, rendering, navigation, and React batching or stale closures: each operation is one atomic step on a snapshot.
- Layout.Upper: only ASCII letters are upper-cased. JavaScript's full Unicode `toUpperCase` (which can lengthen a string) is not modelled.
- AddGroceryForm.FormErrors: string lengths count characters, not UTF-16 code units. Coercion of arbitrary text to a number is not modelled: a number field is either a real (a cleared field coerces to 0) or untouched (`undefined`, which coerces to NaN and is rejected).
- Seed: instants are minutes after midnight of 1 June 2023, local time, not `Date` values. User records keep only id, name and role.
- The grocery page's category and search filters: read-only views over the inventory.
- The grocery inventory is its own provider, so it is kept as its own list outside `Restaurant.RestaurantState`.
- AddGroceryForm.Submit uses the corrected fresh id (see Findings), not the length-derived one.
- The grocery inventory is not reachable in the running app. `src/App.tsx:31-44` has no grocery route, and the sidebar (`src/components/Layout.tsx:17-29`) has no grocery entry. `useGroceryProvider` (`src/contexts/restaurant/GroceryContext.tsx:58`) is called nowhere. The grocery page reads its functions from the restaurant context (`src/pages/Grocery.tsx:18`), which provides none of them. The grocery modules model the code as written, as if it were wired in.
- `addMenuItem` is not reachable in the running app. It is defined only in the split menu provider (`src/contexts/restaurant/MenuContext.tsx:28-38`) and exposed only through the split provider's combined value (`src/contexts/restaurant/RestaurantProvider.tsx:46-54`). The mounted provider's value (`src/contexts/RestaurantContext.tsx:199-214`) does not include it, and no page or component calls it. `MenuRegistry.AddMenuItem` and the `Restaurant.Action.AddMenuItem` case model it as written, as if it were wired in.
- The menu card also admits a "chef" role to its switch (`src/components/MenuItemCard.tsx:27`). No user can hold that role, so only admins can toggle.

The table buttons and the order list enforce no status transition table. Bills are generated and paid without checking the order's status or an earlier bill.

## Findings

| source | as written | input that shows it | evidently intended | confidence | as-written member | corrected member |
|---|---|---|---|---|---|---|
| src/contexts/restaurant/GroceryContext.tsx:88 | a new grocery id is "groc" + pad3(length + 1), and `deleteGroceryItem` (lines 105-122) can shorten the list | start from the five initial items, delete groc001, then add any item: the new item gets groc005, which the last remaining item already has | a new id unused by any current item, e.g. one past the largest number in use | high (not executed); latent, since the grocery inventory is not reachable in the app | GroceryInventory.DeleteThenAddReusesId | GroceryInventory.AddGroceryItemFresh |
