/** The demo data the dashboard starts from, and what holds of it. Instants
    are minutes after midnight of 1 June 2023. */
module Seed {
  import opened Wrappers
  import opened Domain
  import Ids
  import Money
  import TableRegistry
  import MenuRegistry
  import CustomerRegistry
  import OrderLifecycle
  import Billing
  import Restaurant

  function OnJune1(hour: nat, minute: nat): Instant
  {
    hour * 60 + minute
  }

  function Users(): seq<User>
  {
    [ User("user001", "John Doe", Admin), User("user002", "Jane Smith", Waiter),
      User("user003", "Mike Johnson", Waiter), User("user004", "Sarah Williams", Waiter) ]
  }

  function Tables(): seq<Table>
  {
    [ Table("table001", 1, 2, Available, None, None),
      Table("table002", 2, 4, Occupied, Some("cust002"), Some("user002")),
      Table("table003", 3, 6, Reserved, None, None),
      Table("table004", 4, 4, Available, None, None),
      Table("table005", 5, 8, Available, None, None),
      Table("table006", 6, 2, Occupied, Some("cust003"), Some("user004")) ]
  }

  function MenuItems(): seq<MenuItem>
  {
    [ MenuItem("item001", "Classic Burger", "Juicy beef patty with lettuce, tomato, and special sauce",
               12.99, "Main Course", true, None, Some("American"), Some(false)),
      MenuItem("item002", "Caesar Salad", "Crisp romaine lettuce with Caesar dressing, croutons, and parmesan",
               9.99, "Starters", true, None, Some("Italian"), Some(true)),
      MenuItem("item003", "Margherita Pizza", "Classic pizza with tomato sauce, fresh mozzarella, and basil",
               14.99, "Main Course", true, None, Some("Italian"), Some(true)),
      MenuItem("item004", "Chocolate Lava Cake", "Warm chocolate cake with a melted chocolate center",
               8.99, "Dessert", true, None, Some("International"), Some(true)),
      MenuItem("item005", "Seafood Paella", "Spanish rice dish with assorted seafood and saffron",
               22.99, "Main Course", false, None, Some("Spanish"), Some(false)),
      MenuItem("item006", "Chicken Wings", "Crispy chicken wings tossed in your choice of sauce",
               11.99, "Appetizers", true, None, Some("American"), Some(false)),
      MenuItem("item007", "Vegetable Stir Fry", "Mixed vegetables stir-fried in a savory sauce",
               13.99, "Main Course", true, None, Some("Asian"), Some(true)),
      MenuItem("item008", "Fresh Fruit Tart", "Buttery pastry shell filled with custard and topped with fresh fruits",
               7.99, "Dessert", true, None, Some("French"), Some(true)) ]
  }

  function Customers(): seq<Customer>
  {
    [ Customer("cust001", "Alice Brown", Some("+1 (555) 666-7777"), Some("alice@example.com"), Some(5), None, None),
      Customer("cust002", "Bob Green", Some("+1 (555) 777-8888"), Some("bob@example.com"), Some(3), Some("MEM001"), None),
      Customer("cust003", "Carol White", Some("+1 (555) 888-9999"), Some("carol@example.com"), Some(7),
               Some("MEM002"), Some("Great service and food!")) ]
  }

  function Order001Items(): seq<OrderItem>
  {
    [ OrderItem("orderitem001", "item001", "Classic Burger", 12.99, 2, Served, None),
      OrderItem("orderitem002", "item002", "Caesar Salad", 9.99, 1, Served, None) ]
  }

  function Orders(): seq<Order>
  {
    [ Order("order001", "table002", Some("cust002"), "user002", Order001Items(), Active,
            OnJune1(12, 30), OnJune1(12, 45)),
      Order("order002", "table006", Some("cust003"), "user004",
            [ OrderItem("orderitem003", "item003", "Margherita Pizza", 14.99, 1, Ready, None),
              OrderItem("orderitem004", "item006", "Chicken Wings", 11.99, 1, Preparing, None) ],
            Active, OnJune1(13, 15), OnJune1(13, 25)) ]
  }

  /** The stored bill: its tax is the 10% rounded to cents, and its total adds
      that rounded tax. */
  function Bills(): seq<Bill>
  {
    [ Bill("bill001", "order001", "table002", Some("cust002"), None, Order001Items(),
           35.97, 3.60, None, 39.57, Some("credit card"), PaymentPending, OnJune1(14, 0)) ]
  }

  function SeedState(): Restaurant.RestaurantState
  {
    Restaurant.RestaurantState(Tables(), MenuItems(), Customers(), Orders(), Bills())
  }

  /** A list whose i-th id is prefix + "00" + digit i+1 is numbered sequentially. */
  lemma SmallSequentialIds(prefix: string, ids: seq<string>)
    requires |ids| <= 9
    requires forall i :: 0 <= i < |ids| ==> ids[i] == prefix + ['0', '0', Ids.DigitChar(i + 1)]
    ensures Ids.SequentialIds(prefix, ids)
  {
    forall i | 0 <= i < |ids|
      ensures ids[i] == Ids.MakeId(prefix, i + 1)
    {
      var n := i + 1;
      assert n / 100 == 0 && n / 10 % 10 == 0 && n % 10 == n;
      Ids.Pad3Digits(n);
      assert Ids.Pad3(n) == ['0', '0', Ids.DigitChar(n)];
    }
  }

  lemma SeedTableIds()
    ensures Ids.SequentialIds("table", TableRegistry.TableIds(Tables()))
  {
    var ids := TableRegistry.TableIds(Tables());
    assert ids == ["table001", "table002", "table003", "table004", "table005", "table006"];
    SmallSequentialIds("table", ids);
  }

  lemma SeedMenuIds()
    ensures Ids.SequentialIds("item", MenuRegistry.MenuIds(MenuItems()))
  {
    var ids := MenuRegistry.MenuIds(MenuItems());
    assert ids == ["item001", "item002", "item003", "item004", "item005", "item006", "item007", "item008"];
    SmallSequentialIds("item", ids);
  }

  lemma SeedOtherIds()
    ensures Ids.SequentialIds("cust", CustomerRegistry.CustomerIds(Customers()))
    ensures Ids.SequentialIds("order", OrderLifecycle.OrderIds(Orders()))
    ensures Ids.SequentialIds("bill", Billing.BillIds(Bills()))
  {
    var c := CustomerRegistry.CustomerIds(Customers());
    assert c == ["cust001", "cust002", "cust003"];
    SmallSequentialIds("cust", c);
    var o := OrderLifecycle.OrderIds(Orders());
    assert o == ["order001", "order002"];
    SmallSequentialIds("order", o);
    var b := Billing.BillIds(Bills());
    assert b == ["bill001"];
    SmallSequentialIds("bill", b);
  }

  /** bill001 charges 2 x 12.99 + 9.99 = 35.97 for the lines of order001. */
  lemma Bill001Subtotal()
    ensures Money.Subtotal(Order001Items()) == 35.97 == 2.0 * 12.99 + 9.99
    ensures Bills()[0].subtotal == Money.Subtotal(Bills()[0].items)
  {
    var items := Order001Items();
    assert items[..1][..0] == [];
    assert items[..1] == [items[0]];
    assert items[..2 - 1] == items[..1];
  }

  /** The demo state satisfies the invariant every action preserves: ids
      numbered in list order, balanced bills, bills tied to their orders. */
  lemma SeedWellFormed()
    ensures Restaurant.WellFormed(SeedState())
  {
    SeedTableIds();
    SeedMenuIds();
    SeedOtherIds();
    Bill001Subtotal();
    assert Restaurant.RefersToOrder(Orders(), Bills()[0]) by {
      assert Orders()[0].id == Bills()[0].orderId;
    }
  }

  /** The id a list would hand out next, derived from its length, is not yet taken. */
  predicate NextIdUnused(prefix: string, ids: seq<string>)
  {
    Ids.NextId(prefix, |ids|) !in ids
  }

  lemma SequentialNextIdUnused(prefix: string, ids: seq<string>)
    requires Ids.SequentialIds(prefix, ids)
    ensures NextIdUnused(prefix, ids)
  {
    Ids.NextIdFresh(prefix, ids);
  }

  /** So the next id each list would hand out is not yet taken. */
  lemma SeedNextIdsFresh()
    ensures NextIdUnused("table", TableRegistry.TableIds(Tables()))
    ensures NextIdUnused("item", MenuRegistry.MenuIds(MenuItems()))
    ensures NextIdUnused("cust", CustomerRegistry.CustomerIds(Customers()))
    ensures NextIdUnused("order", OrderLifecycle.OrderIds(Orders()))
    ensures NextIdUnused("bill", Billing.BillIds(Bills()))
  {
    SeedTableIds();
    SeedMenuIds();
    SeedOtherIds();
    SequentialNextIdUnused("table", TableRegistry.TableIds(Tables()));
    SequentialNextIdUnused("item", MenuRegistry.MenuIds(MenuItems()));
    SequentialNextIdUnused("cust", CustomerRegistry.CustomerIds(Customers()));
    SequentialNextIdUnused("order", OrderLifecycle.OrderIds(Orders()));
    SequentialNextIdUnused("bill", Billing.BillIds(Bills()));
  }

  function UserIds(): seq<string>
  {
    seq(|Users()|, i requires 0 <= i < |Users()| => Users()[i].id)
  }

  /** Each demo order and bill names a table and a customer that exist, and
      each order a staff member as waiter. */
  lemma SeedReferencesResolve()
    ensures forall o :: o in Orders() ==>
      o.tableId in TableRegistry.TableIds(Tables()) && o.customerId.Some? &&
      o.customerId.value in CustomerRegistry.CustomerIds(Customers()) && o.waiterId in UserIds()
    ensures forall b :: b in Bills() ==>
      b.tableId in TableRegistry.TableIds(Tables()) && b.customerId.Some? &&
      b.customerId.value in CustomerRegistry.CustomerIds(Customers())
  {
    var t := TableRegistry.TableIds(Tables());
    var c := CustomerRegistry.CustomerIds(Customers());
    assert t[1] == "table002" && t[5] == "table006";
    assert c[1] == "cust002" && c[2] == "cust003";
    assert UserIds()[1] == "user002" && UserIds()[3] == "user004";
  }

  /** An active order sits on the table with the table's customer and waiter. */
  predicate ServesTable(o: Order, t: Table)
  {
    o.tableId == t.id && o.status == Active && o.customerId == t.currentCustomerId && Some(o.waiterId) == t.waiter
  }

  /** Each occupied demo table has an active demo order on it with the
      table's customer and waiter. */
  lemma OccupiedTablesHaveOrders()
    ensures forall i :: 0 <= i < |Tables()| && Tables()[i].status == Occupied ==>
      exists j :: 0 <= j < |Orders()| && ServesTable(Orders()[j], Tables()[i])
  {
    forall i | 0 <= i < |Tables()| && Tables()[i].status == Occupied
      ensures exists j :: 0 <= j < |Orders()| && ServesTable(Orders()[j], Tables()[i])
    {
      if i == 1 {
        assert ServesTable(Orders()[0], Tables()[1]);
      } else {
        assert i == 5;
        assert ServesTable(Orders()[1], Tables()[5]);
      }
    }
  }

  /** bill001 carries exactly order001's table, customer and lines. */
  lemma Bill001MatchesOrder001()
    ensures Bills()[0].orderId == Orders()[0].id
    ensures Bills()[0].items == Orders()[0].items
    ensures Bills()[0].tableId == Orders()[0].tableId && Bills()[0].customerId == Orders()[0].customerId
  {
  }

  /** The stored tax 3.60 is the 10% rounded to cents, not the 3.597 the bill
      generator computes; the stored total is subtotal plus the stored tax.
      A bill generated now for order001 would therefore differ. */
  lemma StoredTaxIsRounded(now: Instant)
    ensures Bills()[0].tax == 3.60 && Money.Tax(Bills()[0].subtotal) == 3.597
    ensures Bills()[0].total == Bills()[0].subtotal + Bills()[0].tax
    ensures var g := Billing.GenerateBill(Orders(), Bills(), "order001", Some("credit card"), now);
            g.Success? && g.value.1.tax == 3.597 && g.value.1.total == 39.567
            && g.value.1.tax != Bills()[0].tax && g.value.1.total != Bills()[0].total
  {
    Bill001Subtotal();
    Billing.FindOrderAt(Orders(), 0);
  }
}
