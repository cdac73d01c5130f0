/** The records of the restaurant dashboard: tables, menu items, customers,
    orders with per-item kitchen status, bills, grocery stock and staff users.
    Money is an exact `real`; instants are integers supplied by the caller. */
module Domain {
  import opened Wrappers

  type Instant = int

  datatype Role = Admin | Waiter

  datatype User = User(id: string, name: string, role: Role)

  datatype TableStatus = Available | Occupied | Reserved

  datatype Table = Table(
    id: string,
    number: int,
    capacity: int,
    status: TableStatus,
    currentCustomerId: Option<string>,
    waiter: Option<string>)

  datatype MenuItem = MenuItem(
    id: string,
    name: string,
    description: string,
    price: real,
    category: string,
    isAvailable: bool,
    image: Option<string>,
    cuisine: Option<string>,
    veg: Option<bool>)

  datatype Customer = Customer(
    id: string,
    name: string,
    phone: Option<string>,
    email: Option<string>,
    visits: Option<int>,
    membershipId: Option<string>,
    feedback: Option<string>)

  datatype GroceryItem = GroceryItem(
    id: string,
    name: string,
    category: string,
    price: real,
    unit: string,
    stock: int,
    isAvailable: bool,
    image: Option<string>,
    expiryDate: Option<string>)

  /** Kitchen status of one order line. */
  datatype ItemStatus = Pending | Preparing | Ready | Served | ItemCancelled

  datatype OrderItem = OrderItem(
    id: string,
    menuItemId: string,
    name: string,
    price: real,
    quantity: int,
    status: ItemStatus,
    notes: Option<string>)

  datatype OrderStatus = Active | Completed | Cancelled

  datatype Order = Order(
    id: string,
    tableId: string,
    customerId: Option<string>,
    waiterId: string,
    items: seq<OrderItem>,
    status: OrderStatus,
    createdAt: Instant,
    updatedAt: Instant)

  datatype PaymentStatus = PaymentPending | PaymentCompleted | PaymentFailed

  datatype Bill = Bill(
    id: string,
    orderId: string,
    tableId: string,
    customerId: Option<string>,
    waiterId: Option<string>,
    items: seq<OrderItem>,
    subtotal: real,
    tax: real,
    discount: Option<real>,
    total: real,
    paymentMethod: Option<string>,
    paymentStatus: PaymentStatus,
    createdAt: Instant)
}
