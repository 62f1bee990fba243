/**
 * Records and statuses of the restaurant application (project/src/types/index.ts),
 * and the rows of the hosted row store as the application writes them.
 *
 * Money is integer cents and timestamps are integer milliseconds. A row keeps the
 * key spelling its writer used: where one writer sends `payment_method` and a
 * reader looks up `paymentMethod`, both keys are fields here (an absent key is
 * `None`), so every reader reads exactly the key it names.
 */
module Types {

  datatype Option<T> = None | Some(value: T)

  /** What `x || fallback` yields in the source for an optional value. */
  function GetOr<T>(o: Option<T>, fallback: T): T
  {
    match o
    case Some(v) => v
    case None => fallback
  }

  type Id = int

  /** A point in time, in milliseconds since the Unix epoch (what a `Date` holds). */
  type Time = int

  /** `new Date(null)`, `new Date(0)`: the Unix epoch. */
  const Epoch: Time := 0

  datatype OrderStatus = Pending | Completed | Cancelled
  datatype TransactionStatus = TxPending | TxCompleted | TxFailed
  datatype ReservationStatus = Confirmed | Seated | ReservationCancelled
  datatype TableStatus = Available | Occupied

  /** A menu row; `category` is read by the order form although the declared type omits it. */
  datatype MenuItem = MenuItem(id: int, name: string, price: int, category: Option<string>)

  /** The domain order line: a menu-item id, a quantity and optional notes. */
  datatype OrderItem = OrderItem(menuItemId: int, quantity: int, notes: Option<string>)

  /** The domain order record. */
  datatype Order = Order(id: Id, tableId: int, items: seq<OrderItem>, total: int,
                         status: OrderStatus, createdAt: Time, updatedAt: Time)

  /** The domain transaction record; `paymentMethod` is an unrestricted string. */
  datatype Transaction = Transaction(id: Id, orderId: Id, amount: int, paymentMethod: string,
                                     status: TransactionStatus, createdAt: Time)

  /** The value stored under a line's `menu_item_id`: a JSON number or a JSON string. */
  datatype ItemRef = NumRef(n: int) | TextRef(text: seq<char>)

  /** An order line as stored in the `items` JSON column of an order row. */
  datatype StoredLine = StoredLine(menu_item_id: ItemRef, quantity: int, notes: Option<string>,
                                   menu_item: Option<MenuItem>)

  datatype OrderRow = OrderRow(id: Id, table_id: Option<int>, tableId: Option<int>,
                               items: seq<StoredLine>, total: int, status: OrderStatus,
                               createdAt: Option<Time>, updatedAt: Option<Time>)

  datatype TransactionRow = TransactionRow(id: Id, order_id: Option<Id>, orderId: Option<Id>,
                                           amount: int,
                                           payment_method: Option<string>, paymentMethod: Option<string>,
                                           status: TransactionStatus,
                                           created_at: Option<Time>, createdAt: Option<Time>)

  /** A cash-out; `end_time` and `final_amount` are optional. */
  datatype CashOutRow = CashOutRow(id: Id, start_time: Time, end_time: Option<Time>,
                                   initial_amount: int, final_amount: Option<int>,
                                   total_cash: int, total_card: int)

  /** A reservation; its table is optional. */
  datatype ReservationRow = ReservationRow(id: Id, customer_name: string, contact_info: string,
                                           table_id: Option<int>, reservation_time: Time,
                                           status: ReservationStatus, created_at: Time)

  datatype TableRow = TableRow(id: int, table_number: int, capacity: int, status: TableStatus)
}
