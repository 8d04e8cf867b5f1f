/**
 The order database seen as orders rather than rows, together with the transactional outbox.
 `OrderRepository` holds the same state as rows and is proved to refine these transactions.
 */
module OrderStore {
  import opened Wrappers
  import opened Integers
  import opened Text
  import opened Enums
  import opened Domain

  const ORDER_CREATED_TOPIC := "orders.created"
  const ORDER_CANCELLED_TOPIC := "order.cancelled"

  datatype OutboxRow = OutboxRow(
    topic: string,
    key: string,
    payload: Event,
    attempts: int,
    lockedAt: Option<Time>,
    createdAt: Time,
    publishedAt: Option<Time>)

  /** The id of an outbox row; `OrderIDs` shows that its text determines it. */
  datatype RowID = CreatedID(order: string) | CancelledID(order: string)

  datatype Store = Store(orders: map<string, Order>, outbox: map<RowID, OutboxRow>)

  datatype OrderError =
    | InvalidOrder
    | InvalidOrderID
    | OrderNotFound
    | OrderAlreadyExists
    | IdempotencyKeyAlreadyExists
    | IdempotencyKeyConflict
    | OrderCannotBeCancelled
    | DatabaseError  // a constraint, an unreadable row, a duplicate outbox id

  // ----- what reaches the tables -----

  /** The order as it reads back once written. */
  function Persisted(o: Order): Order {
    o.(idempotencyKey := Trim(o.idempotencyKey), cancelReason := Trim(o.cancelReason),
       createdAt := Stored(o.createdAt), updatedAt := Stored(o.updatedAt))
  }

  /** `validateOrder`. */
  predicate Incomplete(id: string, customerID: string, address: Address, payment: PaymentDetails) {
    || Blank(id) || Blank(customerID)
    || Blank(address.country) || Blank(address.city) || Blank(address.street)
    || Blank(address.postalCode) || Blank(address.house)
    || payment.payMethod == METHOD_UNSPECIFIED
  }

  predicate BadItem(i: OrderItem) {
    || i.quantity <= 0 || i.unitPrice.cents <= 0 || i.totalPrice.cents <= 0
    || !KnownCurrency(i.unitPrice.currency) || !KnownCurrency(i.totalPrice.currency)
  }

  /** A constraint of the tables rejects the content, or the rows just written do not read back. */
  predicate BadContent(total: Money, items: seq<OrderItem>, payment: PaymentDetails) {
    || total.cents <= 0 || !KnownCurrency(total.currency) || !KnownMethod(payment.payMethod)
    || |items| > MAX_INT32 + 1
    || exists i | 0 <= i < |items| :: BadItem(items[i])
  }

  predicate Unstorable(o: Order) {
    o.createdAt == 0 || o.updatedAt == 0 || BadContent(o.total, o.items, o.payment)
  }

  /** NOT NULL and CHECK constraints of the order row; they come before the unique ones. */
  predicate RowRejected(o: Order) {
    o.createdAt == 0 || o.updatedAt == 0 || o.total.cents <= 0
  }

  predicate KeyTaken(s: Store, key: string, except: string) {
    key != "" && exists id | id in s.orders :: id != except && s.orders[id].idempotencyKey == key
  }

  function CreatedRow(o: Order, at: Time): OutboxRow {
    OutboxRow(ORDER_CREATED_TOPIC, o.id, CreatedEvent(o), 0, None, Stored(at), None)
  }

  function CancelledRow(o: Order, at: Time): OutboxRow {
    OutboxRow(ORDER_CANCELLED_TOPIC, o.id, CancelledEvent(o), 0, None, Stored(at), None)
  }

  // ----- transactions -----

  /** `CreateOrder`: the order and its event together, or neither. */
  function CreateTx(s: Store, o: Order, at: Time): Result<Store, OrderError> {
    if Incomplete(o.id, o.customerID, o.address, o.payment) then Err(InvalidOrder)
    else if RowRejected(o) then Err(DatabaseError)
    else if o.id in s.orders then Err(OrderAlreadyExists)
    else if KeyTaken(s, Trim(o.idempotencyKey), o.id) then Err(IdempotencyKeyAlreadyExists)
    else if Unstorable(o) || CreatedID(o.id) in s.outbox then Err(DatabaseError)
    else Ok(Store(s.orders[o.id := Persisted(o)], s.outbox[CreatedID(o.id) := CreatedRow(o, at)]))
  }

  /**
   `UpdateOrder`. `seen` is the status its first, unlocked, statement read: the cancelled event is
   written when that differs from the new status.
   */
  function UpdateTx(s: Store, o: Order, seen: OrderStatus, at: Time): Result<Store, OrderError> {
    if Incomplete(o.id, o.customerID, o.address, o.payment) then Err(InvalidOrder)
    else if o.id !in s.orders then Err(OrderNotFound)
    else if Unstorable(o) || KeyTaken(s, Trim(o.idempotencyKey), o.id) then Err(DatabaseError)
    else
      var cancels := seen != o.status && o.status == Cancelled;
      if cancels && CancelledID(o.id) in s.outbox then Err(DatabaseError)
      else Ok(Store(s.orders[o.id := Persisted(o)],
                    if cancels then s.outbox[CancelledID(o.id) := CancelledRow(Persisted(o), at)] else s.outbox))
  }

  /** With the read and the write in one step. */
  function UpdateAtomic(s: Store, o: Order, at: Time): Result<Store, OrderError> {
    UpdateTx(s, o, if o.id in s.orders then s.orders[o.id].status else o.status, at)
  }
}
