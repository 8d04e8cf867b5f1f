/** The order aggregate and the events the services exchange. */
module Domain {
  import opened Wrappers
  import opened Integers
  import opened Enums
  import opened Text

  /** Nanoseconds on one clock; 0 stands for the zero time. */
  type Time = nat

  /** A reading of the clock: later than the first microsecond of time. */
  type Clock = t: Time | t >= 1000 witness 1000

  /** TIMESTAMPTZ keeps microseconds. */
  function Stored(t: Time): Time {
    t - t % 1000
  }

  lemma StoredClock(t: Time)
    ensures t >= 1000 ==> Stored(t) >= 1000
    ensures Stored(Stored(t)) == Stored(t)
  {
  }

  datatype Money = Money(currency: int32, cents: int64)

  datatype OrderItem = OrderItem(
    productID: string, sku: string, productName: string, quantity: int32, unitPrice: Money, totalPrice: Money)

  datatype Address = Address(
    country: string, city: string, street: string, postalCode: string, house: string, apartment: string)

  datatype PaymentDetails = PaymentDetails(payMethod: int32, details: string)

  datatype Order = Order(
    id: string,
    customerID: string,
    idempotencyKey: string,
    items: seq<OrderItem>,
    total: Money,
    status: OrderStatus,
    address: Address,
    payment: PaymentDetails,
    cancelReason: string,
    createdAt: Time,
    updatedAt: Time)

  // ----- event payloads: enumerations travel by name -----

  datatype EventMoney = EventMoney(currency: string, cents: int64)

  datatype EventPayment = EventPayment(payMethod: string, details: string)

  datatype OrderCreatedItem = OrderCreatedItem(
    productID: string, sku: string, productName: string, quantity: int32, unitPrice: EventMoney, totalPrice: EventMoney)

  datatype ReservationItem = ReservationItem(productID: string, quantity: int64)

  datatype Event =
    | OrderCreated(orderID: string, customerID: string, status: string, amount: EventMoney,
                   address: Address, payment: EventPayment, lines: seq<OrderCreatedItem>)
    | OrderCancelled(orderID: string, customerID: string, reason: string)
    | InventoryReserved(orderID: string, customerID: string, amount: EventMoney, payment: EventPayment,
                        items: seq<ReservationItem>)
    | ReservationFailed(orderID: string, customerID: string, failedItem: Option<ReservationItem>, reason: string)
    | PaymentCreated(orderID: string, customerID: string, paymentID: string, status: string)
    | PaymentCreationFailed(orderID: string, customerID: string, reason: string)
    | PaymentCaptured(orderID: string, customerID: string, paymentID: string, status: string)
    | PaymentFailed(orderID: string, customerID: string, paymentID: string, status: string, reason: string)

  function SentMoney(m: Money): EventMoney {
    EventMoney(CurrencyName(m.currency), m.cents)
  }

  function SentItem(i: OrderItem): OrderCreatedItem {
    OrderCreatedItem(i.productID, i.sku, i.productName, i.quantity, SentMoney(i.unitPrice), SentMoney(i.totalPrice))
  }

  function SentPayment(p: PaymentDetails): EventPayment {
    EventPayment(MethodName(p.payMethod), p.details)
  }

  function CreatedEvent(o: Order): Event {
    OrderCreated(o.id, o.customerID, StatusName(o.status), SentMoney(o.total), o.address, SentPayment(o.payment),
                 seq(|o.items|, i requires 0 <= i < |o.items| => SentItem(o.items[i])))
  }

  function CancelledEvent(o: Order): Event {
    OrderCancelled(o.id, o.customerID, o.cancelReason)
  }

  // ----- demanded quantities -----

  function Reservations(lines: seq<OrderCreatedItem>): (r: seq<ReservationItem>)
    ensures |r| == |lines|
  {
    seq(|lines|, i requires 0 <= i < |lines| => ReservationItem(lines[i].productID, lines[i].quantity))
  }

  /** How much of product `p` a list of lines asks for; the same product may be listed more than once. */
  function Quantity(items: seq<ReservationItem>, p: string): int {
    if items == [] then 0
    else
      var n := |items| - 1;
      Quantity(items[..n], p) + if items[n].productID == p then items[n].quantity else 0
  }

  function ReservedEvent(e: Event): Event
    requires e.OrderCreated?
  {
    InventoryReserved(e.orderID, e.customerID, e.amount, e.payment, Reservations(e.lines))
  }

  /** What the lines of an order come to for product `p`. */
  function Ordered(items: seq<OrderItem>, p: string): int {
    if items == [] then 0
    else
      var n := |items| - 1;
      Ordered(items[..n], p) + if items[n].productID == p then items[n].quantity else 0
  }

  /** The same of the lines of an order.created message. */
  function Listed(lines: seq<OrderCreatedItem>, p: string): int {
    if lines == [] then 0
    else
      var n := |lines| - 1;
      Listed(lines[..n], p) + if lines[n].productID == p then lines[n].quantity else 0
  }

  /** What an order demands of product `p`. */
  function Demand(o: Order, p: string): int {
    Ordered(o.items, p)
  }

  lemma {:induction false} ReservationsListed(lines: seq<OrderCreatedItem>, p: string)
    ensures Quantity(Reservations(lines), p) == Listed(lines, p)
    decreases |lines|
  {
    if lines != [] {
      var n := |lines| - 1;
      assert Reservations(lines)[..n] == Reservations(lines[..n]);
      ReservationsListed(lines[..n], p);
    }
  }

  lemma {:induction false} ListedIsOrdered(o: Order, p: string)
    ensures Listed(CreatedEvent(o).lines, p) == Ordered(o.items, p)
    decreases |o.items|
  {
    hide CurrencyName, MethodName, StatusName;
    if o.items != [] {
      var n := |o.items| - 1;
      var shorter := o.(items := o.items[..n]);
      assert CreatedEvent(o).lines[..n] == CreatedEvent(shorter).lines;
      ListedIsOrdered(shorter, p);
    }
  }

  /** The reservations made for an order's order.created message are what its lines demand. */
  lemma ReservedIsDemanded(o: Order, p: string)
    ensures Quantity(Reservations(CreatedEvent(o).lines), p) == Demand(o, p)
  {
    hide CreatedEvent, Reservations, Listed, Quantity, Ordered;
    CreatedLines(o);
    ReservationsListed(CreatedEvent(o).lines, p);
    ListedIsOrdered(o, p);
  }

  lemma CreatedLines(o: Order)
    ensures CreatedEvent(o).OrderCreated?
  {
    hide CurrencyName, MethodName, StatusName;
  }

  /** Every line asks for something, of a named product. */
  predicate AllPositive(items: seq<ReservationItem>) {
    forall i | 0 <= i < |items| :: items[i].quantity > 0 && !Blank(items[i].productID)
  }

  lemma {:induction false} QuantityNonNegative(items: seq<ReservationItem>, p: string)
    requires AllPositive(items)
    ensures Quantity(items, p) >= 0
    decreases |items|
  {
    if items != [] {
      QuantityNonNegative(items[..|items| - 1], p);
    }
  }
}
